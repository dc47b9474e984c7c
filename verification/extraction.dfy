/** `parseCode`: the text is split into lines; a declaration line inserts its class (looking
    for a parent only when the class is new) and makes it the current class; any other line,
    once a current class exists, adds the known class names it mentions to the current class's
    references, unless a mention is a call. */
module Extraction {
  import opened Outcomes
  import opened Text
  import opened Orders
  import opened Graph
  import opened Declaration
  import opened Dialects

  /** The state carried from line to line: the graph, `curClass` by name, and `parsedCode`. */
  datatype Scan = Scan(graph: CodeData, current: Option<string>, parsed: bool)

  /** One line processed: the next state, or the exception, with the graph as it stood when
      it was raised. */
  datatype Step = Next(scan: Scan) | Stop(graph: CodeData, error: Failure)

  /** A call of `parseCode`: its return value and the graph it leaves, or the exception and
      the graph it leaves. */
  datatype Outcome = Completed(graph: CodeData, parsed: bool) | Threw(graph: CodeData, error: Failure)

  /** The graph an outcome leaves, whichever way the call ended. */
  function Final(o: Outcome): CodeData {
    match o
    case Completed(g, _) => g
    case Threw(g, _) => g
  }

  /** The graph after one line, whichever way the line ended. */
  function StepGraph(r: Step): CodeData {
    match r
    case Next(t) => t.graph
    case Stop(g, _) => g
  }

  /** What the loop body reads off one line: its text, the class name cut out of it when the
      pattern matches, and the value of the `when` over the language, which is the parent the
      dialect's finder reports or the exception, `UnsupportedLanguage` included. Both are pure
      functions of the line; the loop consults `parent` only for a class it has not seen. */
  datatype Line = Line(text: string, declared: Option<string>, parent: Result<Option<string>>)

  /** The parent a finder result reports, as a set. */
  function Reported(parent: Result<Option<string>>): set<string> {
    if parent.Ok? && parent.value.Some? then {parent.value.value} else {}
  }

  /** The name and the parent are cut out of the line's text. */
  ghost predicate Sound(l: Line) {
    && (l.declared.Some? ==> forall c :: c in l.declared.value ==> c in l.text)
    && (forall p :: p in Reported(l.parent) ==> forall c :: c in p ==> c in l.text)
  }

  /** The line as `parseCode(language, …)` sees it. */
  function Classify(variant: Variant, language: string, text: string): (l: Line)
    ensures l.text == text && l.declared == DeclaredName(text) && Sound(l)
    ensures SelectDialect(language).None? ==> l.parent == Err(UnsupportedLanguage(language))
    ensures SelectDialect(language).Some? ==> l.parent == FindParent(variant, SelectDialect(language).value, text)
  {
    var dialect := SelectDialect(language);
    var parent := if dialect.None? then Err(UnsupportedLanguage(language)) else FindParent(variant, dialect.value, text);
    LineSound(variant, dialect, text, parent);
    Line(text, DeclaredName(text), parent)
  }

  /** The name and the parent the loop body reads are both cut from the line. */
  lemma {:induction false} LineSound(variant: Variant, dialect: Option<Dialect>, text: string, parent: Result<Option<string>>)
    requires dialect.None? ==> parent.Err?
    requires dialect.Some? ==> parent == FindParent(variant, dialect.value, text)
    ensures Sound(Line(text, DeclaredName(text), parent))
  {
    var declared := DeclaredName(text);
    if declared.Some? { NameFromLine(text); }
    if parent.Ok? && parent.value.Some? { ParentFromLine(variant, dialect.value, text); }
    SoundFrom(text, declared, parent);
  }

  /** `Sound`, from its two halves. */
  lemma {:induction false} SoundFrom(text: string, declared: Option<string>, parent: Result<Option<string>>)
    requires declared.Some? ==> forall c :: c in declared.value ==> c in text
    requires parent.Ok? && parent.value.Some? ==> forall c :: c in parent.value.value ==> c in text
    ensures Sound(Line(text, declared, parent))
  {
  }

  /** Every line of the text, as `parseCode(language, …)` sees it. */
  function ClassifyAll(variant: Variant, language: string, texts: seq<string>): (ls: seq<Line>)
    ensures |ls| == |texts| && forall i :: 0 <= i < |texts| ==> ls[i] == Classify(variant, language, texts[i])
    ensures NoNewlines(texts) ==> SoundLines(ls)
  {
    var ls := seq(|texts|, i requires 0 <= i < |texts| => Classify(variant, language, texts[i]));
    assert NoNewlines(texts) ==> SoundLines(ls) by {
      if NoNewlines(texts) {
        forall i | 0 <= i < |ls| ensures SoundText(ls[i]) {
          assert ls[i].text == texts[i];
        }
      }
    }
    ls
  }

  /** Line `i` of the classified text carries that line's text and declaration. */
  lemma {:induction false} ClassifiedLine(variant: Variant, language: string, texts: seq<string>, i: nat)
    requires i < |texts|
    ensures ClassifyAll(variant, language, texts)[i].text == texts[i]
    ensures ClassifyAll(variant, language, texts)[i].declared == DeclaredName(texts[i])
  {
    assert ClassifyAll(variant, language, texts)[i] == Classify(variant, language, texts[i]);
  }

  /** Some classified line declares a class exactly when some line of the text does. */
  lemma {:induction false} SomeLineDeclares(variant: Variant, language: string, texts: seq<string>)
    ensures (exists i :: 0 <= i < |texts| && Declares(ClassifyAll(variant, language, texts)[i]))
        <==> exists line :: line in texts && DeclaredName(line).Some?
  {
    var lines := ClassifyAll(variant, language, texts);
    if exists line :: line in texts && DeclaredName(line).Some? {
      var line :| line in texts && DeclaredName(line).Some?;
      var i :| 0 <= i < |texts| && texts[i] == line;
      ClassifiedLine(variant, language, texts, i);
      assert Declares(lines[i]);
    }
    if exists i :: 0 <= i < |texts| && Declares(lines[i]) {
      var i :| 0 <= i < |texts| && Declares(lines[i]);
      ClassifiedLine(variant, language, texts, i);
      assert texts[i] in texts;
    }
  }

  /** Some classified line declares a class new to `g` exactly when some line of the text does. */
  lemma {:induction false} SomeLineDeclaresNew(variant: Variant, language: string, texts: seq<string>, g: CodeData)
    ensures (exists i :: 0 <= i < |texts| && DeclaresNew(ClassifyAll(variant, language, texts)[i], g))
        <==> exists line :: line in texts && DeclaredName(line).Some? && DeclaredName(line).value !in g.classes
  {
    if exists line :: line in texts && DeclaredName(line).Some? && DeclaredName(line).value !in g.classes {
      var line :| line in texts && DeclaredName(line).Some? && DeclaredName(line).value !in g.classes;
      var i :| 0 <= i < |texts| && texts[i] == line;
      NewLineClassified(variant, language, texts, g, i);
    }
    if exists i :: 0 <= i < |texts| && DeclaresNew(ClassifyAll(variant, language, texts)[i], g) {
      var i :| 0 <= i < |texts| && DeclaresNew(ClassifyAll(variant, language, texts)[i], g);
      NewLineClassified(variant, language, texts, g, i);
    }
  }

  /** Line `i` declares a class new to `g` exactly when its text does. */
  lemma {:induction false} NewLineClassified(variant: Variant, language: string, texts: seq<string>, g: CodeData, i: nat)
    requires i < |texts|
    ensures DeclaresNew(ClassifyAll(variant, language, texts)[i], g)
        <==> texts[i] in texts && DeclaredName(texts[i]).Some? && DeclaredName(texts[i]).value !in g.classes
  {
    ClassifiedLine(variant, language, texts, i);
  }

  /** The line is cut from its own text, and that text holds no newline. */
  ghost predicate SoundText(l: Line) {
    Sound(l) && '\n' !in l.text
  }

  /** Every line is cut from its own newline-free text. */
  ghost predicate SoundLines(lines: seq<Line>) {
    forall i :: 0 <= i < |lines| ==> SoundText(lines[i])
  }

  /** The line is a class declaration. */
  predicate Declares(l: Line) {
    l.declared.Some?
  }

  /** The line declares a class `g` does not have yet. */
  predicate DeclaresNew(l: Line, g: CodeData) {
    l.declared.Some? && l.declared.value !in g.classes
  }

  /** The current class, when there is one, is in the graph. */
  ghost predicate Coherent(s: Scan) {
    Valid(s.graph) && (s.current.Some? ==> s.current.value in s.graph.classes)
  }

  /** What processing line `l` keeps true when it turns graph `g` into `h`: the classes of `g`
      keep their parent sets, no class gets a second parent, references stay within the graph,
      and no newline comes in unless the line's text holds one. */
  ghost predicate Preserves(g: CodeData, h: CodeData, l: Line) {
    && ParentsKept(g, h)
    && (SingleParents(g) ==> SingleParents(h))
    && (RefsKnown(g) ==> RefsKnown(h))
    && (SingleLine(g) && Sound(l) && '\n' !in l.text ==> SingleLine(h))
  }

  /** `line.indexOf(name) != -1`. */
  predicate Mentions(line: string, name: string) {
    IndexOf(line, name) != -1
  }

  /** The first occurrence of `name` is immediately followed by `(`. */
  predicate CallAt(line: string, name: string) {
    var i := IndexOf(line, name);
    i != -1 && i + |name| < |line| && line[i + |name|] == '('
  }

  /** The names the reference loop adds for one line, visiting `names` in order: a name that
      does not occur is passed over, a name whose first occurrence is a call ends the line, any
      other name is added. */
  function ScanRefs(line: string, names: seq<string>): (r: set<string>)
    ensures forall x :: x in r ==> x in names && Mentions(line, x) && !CallAt(line, x)
  {
    if |names| == 0 then {}
    else if !Mentions(line, names[0]) then ScanRefs(line, names[1..])
    else if CallAt(line, names[0]) then {}
    else {names[0]} + ScanRefs(line, names[1..])
  }

  /** A declaration of `name`: a known class becomes current again; a new one is inserted
      first, and only then is the parent result looked at. */
  function Declare(l: Line, name: string, s: Scan): (r: Step)
    requires Coherent(s) && l.declared == Some(name)
    ensures r.Next? ==> Coherent(r.scan) && Grows(s.graph, r.scan.graph) && r.scan.current == Some(name) && r.scan.parsed
    ensures r.Stop? ==> Valid(r.graph) && Grows(s.graph, r.graph)
    ensures Preserves(s.graph, StepGraph(r), l)
    ensures name in s.graph.classes ==> r == Next(Scan(s.graph, Some(name), true))
    ensures name !in s.graph.classes ==> StepGraph(r).keys == s.graph.keys + [name]
    ensures name !in s.graph.classes ==> (r.Stop? <==> l.parent.Err?)
    ensures name !in s.graph.classes && r.Next? ==> r.scan.graph.classes[name] == ClassData(Reported(l.parent), {})
    ensures r.Stop? ==> name !in s.graph.classes && r == Stop(Insert(s.graph, name), l.parent.error)
  {
    if name in s.graph.classes then
      Next(Scan(s.graph, Some(name), true))
    else
      NewClassGrows(s.graph, name, l.parent);
      NewClassPreserves(s.graph, name, l);
      Adopt(Insert(s.graph, name), name, l.parent)
  }

  /** Inserting a new class and adopting its parent only adds: the new key goes last, and the
      new class has the reported parent and no references. */
  lemma {:induction false} NewClassGrows(g: CodeData, name: string, parent: Result<Option<string>>)
    requires Valid(g) && name !in g.classes
    ensures Valid(StepGraph(Adopt(Insert(g, name), name, parent)))
    ensures Grows(g, StepGraph(Adopt(Insert(g, name), name, parent)))
    ensures StepGraph(Adopt(Insert(g, name), name, parent)).keys == g.keys + [name]
    ensures forall k :: k in g.classes ==> StepGraph(Adopt(Insert(g, name), name, parent)).classes[k] == g.classes[k]
    ensures Adopt(Insert(g, name), name, parent).Next? ==>
      Adopt(Insert(g, name), name, parent).scan.graph.classes[name] == ClassData(Reported(parent), {})
  {
    var i := Insert(g, name);
    var r := Adopt(i, name, parent);
    var h := StepGraph(r);
    assert h.classes.Keys == i.classes.Keys;
    forall k | k in g.classes ensures k in h.classes && h.classes[k] == g.classes[k] {
      assert k != name && i.classes[k] == g.classes[k];
    }
  }

  /** Inserting a new class and adopting its parent keeps the four invariants of `Preserves`. */
  lemma {:induction false} NewClassPreserves(g: CodeData, name: string, l: Line)
    requires Valid(g) && name !in g.classes && l.declared == Some(name)
    ensures Preserves(g, StepGraph(Adopt(Insert(g, name), name, l.parent)), l)
  {
    var h := StepGraph(Adopt(Insert(g, name), name, l.parent));
    NewClassGrows(g, name, l.parent);
    assert h.classes[name].parents <= Reported(l.parent) && h.classes[name].refs == {};
    assert forall k :: k in h.classes ==> k in g.classes || k == name;
    AddedClassPreserves(g, h, name, l);
  }

  /** A graph that differs from `g` only by the class the line declares, with at most the
      parent the line reports and no reference, keeps the four invariants of `Preserves`. */
  lemma {:induction false} AddedClassPreserves(g: CodeData, h: CodeData, name: string, l: Line)
    requires name !in g.classes && name in h.classes && l.declared == Some(name)
    requires forall k :: k in h.classes ==> k in g.classes || k == name
    requires forall k :: k in g.classes ==> k in h.classes && h.classes[k] == g.classes[k]
    requires h.classes[name].parents <= Reported(l.parent) && h.classes[name].refs == {}
    ensures Preserves(g, h, l)
  {
    var ps := h.classes[name].parents;
    if l.parent.Ok? && l.parent.value.Some? {
      if l.parent.value.value in ps { assert ps == {l.parent.value.value}; } else { assert ps == {}; }
    } else {
      assert ps == {};
    }
    if SingleLine(g) && Sound(l) && '\n' !in l.text {
      forall k | k in h.classes
        ensures '\n' !in k && (forall p :: p in h.classes[k].parents ==> '\n' !in p) && (forall x :: x in h.classes[k].refs ==> '\n' !in x)
      {
        if k == name {
          forall p | p in h.classes[k].parents ensures '\n' !in p {
            assert p in Reported(l.parent);
          }
        }
      }
    }
  }

  /** The new class `name` becomes current, with the parent the finder reported, if any. */
  function Adopt(g: CodeData, name: string, parent: Result<Option<string>>): (r: Step)
    requires Valid(g) && name in g.classes
    ensures r.Next? ==> Coherent(r.scan) && r.scan.current == Some(name) && r.scan.parsed && Grows(g, r.scan.graph)
    ensures r.Next? ==> r.scan.graph.keys == g.keys && r.scan.graph.classes.Keys == g.classes.Keys
    ensures r.Next? ==> forall k :: k in g.classes && k != name ==> r.scan.graph.classes[k] == g.classes[k]
    ensures r.Next? ==> r.scan.graph.classes[name] == g.classes[name].(parents := g.classes[name].parents + Reported(parent))
    ensures r.Stop? <==> parent.Err?
    ensures r.Stop? ==> r == Stop(g, parent.error)
  {
    match parent
    case Err(e) => Stop(g, e)
    case Ok(None) => Next(Scan(g, Some(name), true))
    case Ok(Some(p)) => Next(Scan(AddParent(g, name, p), Some(name), true))
  }

  /** A line that declares nothing, seen while `c` is the current class. */
  function Refer(order: KeyOrder, l: Line, c: string, s: Scan): (r: Scan)
    requires Coherent(s) && c in s.graph.classes
    ensures Coherent(r) && Grows(s.graph, r.graph) && r.current == s.current && (s.parsed ==> r.parsed)
    ensures r.graph.keys == s.graph.keys && r.graph.classes.Keys == s.graph.classes.Keys
    ensures Preserves(s.graph, r.graph, l)
  {
    var names := order(s.graph.keys);
    assert Reorders(names, s.graph.keys);
    var found := ScanRefs(l.text, names);
    assert forall x :: x in found ==> x in s.graph.classes;
    RefsPreserve(s.graph, c, found, l);
    Scan(AddRefs(s.graph, c, found), s.current, s.parsed || found != {})
  }

  /** Adding references to known classes only adds, and keeps the four invariants of
      `Preserves`. */
  lemma {:induction false} RefsPreserve(g: CodeData, c: string, found: set<string>, l: Line)
    requires Valid(g) && c in g.classes && forall x :: x in found ==> x in g.classes
    ensures Valid(AddRefs(g, c, found)) && Grows(g, AddRefs(g, c, found))
    ensures Preserves(g, AddRefs(g, c, found), l)
  {
    AddRefsKeeps(g, c, found);
  }

  /** One iteration of the `codestring` loop. */
  function ParseLine(order: KeyOrder, l: Line, s: Scan): (r: Step)
    requires Coherent(s)
    ensures r.Next? ==> Coherent(r.scan) && Grows(s.graph, r.scan.graph)
    ensures r.Stop? ==> Valid(r.graph) && Grows(s.graph, r.graph)
    ensures Preserves(s.graph, StepGraph(r), l)
    ensures Declares(l) && r.Next? ==> r.scan.current == l.declared && r.scan.parsed
    ensures !Declares(l) ==> r.Next? && r.scan.current == s.current && (s.parsed ==> r.scan.parsed)
    ensures !Declares(l) ==> StepGraph(r).keys == s.graph.keys && StepGraph(r).classes.Keys == s.graph.classes.Keys
    ensures !Declares(l) && s.current.None? ==> r == Next(s)
    ensures Declares(l) && !DeclaresNew(l, s.graph) ==> r == Next(Scan(s.graph, l.declared, true))
    ensures DeclaresNew(l, s.graph) ==> StepGraph(r).keys == s.graph.keys + [l.declared.value]
    ensures DeclaresNew(l, s.graph) && r.Next? ==> r.scan.graph.classes[l.declared.value] == ClassData(Reported(l.parent), {})
    ensures r.Stop? <==> DeclaresNew(l, s.graph) && l.parent.Err?
    ensures r.Stop? ==> r == Stop(Insert(s.graph, l.declared.value), l.parent.error)
  {
    match l.declared
    case Some(name) => Declare(l, name, s)
    case None =>
      if s.current.None? then Next(s) else Next(Refer(order, l, s.current.value, s))
  }

  /** The `codestring` loop over the remaining lines. */
  function ParseLines(order: KeyOrder, lines: seq<Line>, s: Scan): (o: Outcome)
    requires Coherent(s)
    ensures Valid(Final(o)) && Grows(s.graph, Final(o))
    decreases |lines|
  {
    if |lines| == 0 then Completed(s.graph, s.parsed)
    else
      match ParseLine(order, lines[0], s)
      case Stop(g, e) => Threw(g, e)
      case Next(s') => ParseLines(order, lines[1..], s')
  }

  /** `parseCode(language, codeText, codeData)`: no current class and `parsedCode` false at
      the start of every call. */
  function ParseCode(variant: Variant, language: string, order: KeyOrder, text: string, g: CodeData): (o: Outcome)
    requires Valid(g)
    ensures Valid(Final(o)) && Grows(g, Final(o))
  {
    ParseLines(order, ClassifyAll(variant, language, SplitLines(text)), Scan(g, None, false))
  }

  /** The loop gets past the first `i` names without meeting a call. */
  predicate Reached(line: string, names: seq<string>, i: nat)
    requires i <= |names|
  {
    forall j :: 0 <= j < i ==> !CallAt(line, names[j])
  }

  /** A name is added exactly when it occurs, its first occurrence is not a call, and no name
      visited before it had a call as its first occurrence. */
  lemma {:induction false} ScanRefsSpec(line: string, names: seq<string>)
    ensures forall x :: x in ScanRefs(line, names) <==>
      exists i :: 0 <= i < |names| && names[i] == x && Reached(line, names, i) && Mentions(line, x) && !CallAt(line, x)
    decreases |names|
  {
    if |names| > 0 {
      ScanRefsSpec(line, names[1..]);
      forall x ensures x in ScanRefs(line, names) <==>
        exists i :: 0 <= i < |names| && names[i] == x && Reached(line, names, i) && Mentions(line, x) && !CallAt(line, x)
      {
        ScanRefsStep(line, names, x);
      }
    }
  }

  /** One step of `ScanRefsSpec`: what holds of `x` after the first name follows from what
      holds of it after the rest. */
  lemma {:induction false} ScanRefsStep(line: string, names: seq<string>, x: string)
    requires |names| > 0
    requires x in ScanRefs(line, names[1..]) <==>
      exists i :: 0 <= i < |names[1..]| && names[1..][i] == x && Reached(line, names[1..], i) && Mentions(line, x) && !CallAt(line, x)
    ensures x in ScanRefs(line, names) <==>
      exists i :: 0 <= i < |names| && names[i] == x && Reached(line, names, i) && Mentions(line, x) && !CallAt(line, x)
  {
    var tail := names[1..];
    if x in ScanRefs(line, names) {
      if x == names[0] && Mentions(line, x) && !CallAt(line, x) {
        assert Reached(line, names, 0);
      } else {
        assert x in ScanRefs(line, tail);
        var i :| 0 <= i < |tail| && tail[i] == x && Reached(line, tail, i) && Mentions(line, x) && !CallAt(line, x);
        ReachedShift(line, names, i);
        assert names[i + 1] == x;
      }
    }
    if exists i :: 0 <= i < |names| && names[i] == x && Reached(line, names, i) && Mentions(line, x) && !CallAt(line, x) {
      var i :| 0 <= i < |names| && names[i] == x && Reached(line, names, i) && Mentions(line, x) && !CallAt(line, x);
      if i > 0 {
        ReachedShift(line, names, i - 1);
        assert tail[i - 1] == x;
        assert !CallAt(line, names[0]);
      }
    }
  }

  /** Getting past the first `i + 1` names is getting past the first and then `i` of the rest. */
  lemma {:induction false} ReachedShift(line: string, names: seq<string>, i: nat)
    requires i < |names|
    ensures Reached(line, names, i + 1) <==> !CallAt(line, names[0]) && Reached(line, names[1..], i)
  {
    var tail := names[1..];
    assert forall j :: 0 <= j < i ==> tail[j] == names[j + 1];
    if !CallAt(line, names[0]) && Reached(line, tail, i) {
      forall j | 0 <= j < i + 1 ensures !CallAt(line, names[j]) {
        if j > 0 { assert names[j] == tail[j - 1]; }
      }
    }
  }

  /** On a line where no name is called, every name that occurs is added. */
  lemma {:induction false} NoCallAddsAllMentioned(line: string, names: seq<string>)
    requires forall j :: 0 <= j < |names| ==> !CallAt(line, names[j])
    ensures ScanRefs(line, names) == set x | x in names && Mentions(line, x)
  {
    ScanRefsSpec(line, names);
    forall x | x in names && Mentions(line, x) ensures x in ScanRefs(line, names) {
      var i :| 0 <= i < |names| && names[i] == x;
    }
  }

  /** The order the names are visited in matters: a call of one name hides a mention of
      another that is visited after it, and only then. */
  lemma {:induction false} CallHidesLaterNames(line: string, called: string, mentioned: string)
    requires CallAt(line, called)
    requires Mentions(line, mentioned) && !CallAt(line, mentioned)
    ensures ScanRefs(line, [called, mentioned]) == {}
    ensures ScanRefs(line, [mentioned, called]) == {mentioned}
  {
    assert [mentioned, called][1..] == [called];
  }
  /** A name whose first character is not in `head` is first found right after `head`; that
      occurrence is a call exactly when `(` follows it. */
  lemma {:induction false} FirstMentionAt(head: string, name: string, rest: string)
    requires |name| > 0 && name[0] !in head
    ensures Mentions(head + name + rest, name)
    ensures CallAt(head + name + rest, name) <==> |rest| > 0 && rest[0] == '('
  {
    var line := head + name + rest;
    IndexOfAfter(head, name, rest);
    assert |rest| > 0 ==> line[|head| + |name|] == rest[0];
  }

  /** `void addShape(Shape shape)` in a Java class: the first `Shape` on the line is the tail
      of `addShape(`, which looks like a call, so the line adds nothing, whichever of the two
      classes is visited first. */
  lemma {:induction false} AddShapeLineAddsNothing(rest: string)
    requires |rest| > 0 && rest[0] == '(' && 'C' !in rest
    ensures ScanRefs("    void add" + "Shape" + rest, ["Shape", "ShapeContainer"]) == {}
    ensures ScanRefs("    void add" + "Shape" + rest, ["ShapeContainer", "Shape"]) == {}
  {
    var line := "    void add" + "Shape" + rest;
    FirstMentionAt("    void add", "Shape", rest);
    assert 'C' !in "    void add" && 'C' !in "Shape";
    MissingChar(line, "ShapeContainer", 5);
    assert ["ShapeContainer", "Shape"][1..] == ["Shape"];
  }

  /** `private List<Shape> shapes` in a Java class: `Shape` occurs, and not as a call, so it is
      added, whichever of the two classes is visited first. */
  lemma {:induction false} FieldLineAddsShape(rest: string)
    requires 'C' !in rest && (|rest| > 0 ==> rest[0] != '(')
    ensures ScanRefs("    private List<" + "Shape" + rest, ["Shape", "ShapeContainer"]) == {"Shape"}
    ensures ScanRefs("    private List<" + "Shape" + rest, ["ShapeContainer", "Shape"]) == {"Shape"}
  {
    var line := "    private List<" + "Shape" + rest;
    FirstMentionAt("    private List<", "Shape", rest);
    assert 'C' !in "    private List<" && 'C' !in "Shape";
    MissingChar(line, "ShapeContainer", 5);
    assert ["ShapeContainer", "Shape"][1..] == ["Shape"];
    assert ["Shape", "ShapeContainer"][1..] == ["ShapeContainer"];
    assert ["ShapeContainer"][1..] == [];
  }

  /** `Preserves` over the remaining lines, whichever way they end. */
  lemma {:induction false} ParseLinesKeep(order: KeyOrder, lines: seq<Line>, s: Scan)
    requires Coherent(s)
    ensures ParentsKept(s.graph, Final(ParseLines(order, lines, s)))
    ensures SingleParents(s.graph) ==> SingleParents(Final(ParseLines(order, lines, s)))
    ensures RefsKnown(s.graph) ==> RefsKnown(Final(ParseLines(order, lines, s)))
    ensures SingleLine(s.graph) && SoundLines(lines) ==> SingleLine(Final(ParseLines(order, lines, s)))
    decreases |lines|
  {
    if |lines| > 0 {
      var r := ParseLine(order, lines[0], s);
      if r.Next? {
        ParseLinesKeep(order, lines[1..], r.scan);
        if SoundLines(lines) {
          forall i | 0 <= i < |lines| - 1 ensures SoundText(lines[1..][i]) {
            assert lines[1..][i] == lines[i + 1];
          }
        }
      }
    }
  }

  /** `parseCode` never changes the parent set of a class the graph already had, gives each
      class it adds at most one parent, records only references to classes of the graph, and
      keeps every name newline-free; each of these holds even when it throws. */
  lemma {:induction false} ParseCodeKeeps(variant: Variant, language: string, order: KeyOrder, text: string, g: CodeData)
    requires Valid(g)
    ensures ParentsKept(g, Final(ParseCode(variant, language, order, text, g)))
    ensures SingleParents(g) ==> SingleParents(Final(ParseCode(variant, language, order, text, g)))
    ensures RefsKnown(g) ==> RefsKnown(Final(ParseCode(variant, language, order, text, g)))
    ensures SingleLine(g) ==> SingleLine(Final(ParseCode(variant, language, order, text, g)))
  {
    var lines := ClassifyAll(variant, language, SplitLines(text));
    ParseLinesKeep(order, lines, Scan(g, None, false));
  }

  /** The return value: once a class is current it stays current and `parsedCode` is true, so
      the loop returns true exactly when a class was current at the start or some line
      declares one. */
  lemma {:induction false} ParsedIffDeclared(order: KeyOrder, lines: seq<Line>, s: Scan)
    requires Coherent(s) && (s.parsed <==> s.current.Some?)
    ensures ParseLines(order, lines, s).Completed? ==>
      (ParseLines(order, lines, s).parsed <==> s.current.Some? || exists i :: 0 <= i < |lines| && Declares(lines[i]))
    decreases |lines|
  {
    if |lines| > 0 {
      var r := ParseLine(order, lines[0], s);
      if r.Next? {
        ParsedIffDeclared(order, lines[1..], r.scan);
        assert forall i :: 0 <= i < |lines[1..]| ==> lines[1..][i] == lines[i + 1];
        if exists i :: 0 <= i < |lines| && Declares(lines[i]) {
          var i :| 0 <= i < |lines| && Declares(lines[i]);
          if i > 0 { assert Declares(lines[1..][i - 1]); }
        }
      }
    }
  }

  /** `parseCode` returns true exactly when some line of the text declares a class. */
  lemma {:induction false} ParseCodeResult(variant: Variant, language: string, order: KeyOrder, text: string, g: CodeData)
    requires Valid(g)
    ensures ParseCode(variant, language, order, text, g).Completed? ==>
      (ParseCode(variant, language, order, text, g).parsed <==> exists line :: line in SplitLines(text) && DeclaredName(line).Some?)
  {
    var texts := SplitLines(text);
    var lines := ClassifyAll(variant, language, texts);
    ParsedIffDeclared(order, lines, Scan(g, None, false));
    SomeLineDeclares(variant, language, texts);
  }

  /** Lines that declare nothing, read while no class is current, are skipped without a trace. */
  lemma {:induction false} LeadingLinesSkipped(order: KeyOrder, lines: seq<Line>, k: nat, s: Scan)
    requires Coherent(s) && s.current.None? && k <= |lines|
    requires forall i :: 0 <= i < k ==> !Declares(lines[i])
    ensures ParseLines(order, lines, s) == ParseLines(order, lines[k..], s)
    decreases k
  {
    if k > 0 {
      LeadingLinesSkipped(order, lines[1..], k - 1, s);
      assert lines[1..][k - 1..] == lines[k..];
    }
  }

  /** When the first declaration is of a class new to the graph and its parent result is an
      exception, the class is inserted and then the exception escapes. */
  lemma {:induction false} FirstNewClassThrows(order: KeyOrder, lines: seq<Line>, k: nat, g: CodeData)
    requires Valid(g) && k < |lines|
    requires forall i :: 0 <= i < k ==> !Declares(lines[i])
    requires DeclaresNew(lines[k], g) && lines[k].parent.Err?
    ensures ParseLines(order, lines, Scan(g, None, false)) == Threw(Insert(g, lines[k].declared.value), lines[k].parent.error)
  {
    LeadingLinesSkipped(order, lines, k, Scan(g, None, false));
    assert lines[k..][0] == lines[k];
  }

  /** With a language none of the finders handles, `parseCode` throws as soon as the first
      declaration names a class new to the graph, after inserting that class. */
  lemma {:induction false} UnsupportedLanguageAtFirstDeclaration(variant: Variant, language: string, order: KeyOrder, text: string, k: nat, g: CodeData)
    requires Valid(g) && SelectDialect(language).None? && k < |SplitLines(text)|
    requires forall i :: 0 <= i < k ==> DeclaredName(SplitLines(text)[i]).None?
    requires DeclaredName(SplitLines(text)[k]).Some? && DeclaredName(SplitLines(text)[k]).value !in g.classes
    ensures ParseCode(variant, language, order, text, g)
         == Threw(Insert(g, DeclaredName(SplitLines(text)[k]).value), UnsupportedLanguage(language))
  {
    var lines := ClassifyAll(variant, language, SplitLines(text));
    FirstNewClassThrows(order, lines, k, g);
  }

  /** When every line's parent result is the same exception, the loop throws exactly when some
      line declares a class the graph does not have, after inserting that one class. */
  lemma {:induction false} ThrowsIffNewClass(order: KeyOrder, lines: seq<Line>, s: Scan, e: Failure)
    requires Coherent(s)
    requires forall i :: 0 <= i < |lines| ==> lines[i].parent == Err(e)
    ensures ParseLines(order, lines, s).Threw? <==> exists i :: 0 <= i < |lines| && DeclaresNew(lines[i], s.graph)
    ensures ParseLines(order, lines, s).Threw? ==>
      ParseLines(order, lines, s).error == e && |ParseLines(order, lines, s).graph.keys| == |s.graph.keys| + 1
    decreases |lines|
  {
    if |lines| > 0 {
      var r := ParseLine(order, lines[0], s);
      if r.Next? {
        ThrowsIffNewClass(order, lines[1..], r.scan, e);
        NewDeclarationsAfter(lines, s.graph, r.scan.graph);
      }
    }
  }

  /** When the first line declares nothing new and the class names stay the same, a line
      declaring a new class is one of the remaining lines. */
  lemma {:induction false} NewDeclarationsAfter(lines: seq<Line>, g: CodeData, h: CodeData)
    requires |lines| > 0 && !DeclaresNew(lines[0], g) && g.classes.Keys == h.classes.Keys
    ensures (exists i :: 0 <= i < |lines| && DeclaresNew(lines[i], g))
        <==> exists i :: 0 <= i < |lines[1..]| && DeclaresNew(lines[1..][i], h)
  {
    if exists i :: 0 <= i < |lines| && DeclaresNew(lines[i], g) {
      var i :| 0 <= i < |lines| && DeclaresNew(lines[i], g);
      assert i != 0 && lines[1..][i - 1] == lines[i];
      assert DeclaresNew(lines[1..][i - 1], h);
    }
    if exists i :: 0 <= i < |lines[1..]| && DeclaresNew(lines[1..][i], h) {
      var i :| 0 <= i < |lines[1..]| && DeclaresNew(lines[1..][i], h);
      assert lines[1..][i] == lines[i + 1];
      assert DeclaresNew(lines[i + 1], g);
    }
  }

  /** With a language none of the finders handles, `parseCode` throws `UnsupportedLanguage`
      exactly when the text declares a class the graph does not have, and leaves that one class
      inserted. */
  lemma {:induction false} UnsupportedLanguageThrows(variant: Variant, language: string, order: KeyOrder, text: string, g: CodeData)
    requires Valid(g) && SelectDialect(language).None?
    ensures ParseCode(variant, language, order, text, g).Threw? <==>
      exists line :: line in SplitLines(text) && DeclaredName(line).Some? && DeclaredName(line).value !in g.classes
    ensures ParseCode(variant, language, order, text, g).Threw? ==>
      && ParseCode(variant, language, order, text, g).error == UnsupportedLanguage(language)
      && |ParseCode(variant, language, order, text, g).graph.keys| == |g.keys| + 1
  {
    var texts := SplitLines(text);
    var lines := ClassifyAll(variant, language, texts);
    ThrowsIffNewClass(order, lines, Scan(g, None, false), UnsupportedLanguage(language));
    SomeLineDeclaresNew(variant, language, texts, g);
  }

  /** Lines with the same text and the same declaration, whatever their parent results. */
  ghost predicate SameDeclarations(lines: seq<Line>, lines': seq<Line>) {
    |lines| == |lines'| && forall i :: 0 <= i < |lines| ==> lines[i].text == lines'[i].text && lines[i].declared == lines'[i].declared
  }

  /** When every class the lines declare is already in the graph, the parent results play no
      part: no finder result is consulted, nothing is thrown and no class is added. */
  lemma {:induction false} KnownClassesIgnoreParents(order: KeyOrder, lines: seq<Line>, lines': seq<Line>, s: Scan)
    requires Coherent(s) && SameDeclarations(lines, lines')
    requires forall i :: 0 <= i < |lines| && Declares(lines[i]) ==> lines[i].declared.value in s.graph.classes
    ensures ParseLines(order, lines, s) == ParseLines(order, lines', s)
    ensures ParseLines(order, lines, s).Completed? && ParseLines(order, lines, s).graph.keys == s.graph.keys
    decreases |lines|
  {
    if |lines| > 0 {
      var r := KnownLineStep(order, lines[0], lines'[0], s);
      SameDeclarationsTail(lines, lines');
      KnownClassesIgnoreParents(order, lines[1..], lines'[1..], r.scan);
    }
  }

  /** Two lines with the same text and declaration, where any class declared is known, step
      alike, and neither adds a class. */
  lemma {:induction false} KnownLineStep(order: KeyOrder, l: Line, l': Line, s: Scan) returns (r: Step)
    requires Coherent(s) && l.text == l'.text && l.declared == l'.declared
    requires Declares(l) ==> l.declared.value in s.graph.classes
    ensures r == ParseLine(order, l, s) && r == ParseLine(order, l', s)
    ensures r.Next? && r.scan.graph.keys == s.graph.keys
  {
    r := ParseLine(order, l, s);
    if !Declares(l) {
      assert l == Line(l.text, None, l.parent);
      assert l' == Line(l.text, None, l'.parent);
    }
  }

  /** The lines after the first keep the same texts and declarations. */
  lemma {:induction false} SameDeclarationsTail(lines: seq<Line>, lines': seq<Line>)
    requires |lines| > 0 && SameDeclarations(lines, lines')
    ensures SameDeclarations(lines[1..], lines'[1..])
  {
    assert forall i :: 0 <= i < |lines[1..]| ==> lines[1..][i] == lines[i + 1] && lines'[1..][i] == lines'[i + 1];
  }

  /** When every class the text declares is already in the graph, the language and the variant
      play no part in `parseCode`: it completes, adds no class, and does the same for all. */
  lemma {:induction false} KnownClassesIgnoreLanguage(variant: Variant, language: string, variant': Variant, language': string,
                                   order: KeyOrder, text: string, g: CodeData)
    requires Valid(g)
    requires forall line :: line in SplitLines(text) && DeclaredName(line).Some? ==> DeclaredName(line).value in g.classes
    ensures ParseCode(variant, language, order, text, g) == ParseCode(variant', language', order, text, g)
    ensures ParseCode(variant, language, order, text, g).Completed? && ParseCode(variant, language, order, text, g).graph.keys == g.keys
  {
    var texts := SplitLines(text);
    var lines, lines' := ClassifyAll(variant, language, texts), ClassifyAll(variant', language', texts);
    forall i | 0 <= i < |lines| && Declares(lines[i]) ensures lines[i].declared.value in g.classes {
      assert texts[i] in texts;
    }
    KnownClassesIgnoreParents(order, lines, lines', Scan(g, None, false));
  }
}
