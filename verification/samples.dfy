/** The body line of the Kotlin container sample, kept apart from the parsing modules. */
module SampleBodyText {
  /** Line 6 of `kotlin-code-sample/ShapeContainer.kt`, `    fun totalArea(): Double = shape?.area() ?: 0.0`.
      It is written in pieces of ten characters so that its characters are checked a few pieces
      at a time. */
  const SampleBody: string := "    fun to" + "talArea():" + " Double = " + "shape?.are" + "a() ?: 0.0"

  /** None of the characters that start `Shape`, `Container` or `class`, and no line break. */
  predicate Quiet(s: string) {
    'S' !in s && 'C' !in s && 'c' !in s && '\n' !in s
  }

  /** The body line mentions no known class, has no `class` keyword and no newline. */
  lemma {:induction false} BodyIsQuiet()
    ensures 'S' !in SampleBody && 'C' !in SampleBody && 'c' !in SampleBody && '\n' !in SampleBody
  {
    BodyStartIsQuiet();
    BodyMiddleIsQuiet();
    BodyEndIsQuiet();
  }

  /** The first two pieces are quiet. */
  lemma {:induction false} BodyStartIsQuiet()
    ensures Quiet("    fun to") && Quiet("talArea():")
  {
  }

  /** So are the next two. */
  lemma {:induction false} BodyMiddleIsQuiet()
    ensures Quiet(" Double = ") && Quiet("shape?.are")
  {
  }

  /** And the last. */
  lemma {:induction false} BodyEndIsQuiet()
    ensures Quiet("a() ?: 0.0")
  {
  }
}

/** The Kotlin sample `kotlin-code-sample/ShapeContainer.kt` read by `parseCode` once `Shape`
    is known: `Container` is created with no parent and `Shape` as its only reference. */
module Samples {
  import opened Outcomes
  import opened Text
  import opened Orders
  import opened Graph
  import opened Declaration
  import opened Dialects
  import opened Extraction
  import opened SampleBodyText

  /** The graph after one class `a` was read: no parent, no reference. */
  function Known(a: string): (g: CodeData)
    ensures Valid(g) && g.keys == [a] && g.classes == map[a := ClassData({}, {})]
  {
    Insert(Empty, a)
  }

  /** `Known(a)` after a class `b` that refers to `a`, and has no parent, was read. */
  function Referring(a: string, b: string): (g: CodeData)
    requires a != b
    ensures Valid(g) && g.keys == [a, b]
  {
    CodeData([a, b], map[a := ClassData({}, {}), b := ClassData({}, {a})])
  }

  /** Two names, in whichever order the map visits them. */
  lemma {:induction false} BothOrders(order: KeyOrder, a: string, b: string)
    requires a != b
    ensures order([a, b]) == [a, b] || order([a, b]) == [b, a]
  {
    var n := order([a, b]);
    assert Distinct([a, b]);
    assert Reorders(n, [a, b]);
    assert n[0] in [a, b] && n[1] in [a, b] && n[0] != n[1];
  }

  /** The language the Kotlin samples are read as. */
  lemma {:induction false} KotlinSelected()
    ensures SelectDialect("kotlin") == Some(Kotlin)
  {
    assert AsciiLower("kotlin") == "kotlin";
  }

  /** `class Container {`, with whatever follows the space after the name: it declares
      `Container`, and neither Kotlin finder sees a parent, since the line has no `:`. */
  lemma {:induction false} ContainerHead(variant: Variant, rest: string)
    requires |rest| > 0 ==> !InClass(rest[0], SpaceOrParen)
    requires ':' !in rest
    ensures Classify(variant, "kotlin", "class Container " + rest) == Line("class Container " + rest, Some("Container"), Ok(None))
  {
    ContainerDeclared(rest);
    ContainerHasNoColon("class Container " + rest, rest);
    NoColonNoKotlinParent(variant, "class Container " + rest);
    KotlinSelected();
  }

  /** The head line declares `Container`. */
  lemma {:induction false} ContainerDeclared(rest: string)
    requires |rest| > 0 ==> !InClass(rest[0], SpaceOrParen)
    ensures DeclaredName("class Container " + rest) == Some("Container")
  {
    var line := "class Container " + rest;
    assert line == "class" + " " + "Container" + " " + rest;
    var m := DeclarationAtStart(line, " ", "Container", " ", rest);
    NameIsToken(line, m);
  }

  /** The head line has no `:` when its continuation has none. */
  lemma {:induction false} ContainerHasNoColon(line: string, rest: string)
    requires line == "class Container " + rest && ':' !in rest
    ensures ':' !in line
  {
    forall i | 0 <= i < |line| ensures line[i] != ':' {
      if i >= 16 { assert line[i] == rest[i - 16]; } else { assert line[i] == "class Container "[i]; }
    }
  }

  /** Both Kotlin finders look for a marker holding `:`, so a line without one has no parent. */
  lemma {:induction false} NoColonNoKotlinParent(variant: Variant, line: string)
    requires ':' !in line
    ensures FindParent(variant, Kotlin, line) == Ok(None)
  {
    MissingChar(line, " : public ", 1);
    MissingChar(line, ") : ", 2);
  }

  /** `var shape: Shape? = null`: the field's type is a mention of `Shape` that is not a call,
      and the line declares nothing. */
  lemma {:induction false} ShapeField(rest: string)
    requires 'C' !in rest && 'c' !in rest && (|rest| > 0 ==> rest[0] != '(')
    ensures DeclaredName("    var shape: " + "Shape" + rest) == None
    ensures Mentions("    var shape: " + "Shape" + rest, "Shape") && !CallAt("    var shape: " + "Shape" + rest, "Shape")
    ensures !Mentions("    var shape: " + "Shape" + rest, "Container")
  {
    var line := "    var shape: " + "Shape" + rest;
    FirstMentionAt("    var shape: ", "Shape", rest);
    assert 'C' !in "    var shape: " && 'c' !in "    var shape: " && 'C' !in "Shape" && 'c' !in "Shape";
    MissingChar(line, "Container", 0);
    MissingChar(line, "class", 0);
    NoKeywordNoDeclaration(line);
  }

  /** Whichever of the two classes is visited first, the field line adds `Shape`. */
  lemma {:induction false} ShapeFieldAddsShape(order: KeyOrder, rest: string)
    requires 'C' !in rest && 'c' !in rest && (|rest| > 0 ==> rest[0] != '(')
    ensures ScanRefs("    var shape: " + "Shape" + rest, order(["Shape", "Container"])) == {"Shape"}
  {
    ShapeField(rest);
    BothOrders(order, "Shape", "Container");
    assert ["Container", "Shape"][1..] == ["Shape"];
    assert ["Shape", "Container"][1..] == ["Container"];
    assert ["Container"][1..] == [];
  }

  /** A line without `S`, `C` or `c` declares nothing and mentions neither class. */
  lemma {:induction false} QuietLine(order: KeyOrder, line: string)
    requires 'S' !in line && 'C' !in line && 'c' !in line
    ensures DeclaredName(line) == None && ScanRefs(line, order(["Shape", "Container"])) == {}
  {
    MissingChar(line, "class", 0);
    NoKeywordNoDeclaration(line);
    MissingChar(line, "Shape", 0);
    MissingChar(line, "Container", 0);
    BothOrders(order, "Shape", "Container");
    assert ["Container", "Shape"][1..] == ["Shape"];
    assert ["Shape", "Container"][1..] == ["Container"];
    assert ["Shape"][1..] == [] && ["Container"][1..] == [];
  }

  /** A line that declares nothing and, with the classes `keys` known, adds no reference. */
  predicate Silent(order: KeyOrder, keys: seq<string>, l: Line) {
    !Declares(l) && ScanRefs(l.text, order(keys)) == {}
  }

  /** Lines inside the current class that declare nothing and mention no known class leave
      the graph and the return value as they were. */
  lemma {:induction false} QuietLinesChangeNothing(order: KeyOrder, lines: seq<Line>, s: Scan)
    requires Coherent(s) && s.current.Some?
    requires forall i :: 0 <= i < |lines| ==> Silent(order, s.graph.keys, lines[i])
    ensures ParseLines(order, lines, s) == Completed(s.graph, s.parsed)
    decreases |lines|
  {
    if |lines| > 0 {
      SilentStep(order, lines[0], s);
      assert forall i :: 0 <= i < |lines[1..]| ==> lines[1..][i] == lines[i + 1];
      QuietLinesChangeNothing(order, lines[1..], s);
    }
  }

  /** One such line: the scan state is handed on unchanged. */
  lemma {:induction false} SilentStep(order: KeyOrder, l: Line, s: Scan)
    requires Coherent(s) && s.current.Some? && Silent(order, s.graph.keys, l)
    ensures ParseLine(order, l, s) == Next(s)
  {
    var c := s.current.value;
    var h := AddRefs(s.graph, c, {});
    assert h.classes == s.graph.classes by {
      forall k | k in h.classes ensures h.classes[k] == s.graph.classes[k] {
        if k == c { assert h.classes[k] == s.graph.classes[c].(refs := s.graph.classes[c].refs + {}); }
      }
    }
    assert Refer(order, l, c, s) == s;
  }

  /** A call that, with `a` known, meets first a declaration of a new class `b` with no
      parent, then a line mentioning `a` and no call, then lines mentioning nothing known:
      `b` is added, referring to `a`, and the call returns true. */
  lemma {:induction false} NewClassReferring(order: KeyOrder, a: string, b: string, head: Line, field: Line, quiet: seq<Line>)
    requires a != b
    requires head.declared == Some(b) && head.parent == Ok(None)
    requires field.declared == None && ScanRefs(field.text, order([a, b])) == {a}
    requires forall i :: 0 <= i < |quiet| ==> Silent(order, [a, b], quiet[i])
    ensures ParseLines(order, [head] + ([field] + quiet), Scan(Known(a), None, false)) == Completed(Referring(a, b), true)
  {
    var s1 := HeadStep(order, a, b, head);
    var s2 := FieldStep(order, a, b, field, s1);
    QuietLinesChangeNothing(order, quiet, s2);
    ParseLinesCons(order, field, quiet, s1, s2);
    ParseLinesCons(order, head, [field] + quiet, Scan(Known(a), None, false), s1);
  }

  /** The loop over `[l] + ls` is the loop over `ls` from the state `l` leads to. */
  lemma {:induction false} ParseLinesCons(order: KeyOrder, l: Line, ls: seq<Line>, s: Scan, s': Scan)
    requires Coherent(s) && ParseLine(order, l, s) == Next(s')
    ensures Coherent(s') && ParseLines(order, [l] + ls, s) == ParseLines(order, ls, s')
  {
    assert ([l] + ls)[1..] == ls;
  }

  /** The declaration of the new class `b` inserts it, with no parent, and makes it current. */
  lemma {:induction false} HeadStep(order: KeyOrder, a: string, b: string, head: Line) returns (s1: Scan)
    requires a != b && head.declared == Some(b) && head.parent == Ok(None)
    ensures s1 == Scan(CodeData([a, b], map[a := ClassData({}, {}), b := ClassData({}, {})]), Some(b), true)
    ensures Coherent(s1)
    ensures ParseLine(order, head, Scan(Known(a), None, false)) == Next(s1)
  {
    s1 := Scan(Insert(Known(a), b), Some(b), true);
  }

  /** A line mentioning only `a`, read inside `b`, adds `a` to `b`'s references. */
  lemma {:induction false} FieldStep(order: KeyOrder, a: string, b: string, field: Line, s1: Scan) returns (s2: Scan)
    requires a != b
    requires s1 == Scan(CodeData([a, b], map[a := ClassData({}, {}), b := ClassData({}, {})]), Some(b), true)
    requires field.declared == None && ScanRefs(field.text, order([a, b])) == {a}
    ensures s2 == Scan(Referring(a, b), Some(b), true) && Coherent(s2)
    ensures ParseLine(order, field, s1) == Next(s2)
  {
    assert Coherent(s1) by { assert Distinct([a, b]); }
    var h := AddRefs(s1.graph, b, {a});
    assert Refer(order, field, b, s1) == Scan(h, Some(b), true);
    RefAdded(a, b);
    s2 := Scan(Referring(a, b), Some(b), true);
  }

  /** Adding `a` to the references of `b` gives `Referring(a, b)`. */
  lemma {:induction false} RefAdded(a: string, b: string)
    requires a != b
    ensures AddRefs(CodeData([a, b], map[a := ClassData({}, {}), b := ClassData({}, {})]), b, {a}) == Referring(a, b)
  {
    var h := AddRefs(CodeData([a, b], map[a := ClassData({}, {}), b := ClassData({}, {})]), b, {a});
    assert h.classes.Keys == {a, b} && h.classes[a] == ClassData({}, {}) && h.classes[b] == ClassData({}, {a});
    assert h.classes == Referring(a, b).classes;
  }

  /** `parseCode("kotlin", …)` on lines 3-7 of the sample with `Shape` known, each of the
      head, field and body lines standing for any line of the same shape: it completes, returns
      true, and adds `Container` with no parent and exactly `{Shape}` as references. */
  lemma {:induction false} KotlinContainer(variant: Variant, order: KeyOrder, head: string, field: string, body: string)
    requires |head| > 0 ==> !InClass(head[0], SpaceOrParen)
    requires ':' !in head && '\n' !in head
    requires 'C' !in field && 'c' !in field && '\n' !in field && (|field| > 0 ==> field[0] != '(')
    requires 'S' !in body && 'C' !in body && 'c' !in body && '\n' !in body
    ensures "Shape" != "Container"
    ensures var text := JoinLines(["class Container " + head, "    var shape: " + "Shape" + field, "", body, "}"]);
      ParseCode(variant, "kotlin", order, text, Known("Shape")) == Completed(Referring("Shape", "Container"), true)
  {
    assert "Shape"[0] != "Container"[0];
    var texts := ["class Container " + head, "    var shape: " + "Shape" + field, "", body, "}"];
    ContainerTexts(texts, head, field, body);
    SplitJoin(texts);
    var h := Classify(variant, "kotlin", texts[0]);
    var f := Classify(variant, "kotlin", texts[1]);
    var quiet := [Classify(variant, "kotlin", ""), Classify(variant, "kotlin", body), Classify(variant, "kotlin", "}")];
    FiveLines(variant, "kotlin", texts);
    ContainerHead(variant, head);
    ShapeFieldAddsShape(order, field);
    ShapeField(field);
    QuietLines(variant, order, body, quiet);
    NewClassReferring(order, "Shape", "Container", h, f, quiet);
  }

  /** Five lines, classified one by one. */
  lemma {:induction false} FiveLines(variant: Variant, language: string, texts: seq<string>)
    requires |texts| == 5
    ensures ClassifyAll(variant, language, texts) ==
      [Classify(variant, language, texts[0])] + ([Classify(variant, language, texts[1])] +
       [Classify(variant, language, texts[2]), Classify(variant, language, texts[3]), Classify(variant, language, texts[4])])
  {
    var ls := ClassifyAll(variant, language, texts);
    FiveParts(ls);
    assert ls[0] == Classify(variant, language, texts[0]) && ls[1] == Classify(variant, language, texts[1]);
    assert ls[2] == Classify(variant, language, texts[2]) && ls[3] == Classify(variant, language, texts[3]);
    assert ls[4] == Classify(variant, language, texts[4]);
  }

  /** A sequence of five, cut after its first and its second element. */
  lemma {:induction false} FiveParts<T>(ls: seq<T>)
    requires |ls| == 5
    ensures ls == [ls[0]] + ([ls[1]] + [ls[2], ls[3], ls[4]])
  {
    assert [ls[1]] + [ls[2], ls[3], ls[4]] == ls[1..];
  }

  /** The blank line, the body line and the closing brace add nothing. */
  lemma {:induction false} QuietLines(variant: Variant, order: KeyOrder, body: string, quiet: seq<Line>)
    requires 'S' !in body && 'C' !in body && 'c' !in body
    requires quiet == [Classify(variant, "kotlin", ""), Classify(variant, "kotlin", body), Classify(variant, "kotlin", "}")]
    ensures forall i :: 0 <= i < |quiet| ==> Silent(order, ["Shape", "Container"], quiet[i])
  {
    QuietLine(order, "");
    QuietLine(order, body);
    QuietLine(order, "}");
    assert Silent(order, ["Shape", "Container"], quiet[0]);
    assert Silent(order, ["Shape", "Container"], quiet[1]);
    assert Silent(order, ["Shape", "Container"], quiet[2]);
  }

  /** The five lines hold no newline. */
  lemma {:induction false} ContainerTexts(texts: seq<string>, head: string, field: string, body: string)
    requires '\n' !in head && '\n' !in field && '\n' !in body
    requires texts == ["class Container " + head, "    var shape: " + "Shape" + field, "", body, "}"]
    ensures NoNewlines(texts)
  {
    forall i | 0 <= i < |texts[0]| ensures texts[0][i] != '\n' {
      if i >= 16 { assert texts[0][i] == head[i - 16]; } else { assert texts[0][i] == "class Container "[i]; }
    }
    assert texts[1] == "    var shape: Shape" + field;
    forall i | 0 <= i < |texts[1]| ensures texts[1][i] != '\n' {
      if i >= 20 { assert texts[1][i] == field[i - 20]; } else { assert texts[1][i] == "    var shape: Shape"[i]; }
    }
  }

  /** Lines 3-7 of `kotlin-code-sample/ShapeContainer.kt`, joined as `split('\n')` finds them. */
  const ContainerSample: string :=
    JoinLines(["class Container {", "    var shape: Shape? = null", "", SampleBody, "}"])

  /** The sample itself: `Container` is added with no parent and `Shape` as its one reference. */
  lemma {:induction false} KotlinContainerSample(variant: Variant, order: KeyOrder)
    ensures "Shape" != "Container"
    ensures ParseCode(variant, "kotlin", order, ContainerSample, Known("Shape")) == Completed(Referring("Shape", "Container"), true)
  {
    BodyIsQuiet();
    assert "class Container {" == "class Container " + "{";
    assert "    var shape: Shape? = null" == "    var shape: " + "Shape" + "? = null";
    assert '(' != '{' && '{' != ' ' && '{' != '\t';
    KotlinContainer(variant, order, "{", "? = null", SampleBody);
  }
}
