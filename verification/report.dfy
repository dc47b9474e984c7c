/** The class-hierarchy report: `CodeData.toString` in the shared copy, and the plain text of
    `formattedText` in the Android copy, whose spans only colour and embolden parts of it. One
    block per class, in the map's iteration order, listing the parents and then the references
    in their sets' iteration order. */
module Report {
  import opened Outcomes
  import opened Text
  import opened Orders
  import opened Graph

  /** `"\n\t\t" + x` for each `x` in turn: the body of a `for` over a set. */
  function Items(xs: seq<string>): string {
    if |xs| == 0 then "" else "\n\t\t" + xs[0] + Items(xs[1..])
  }

  /** The text appended for one class. */
  function Block(name: string, c: ClassData, sorder: SetOrder): string {
    name + " class details:" + "\n\tParent classes:" + Items(sorder(c.parents))
      + "\n\tReference classes:" + Items(sorder(c.refs)) + "\n\n"
  }

  /** The blocks of the named classes, in turn. */
  function Blocks(g: CodeData, names: seq<string>, sorder: SetOrder): string
    requires forall i :: 0 <= i < |names| ==> names[i] in g.classes
  {
    if |names| == 0 then "" else Block(names[0], g.classes[names[0]], sorder) + Blocks(g, names[1..], sorder)
  }

  /** `toString()`: the loop over `classes.values`, whose order is that of the keys. */
  function Render(g: CodeData, korder: KeyOrder, sorder: SetOrder): string
    requires Valid(g)
  {
    var names := korder(g.keys);
    assert Reorders(names, g.keys);
    Blocks(g, names, sorder)
  }

  /** What a reader gets back from one block: the name, and the parents and references in the
      order they are listed. */
  datatype Entry = Entry(name: string, parents: seq<string>, refs: seq<string>)

  /** The entries the report of the named classes lists. */
  function Entries(g: CodeData, names: seq<string>, sorder: SetOrder): (es: seq<Entry>)
    requires forall i :: 0 <= i < |names| ==> names[i] in g.classes
    ensures |es| == |names|
    ensures forall i :: 0 <= i < |names| ==>
      es[i] == Entry(names[i], sorder(g.classes[names[i]].parents), sorder(g.classes[names[i]].refs))
  {
    seq(|names|, i requires 0 <= i < |names| =>
      Entry(names[i], sorder(g.classes[names[i]].parents), sorder(g.classes[names[i]].refs)))
  }

  /** The lines, each followed by a newline. */
  function Terminated(ls: seq<string>): string {
    if |ls| == 0 then "" else ls[0] + "\n" + Terminated(ls[1..])
  }

  /** Each item on its own line, indented by two tabs. */
  function Indented(xs: seq<string>): (ls: seq<string>)
    ensures |ls| == |xs| && forall i :: 0 <= i < |xs| ==> ls[i] == "\t\t" + xs[i]
  {
    seq(|xs|, i requires 0 <= i < |xs| => "\t\t" + xs[i])
  }

  /** The lines of one block: the header, the parents' heading and items, the references'
      heading and items, and the empty line that closes the block. */
  function EntryLines(e: Entry): seq<string> {
    [e.name + " class details:", "\tParent classes:"] + Indented(e.parents) + ["\tReference classes:"] + Indented(e.refs) + [""]
  }

  /** The lines of several blocks. */
  function AllLines(es: seq<Entry>): seq<string> {
    if |es| == 0 then [] else EntryLines(es[0]) + AllLines(es[1..])
  }

  /** A line that lists a parent or a reference. */
  predicate IsItem(l: string) {
    |l| >= 2 && l[0] == '\t' && l[1] == '\t'
  }

  /** The items at the head of `ls`, without their tabs, and the lines after them. */
  function TakeItems(ls: seq<string>): (r: (seq<string>, seq<string>))
    ensures |r.1| <= |ls|
  {
    if |ls| > 0 && IsItem(ls[0]) then
      var (xs, rest) := TakeItems(ls[1..]);
      ([ls[0][2..]] + xs, rest)
    else ([], ls)
  }

  /** The name in a block's header, if the line is one. */
  function Header(l: string): Option<string> {
    var suffix := " class details:";
    if |suffix| <= |l| && l[|l| - |suffix|..] == suffix then Some(l[..|l| - |suffix|]) else None
  }

  /** Reads the blocks back from the report's lines. */
  function DecodeLines(ls: seq<string>): Option<seq<Entry>>
    decreases |ls|
  {
    if |ls| == 0 then Some([])
    else if |ls| < 2 || Header(ls[0]).None? || ls[1] != "\tParent classes:" then None
    else
      var (ps, rest) := TakeItems(ls[2..]);
      if |rest| == 0 || rest[0] != "\tReference classes:" then None
      else
        var (rs, rest') := TakeItems(rest[1..]);
        if |rest'| == 0 || rest'[0] != "" then None
        else
          match DecodeLines(rest'[1..])
          case None => None
          case Some(es) => Some([Entry(Header(ls[0]).value, ps, rs)] + es)
  }

  /** Reads the blocks back from the report's text: every line ends with a newline. */
  function Decode(text: string): Option<seq<Entry>> {
    var ls := SplitLines(text);
    if ls[|ls| - 1] != "" then None else DecodeLines(ls[..|ls| - 1])
  }

  /** The items come back from their indented lines, when the line after them is no item. */
  lemma {:induction false} TakeIndented(xs: seq<string>, rest: seq<string>)
    requires |rest| > 0 ==> !IsItem(rest[0])
    ensures TakeItems(Indented(xs) + rest) == (xs, rest)
    decreases |xs|
  {
    var ls := Indented(xs) + rest;
    if |xs| == 0 {
      assert ls == rest;
    } else {
      assert ls[0] == "\t\t" + xs[0] && ls[0][2..] == xs[0];
      assert ls[1..] == Indented(xs[1..]) + rest;
      TakeIndented(xs[1..], rest);
      assert [xs[0]] + xs[1..] == xs;
    }
  }

  /** The header gives the name back. */
  lemma {:induction false} HeaderOfName(name: string)
    ensures Header(name + " class details:") == Some(name)
  {
    var l := name + " class details:";
    assert l[|l| - 15..] == " class details:";
    assert l[..|l| - 15] == name;
  }

  /** Reading one block's lines, and then whatever follows them. */
  lemma {:induction false} DecodeBlock(e: Entry, tail: seq<string>)
    ensures DecodeLines(EntryLines(e) + tail) ==
      match DecodeLines(tail)
      case None => None
      case Some(es) => Some([e] + es)
  {
    var t3 := [""] + tail;
    var t2 := Indented(e.refs) + t3;
    var t1 := ["\tReference classes:"] + t2;
    var t0 := Indented(e.parents) + t1;
    var ls := EntryLines(e) + tail;
    assert ls == [e.name + " class details:", "\tParent classes:"] + t0;
    assert ls[2..] == t0;
    TakeIndented(e.parents, t1);
    assert t1[1..] == t2;
    TakeIndented(e.refs, t3);
    assert t3[1..] == tail;
    HeaderOfName(e.name);
  }

  /** Reading the lines of some blocks gives their entries back. */
  lemma {:induction false} DecodeAllLines(es: seq<Entry>)
    ensures DecodeLines(AllLines(es)) == Some(es)
    decreases |es|
  {
    if |es| > 0 {
      DecodeBlock(es[0], AllLines(es[1..]));
      DecodeAllLines(es[1..]);
      assert [es[0]] + es[1..] == es;
    }
  }

  /** Terminating two runs of lines terminates their concatenation. */
  lemma {:induction false} TerminatedAppend(a: seq<string>, b: seq<string>)
    ensures Terminated(a + b) == Terminated(a) + Terminated(b)
    decreases |a|
  {
    if |a| == 0 {
      assert a + b == b;
    } else {
      assert (a + b)[1..] == a[1..] + b;
      TerminatedAppend(a[1..], b);
    }
  }

  /** The items of a set, written one per line, are the body of the `for` loop shifted by one
      newline. */
  lemma {:induction false} TerminatedItems(xs: seq<string>)
    ensures "\n" + Terminated(Indented(xs)) == Items(xs) + "\n"
    decreases |xs|
  {
    if |xs| > 0 {
      var ls := Indented(xs);
      assert ls[1..] == Indented(xs[1..]);
      TerminatedItems(xs[1..]);
      calc {
        "\n" + Terminated(ls);
        "\n" + ("\t\t" + xs[0] + "\n" + Terminated(Indented(xs[1..])));
        "\n\t\t" + xs[0] + ("\n" + Terminated(Indented(xs[1..])));
        "\n\t\t" + xs[0] + (Items(xs[1..]) + "\n");
        Items(xs) + "\n";
      }
    }
  }

  /** Terminating a line in front of others. */
  lemma {:induction false} TerminatedCons(l: string, ls: seq<string>)
    ensures Terminated([l] + ls) == l + "\n" + Terminated(ls)
  {
    assert ([l] + ls)[1..] == ls;
  }

  /** A block's lines, each followed by a newline, spelled out piece by piece. */
  lemma {:induction false} EntryText(e: Entry)
    ensures Terminated(EntryLines(e)) ==
      e.name + " class details:" + "\n" + ("\tParent classes:" + "\n" + (Terminated(Indented(e.parents))
        + ("\tReference classes:" + "\n" + (Terminated(Indented(e.refs)) + "\n"))))
  {
    var t3 := Indented(e.refs) + [""];
    var t2 := ["\tReference classes:"] + t3;
    var t1 := Indented(e.parents) + t2;
    var t0 := ["\tParent classes:"] + t1;
    assert EntryLines(e) == [e.name + " class details:"] + t0;
    TerminatedCons(e.name + " class details:", t0);
    TerminatedCons("\tParent classes:", t1);
    TerminatedAppend(Indented(e.parents), t2);
    TerminatedCons("\tReference classes:", t3);
    TerminatedAppend(Indented(e.refs), [""]);
    assert Terminated([""]) == "\n";
  }

  /** The block's pieces regrouped: a newline moved from the front of each terminated run of
      items to its back. */
  lemma {:induction false} Regroup(h: string, nl: string, pp: string, rr: string, ip: string, ir: string, tp: string, tr: string)
    requires nl + tp == ip + nl && nl + tr == ir + nl
    ensures h + nl + (pp + nl + (tp + (rr + nl + (tr + nl)))) == h + (nl + pp) + ip + (nl + rr) + ir + (nl + nl)
  {
    calc {
      h + nl + (pp + nl + (tp + (rr + nl + (tr + nl))));
      h + nl + pp + (nl + tp) + rr + (nl + tr) + nl;
      h + nl + pp + (ip + nl) + rr + (ir + nl) + nl;
      h + (nl + pp) + ip + (nl + rr) + ir + (nl + nl);
    }
  }

  /** A block's text is its lines, each followed by a newline. */
  lemma {:induction false} BlockLines(name: string, c: ClassData, sorder: SetOrder)
    ensures Block(name, c, sorder) == Terminated(EntryLines(Entry(name, sorder(c.parents), sorder(c.refs))))
  {
    var ps, rs := sorder(c.parents), sorder(c.refs);
    EntryText(Entry(name, ps, rs));
    TerminatedItems(ps);
    TerminatedItems(rs);
    assert "\n\tParent classes:" == "\n" + "\tParent classes:";
    assert "\n\tReference classes:" == "\n" + "\tReference classes:";
    assert "\n\n" == "\n" + "\n";
    Regroup(name + " class details:", "\n", "\tParent classes:", "\tReference classes:",
      Items(ps), Items(rs), Terminated(Indented(ps)), Terminated(Indented(rs)));
  }

  /** The blocks' text is their lines, each followed by a newline. */
  lemma {:induction false} BlocksLines(g: CodeData, names: seq<string>, sorder: SetOrder)
    requires forall i :: 0 <= i < |names| ==> names[i] in g.classes
    ensures Blocks(g, names, sorder) == Terminated(AllLines(Entries(g, names, sorder)))
    decreases |names|
  {
    if |names| > 0 {
      var es := Entries(g, names, sorder);
      BlockLines(names[0], g.classes[names[0]], sorder);
      BlocksLines(g, names[1..], sorder);
      assert es[1..] == Entries(g, names[1..], sorder);
      TerminatedAppend(EntryLines(es[0]), AllLines(es[1..]));
    }
  }

  /** Lines each followed by a newline are the lines joined, with an empty last line. */
  lemma {:induction false} TerminatedJoin(ls: seq<string>)
    ensures Terminated(ls) == JoinLines(ls + [""])
    decreases |ls|
  {
    if |ls| > 0 {
      assert (ls + [""])[1..] == ls[1..] + [""];
      TerminatedJoin(ls[1..]);
    }
  }

  /** Reading back text written line by line gives the lines back. */
  lemma {:induction false} DecodeTerminated(ls: seq<string>)
    requires NoNewlines(ls)
    ensures Decode(Terminated(ls)) == DecodeLines(ls)
  {
    var all := ls + [""];
    assert NoNewlines(all) by {
      forall i | 0 <= i < |all| ensures '\n' !in all[i] {
        if i < |ls| { assert all[i] == ls[i]; }
      }
    }
    TerminatedJoin(ls);
    SplitJoin(all);
    assert all[..|all| - 1] == ls;
  }

  /** Every name an entry lists is free of newlines. */
  ghost predicate EntrySingleLine(e: Entry) {
    && '\n' !in e.name
    && (forall i :: 0 <= i < |e.parents| ==> '\n' !in e.parents[i])
    && (forall i :: 0 <= i < |e.refs| ==> '\n' !in e.refs[i])
  }

  /** A block has no line break inside a line when the names it lists have none. */
  lemma {:induction false} EntryNoNewlines(e: Entry)
    requires EntrySingleLine(e)
    ensures NoNewlines(EntryLines(e))
  {
    var ls := EntryLines(e);
    var ip, ir := Indented(e.parents), Indented(e.refs);
    forall i | 0 <= i < |ls| ensures '\n' !in ls[i] {
      if i == 0 {
        assert ls[0] == e.name + " class details:";
      } else if 2 <= i < 2 + |ip| {
        assert ls[i] == "\t\t" + e.parents[i - 2];
      } else if 3 + |ip| <= i < 3 + |ip| + |ir| {
        assert ls[i] == "\t\t" + e.refs[i - 3 - |ip|];
      }
    }
  }

  /** Several blocks have no line break inside a line when the names they list have none. */
  lemma {:induction false} AllNoNewlines(es: seq<Entry>)
    requires forall i :: 0 <= i < |es| ==> EntrySingleLine(es[i])
    ensures NoNewlines(AllLines(es))
    decreases |es|
  {
    if |es| > 0 {
      EntryNoNewlines(es[0]);
      AllNoNewlines(es[1..]);
      var a, b := EntryLines(es[0]), AllLines(es[1..]);
      forall i | 0 <= i < |a + b| ensures '\n' !in (a + b)[i] {
        if i < |a| { assert (a + b)[i] == a[i]; } else { assert (a + b)[i] == b[i - |a|]; }
      }
    }
  }

  /** The entries of a graph without line breaks in its names list no line breaks either. */
  lemma {:induction false} EntriesSingleLine(g: CodeData, names: seq<string>, sorder: SetOrder)
    requires SingleLine(g)
    requires forall i :: 0 <= i < |names| ==> names[i] in g.classes
    ensures forall i :: 0 <= i < |names| ==> EntrySingleLine(Entries(g, names, sorder)[i])
  {
    var es := Entries(g, names, sorder);
    forall i | 0 <= i < |names| ensures EntrySingleLine(es[i]) {
      var c := g.classes[names[i]];
      assert Enumerates(sorder(c.parents), c.parents);
      assert Enumerates(sorder(c.refs), c.refs);
      forall j | 0 <= j < |es[i].parents| ensures '\n' !in es[i].parents[j] {
        assert es[i].parents[j] in c.parents;
      }
      forall j | 0 <= j < |es[i].refs| ensures '\n' !in es[i].refs[j] {
        assert es[i].refs[j] in c.refs;
      }
    }
  }

  /** The report reads back as one entry per class, in the map's order, each listing the
      class's parents and references in their sets' order. */
  lemma {:induction false} ReportRoundTrip(g: CodeData, korder: KeyOrder, sorder: SetOrder)
    requires Valid(g) && SingleLine(g)
    ensures forall i :: 0 <= i < |korder(g.keys)| ==> korder(g.keys)[i] in g.classes
    ensures Decode(Render(g, korder, sorder)) == Some(Entries(g, korder(g.keys), sorder))
  {
    var names := korder(g.keys);
    assert Reorders(names, g.keys);
    var es := Entries(g, names, sorder);
    BlocksLines(g, names, sorder);
    EntriesSingleLine(g, names, sorder);
    AllNoNewlines(es);
    DecodeTerminated(AllLines(es));
    DecodeAllLines(es);
  }

  /** The names of the entries, in turn. */
  function EntryNames(es: seq<Entry>): (ns: seq<string>)
    ensures |ns| == |es| && forall i :: 0 <= i < |es| ==> ns[i] == es[i].name
  {
    seq(|es|, i requires 0 <= i < |es| => es[i].name)
  }

  /** The entries list every class of `g` once, each with exactly its parents and its
      references, each once. */
  ghost predicate Describes(es: seq<Entry>, g: CodeData) {
    && Reorders(EntryNames(es), g.keys)
    && forall i :: 0 <= i < |es| ==>
         && es[i].name in g.classes
         && Enumerates(es[i].parents, g.classes[es[i].name].parents)
         && Enumerates(es[i].refs, g.classes[es[i].name].refs)
  }

  /** The entries of the classes in some order of the keys describe the graph. */
  lemma {:induction false} EntriesDescribe(g: CodeData, names: seq<string>, sorder: SetOrder)
    requires Valid(g) && Reorders(names, g.keys)
    ensures forall i :: 0 <= i < |names| ==> names[i] in g.classes
    ensures Describes(Entries(g, names, sorder), g)
  {
    var es := Entries(g, names, sorder);
    assert EntryNames(es) == names;
  }

  /** What a reader learns from the report: one entry for each class, no class twice, and
      under each exactly the class's parents and references, each once. */
  lemma {:induction false} ReportDescribesGraph(g: CodeData, korder: KeyOrder, sorder: SetOrder)
    requires Valid(g) && SingleLine(g)
    ensures Decode(Render(g, korder, sorder)).Some?
    ensures Describes(Decode(Render(g, korder, sorder)).value, g)
  {
    ReportRoundTrip(g, korder, sorder);
    assert Reorders(korder(g.keys), g.keys);
    EntriesDescribe(g, korder(g.keys), sorder);
  }
}
