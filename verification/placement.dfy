/** The bookkeeping of `ARFragment.renderCodeModels`: which classes have a node in the scene,
    where each node sits, and which marker and connection nodes hang under it. Positions are
    integers: `x` and `y` count `_shapePadding` steps, `z` counts hundredths. The nodes under a
    class node are known only by their names, which is all `findByName` looks at. */
module Placement {
  import opened Outcomes
  import opened Text
  import opened Orders
  import opened Graph

  /** A local position, in steps of `_shapePadding` across and hundredths in depth. */
  datatype Pos = Pos(x: int, y: int, z: int)

  const Origin: Pos := Pos(0, 0, 0)

  /** The value `_curLocalPos` takes once the map holds `n` classes and one more is placed:
      a turn of four around the ring's centre, the ring moving one step across and one
      hundredth deeper every four classes. */
  function Offset(n: nat): (p: Pos)
    ensures p.z == n / 4
    ensures p.x - p.z == [0, 1, 0, -1][n % 4] && p.y == [1, 0, -1, 0][n % 4]
  {
    var m := n / 4;
    match n % 4
    case 1 => Pos(1 + m, 0, m)
    case 2 => Pos(m, -1, m)
    case 3 => Pos(-1 + m, 0, m)
    case _ => Pos(m, 1, m)
  }

  /** Where the class placed when `k` others already have a node goes: `_curLocalPos` as it
      stood before the update, the origin for the first. */
  function Slot(k: nat): Pos {
    if k == 0 then Origin else Offset(k - 1)
  }

  /** Which placement count a position belongs to, if any. */
  function SlotIndex(p: Pos): Option<nat> {
    if p == Origin then Some(0)
    else if p.z < 0 then None
    else
      var m := p.z;
      match (p.x - m, p.y)
      case (0, 1) => Some(4 * m + 1)
      case (1, 0) => Some(4 * m + 2)
      case (0, -1) => Some(4 * m + 3)
      case (-1, 0) => Some(4 * m + 4)
      case _ => None
  }

  /** Slots are read back to their placement count, and only slots are read back. */
  lemma {:induction false} SlotRoundTrip(k: nat, p: Pos)
    ensures SlotIndex(Slot(k)) == Some(k)
    ensures SlotIndex(p) == Some(k) ==> Slot(k) == p
  {
    if k > 0 {
      var n := k - 1;
      assert n == 4 * (n / 4) + n % 4;
    }
  }

  /** Two placement counts never share a position. */
  lemma {:induction false} SlotsDistinct(i: nat, j: nat)
    requires i != j
    ensures Slot(i) != Slot(j)
  {
    SlotRoundTrip(i, Slot(i));
    SlotRoundTrip(j, Slot(j));
  }

  /** The first five classes: at the origin, then above, right of, below and left of it. */
  lemma {:induction false} FirstSlots()
    ensures Slot(0) == Origin && Slot(1) == Pos(0, 1, 0) && Slot(2) == Pos(1, 0, 0)
    ensures Slot(3) == Pos(0, -1, 0) && Slot(4) == Pos(-1, 0, 0) && Slot(5) == Pos(1, 1, 1)
  {
  }

  /** `ClassNode`: the class's node, at its position, and the names of the nodes under it. */
  datatype ClassNode = ClassNode(pos: Pos, names: set<string>)

  /** A connection node `name`, hung under `from`'s node, drawn towards `to`'s node. */
  datatype Link = Link(from: string, to: string, name: string)

  /** `_classNodes` and its placing history, `_curLocalPos`, and the connections drawn in order. */
  datatype Scene = Scene(placed: seq<string>, nodes: map<string, ClassNode>, cursor: Pos, links: seq<Link>)

  /** The fragment before its first render. */
  const Start: Scene := Scene([], map[], Origin, [])

  /** The name of the connection node that goes with a marker. */
  function ConnectionName(marker: string): string {
    marker + "-connection"
  }

  /** The history lists exactly the map's classes, each once, so the map's size counts the
      classes placed. */
  ghost predicate Roster(s: Scene) {
    && Distinct(s.placed)
    && (forall k :: k in s.nodes <==> k in s.placed)
    && |s.nodes| == |s.placed|
  }

  /** Each class sits in the slot of its place in the history, and the cursor is the next slot. */
  ghost predicate Slotted(s: Scene) {
    && s.cursor == Slot(|s.placed|)
    && forall i :: 0 <= i < |s.placed| ==> s.placed[i] in s.nodes && s.nodes[s.placed[i]].pos == Slot(i)
  }

  /** Each connection hangs under its own class node and points at a placed class. */
  ghost predicate LinksSound(s: Scene) {
    forall i :: 0 <= i < |s.links| ==>
      s.links[i].from in s.nodes && s.links[i].to in s.nodes && s.links[i].name in s.nodes[s.links[i].from].names
  }

  /** No class node holds two connections of the same name. */
  ghost predicate LinksUnique(s: Scene) {
    forall i, j :: 0 <= i < j < |s.links| ==> s.links[i].from != s.links[j].from || s.links[i].name != s.links[j].name
  }

  ghost predicate Valid(s: Scene) {
    Roster(s) && Slotted(s) && LinksSound(s) && LinksUnique(s)
  }

  /** `t` is `s` after additions only: the history and the connections extended, no class
      node moved, no node under a class node removed. */
  ghost predicate Extends(s: Scene, t: Scene) {
    && s.placed <= t.placed
    && s.links <= t.links
    && forall k :: k in s.nodes ==> k in t.nodes && t.nodes[k].pos == s.nodes[k].pos && s.nodes[k].names <= t.nodes[k].names
  }

  /** No two placed classes share a position. */
  lemma {:induction false} NoSharedSlot(s: Scene, a: string, b: string)
    requires Valid(s) && a in s.nodes && b in s.nodes && a != b
    ensures s.nodes[a].pos != s.nodes[b].pos
  {
    var i :| 0 <= i < |s.placed| && s.placed[i] == a;
    var j :| 0 <= j < |s.placed| && s.placed[j] == b;
    SlotsDistinct(i, j);
  }

  /** Placing a new class keeps the scene valid. */
  lemma {:induction false} PlaceValid(s: Scene, name: string, r: Scene)
    requires Valid(s) && name !in s.nodes
    requires r == Scene(s.placed + [name], s.nodes[name := ClassNode(s.cursor, {})], Offset(|s.nodes|), s.links)
    ensures Valid(r) && Extends(s, r)
  {
    PlaceRoster(s, name, r);
    PlaceSlotted(s, name, r);
    PlaceLinks(s, name, r);
  }

  /** The new class joins the history once. */
  lemma {:induction false} PlaceRoster(s: Scene, name: string, r: Scene)
    requires Roster(s) && name !in s.nodes
    requires r.placed == s.placed + [name] && r.nodes == s.nodes[name := ClassNode(s.cursor, {})]
    ensures Roster(r)
  {
    assert forall k :: k in r.nodes <==> k in r.placed;
    forall i, j | 0 <= i < j < |r.placed| ensures r.placed[i] != r.placed[j] {
      if j < |s.placed| {
        assert r.placed[i] == s.placed[i] && r.placed[j] == s.placed[j];
      } else {
        assert r.placed[i] == s.placed[i] && r.placed[j] == name;
      }
    }
  }

  /** The new class takes the cursor's slot, and the cursor the one after. */
  lemma {:induction false} PlaceSlotted(s: Scene, name: string, r: Scene)
    requires Roster(s) && Slotted(s) && name !in s.nodes
    requires r == Scene(s.placed + [name], s.nodes[name := ClassNode(s.cursor, {})], Offset(|s.nodes|), s.links)
    ensures Slotted(r)
  {
    forall i | 0 <= i < |r.placed| ensures r.placed[i] in r.nodes && r.nodes[r.placed[i]].pos == Slot(i) {
      if i < |s.placed| {
        assert r.placed[i] == s.placed[i];
        assert s.placed[i] != name;
      }
    }
  }

  /** The connections are untouched and their class nodes keep their names. */
  lemma {:induction false} PlaceLinks(s: Scene, name: string, r: Scene)
    requires LinksSound(s) && LinksUnique(s) && name !in s.nodes
    requires r.nodes == s.nodes[name := ClassNode(s.cursor, {})] && r.links == s.links
    ensures LinksSound(r) && LinksUnique(r)
  {
    forall i | 0 <= i < |r.links| ensures r.links[i].from in r.nodes && r.links[i].to in r.nodes
      && r.links[i].name in r.nodes[r.links[i].from].names
    {
      assert s.links[i].from != name;
    }
  }

  /** A new class node at the cursor, which then moves on by the map's size. */
  function Place(s: Scene, name: string): (r: Scene)
    requires name !in s.nodes
    ensures r.nodes.Keys == s.nodes.Keys + {name} && r.links == s.links
  {
    Scene(s.placed + [name], s.nodes[name := ClassNode(s.cursor, {})], Offset(|s.nodes|), s.links)
  }

  /** The new node takes the slot of its place in the history, and the scene stays valid. */
  lemma {:induction false} PlaceEffect(s: Scene, name: string)
    requires Valid(s) && name !in s.nodes
    ensures var r := Place(s, name);
      && Valid(r) && Extends(s, r)
      && r.placed == s.placed + [name]
      && r.nodes == s.nodes[name := ClassNode(Slot(|s.placed|), {})]
  {
    PlaceValid(s, name, Place(s, name));
  }

  /** Adding nodes under one class node keeps the scene valid. */
  lemma {:induction false} HangValid(s: Scene, owner: string, names: set<string>, r: Scene)
    requires Valid(s) && owner in s.nodes && s.nodes[owner].names <= names
    requires r == Scene(s.placed, s.nodes[owner := s.nodes[owner].(names := names)], s.cursor, s.links)
    ensures Valid(r) && Extends(s, r)
  {
    assert Roster(r) by {
      assert forall k :: k in r.nodes <==> k in s.nodes;
    }
    assert Slotted(r) by {
      forall i | 0 <= i < |r.placed| ensures r.placed[i] in r.nodes && r.nodes[r.placed[i]].pos == Slot(i) {
        assert s.placed[i] in s.nodes;
      }
    }
    assert LinksSound(r) by {
      forall i | 0 <= i < |r.links| ensures r.links[i].from in r.nodes && r.links[i].to in r.nodes
        && r.links[i].name in r.nodes[r.links[i].from].names
      {
        assert s.links[i].name in s.nodes[s.links[i].from].names;
      }
    }
  }

  /** Drawing a connection of a new name between two placed classes keeps the scene valid. */
  lemma {:induction false} ConnectValid(s: Scene, owner: string, target: string, conn: string, r: Scene)
    requires Valid(s) && owner in s.nodes && target in s.nodes && conn !in s.nodes[owner].names
    requires r == Scene(s.placed, s.nodes[owner := s.nodes[owner].(names := s.nodes[owner].names + {conn})],
      s.cursor, s.links + [Link(owner, target, conn)])
    ensures Valid(r) && Extends(s, r)
  {
    var t := Scene(s.placed, r.nodes, s.cursor, s.links);
    HangValid(s, owner, s.nodes[owner].names + {conn}, t);
    assert LinksSound(r) by {
      forall i | 0 <= i < |r.links| ensures r.links[i].from in r.nodes && r.links[i].to in r.nodes
        && r.links[i].name in r.nodes[r.links[i].from].names
      {
        if i < |s.links| { assert r.links[i] == t.links[i]; }
      }
    }
    assert LinksUnique(r) by {
      forall i, j | 0 <= i < j < |r.links| ensures r.links[i].from != r.links[j].from || r.links[i].name != r.links[j].name {
        if j < |s.links| {
          assert r.links[i] == s.links[i] && r.links[j] == s.links[j];
        } else {
          assert r.links[i] == s.links[i] && s.links[i].name in s.nodes[s.links[i].from].names;
        }
      }
    }
  }

  /** Every connection `t` has beyond those of `s` hangs under `owner`'s node. */
  ghost predicate LinksFrom(s: Scene, t: Scene, owner: string) {
    |s.links| <= |t.links| && forall i :: |s.links| <= i < |t.links| ==> t.links[i].from == owner
  }

  /** The marker block for one relation of class `owner`: a marker node named `marker` unless
      one exists, then a connection towards `target` unless one exists or `target` has no node. */
  function Attach(s: Scene, owner: string, marker: string, target: string): (r: Scene)
    requires owner in s.nodes
    ensures r.nodes.Keys == s.nodes.Keys && r.placed == s.placed && r.cursor == s.cursor
  {
    var n := s.nodes[owner];
    var names := n.names + {marker};
    var conn := ConnectionName(marker);
    if conn !in names && target in s.nodes then
      Scene(s.placed, s.nodes[owner := n.(names := names + {conn})], s.cursor, s.links + [Link(owner, target, conn)])
    else
      Scene(s.placed, s.nodes[owner := n.(names := names)], s.cursor, s.links)
  }

  /** The marker block keeps the scene valid and only adds to it. */
  lemma {:induction false} AttachValid(s: Scene, owner: string, marker: string, target: string)
    requires Valid(s) && owner in s.nodes
    ensures Valid(Attach(s, owner, marker, target)) && Extends(s, Attach(s, owner, marker, target))
  {
    var n := s.nodes[owner];
    var names := n.names + {marker};
    var conn := ConnectionName(marker);
    var s1 := Scene(s.placed, s.nodes[owner := n.(names := names)], s.cursor, s.links);
    HangValid(s, owner, names, s1);
    if conn !in names && target in s.nodes {
      var r := Attach(s, owner, marker, target);
      assert s1.nodes[owner := s1.nodes[owner].(names := names + {conn})] == r.nodes;
      ConnectValid(s1, owner, target, conn, r);
    }
  }

  /** What the marker block adds: the marker, and the connection exactly when none of that
      name exists yet and the target is placed, recorded as one new connection under `owner`;
      nothing under any other class node changes. */
  lemma {:induction false} AttachEffect(s: Scene, owner: string, marker: string, target: string)
    requires owner in s.nodes
    ensures var r := Attach(s, owner, marker, target);
      && (forall k :: k in s.nodes && k != owner ==> r.nodes[k] == s.nodes[k])
      && s.nodes[owner].names + {marker} <= r.nodes[owner].names
      && (ConnectionName(marker) in r.nodes[owner].names <==>
            ConnectionName(marker) in s.nodes[owner].names || target in s.nodes)
      && r.nodes[owner].names <= s.nodes[owner].names + {marker, ConnectionName(marker)}
      && (r.links == s.links || r.links == s.links + [Link(owner, target, ConnectionName(marker))])
      && (r.links != s.links <==> ConnectionName(marker) !in s.nodes[owner].names + {marker} && target in s.nodes)
      && LinksFrom(s, r, owner)
  {
  }

  /** The marker block changes nothing once its marker is there, and its connection too
      whenever the target is placed. */
  lemma {:induction false} AttachSettled(s: Scene, owner: string, marker: string, target: string)
    requires owner in s.nodes
    requires Tagged(s.nodes[owner].names, marker, target, s.nodes.Keys)
    ensures Attach(s, owner, marker, target) == s
  {
    var n := s.nodes[owner];
    assert n.(names := n.names + {marker}) == n;
    assert s.nodes[owner := n] == s.nodes;
  }

  /** The nodes under a class node show the marker for `target`, and its connection too if
      `target` is one of `known`. */
  ghost predicate Tagged(names: set<string>, marker: string, target: string, known: set<string>) {
    marker in names && (target in known ==> ConnectionName(marker) in names)
  }

  /** What the loop body reads of one class: its name, `parentClasses.first()` and
      `refClasses.first()` when those sets are non-empty. */
  datatype Visit = Visit(name: string, parent: Option<string>, ref: Option<string>)

  /** The visit of class `name` of the graph. */
  function VisitOf(g: CodeData, sorder: SetOrder, name: string): (v: Visit)
    requires name in g.classes
    ensures v.name == name
    ensures v.parent.Some? <==> g.classes[name].parents != {}
    ensures v.parent.Some? ==> v.parent.value in g.classes[name].parents && v.parent.value == sorder(g.classes[name].parents)[0]
    ensures v.ref.Some? <==> g.classes[name].refs != {}
    ensures v.ref.Some? ==> v.ref.value in g.classes[name].refs && v.ref.value == sorder(g.classes[name].refs)[0]
  {
    var c := g.classes[name];
    Visit(name,
      if c.parents == {} then None else Some(First(sorder, c.parents)),
      if c.refs == {} then None else Some(First(sorder, c.refs)))
  }

  /** The visits of the named classes, in turn. */
  function Plan(g: CodeData, sorder: SetOrder, names: seq<string>): (vs: seq<Visit>)
    requires forall i :: 0 <= i < |names| ==> names[i] in g.classes
    ensures |vs| == |names| && forall i :: 0 <= i < |names| ==> vs[i] == VisitOf(g, sorder, names[i])
  {
    seq(|names|, i requires 0 <= i < |names| => VisitOf(g, sorder, names[i]))
  }

  /** The class has a node, and under it the marker of its first parent and of its first
      reference, each with its connection when the target is one of `known`. */
  ghost predicate Marked(s: Scene, v: Visit, known: set<string>) {
    && v.name in s.nodes
    && (v.parent.Some? ==> Tagged(s.nodes[v.name].names, "parent-" + v.parent.value, v.parent.value, known))
    && (v.ref.Some? ==> Tagged(s.nodes[v.name].names, "ref-" + v.ref.value, v.ref.value, known))
  }

  /** Marks stay once made, and hold for fewer known targets. */
  lemma {:induction false} MarkedKept(s: Scene, t: Scene, v: Visit, known: set<string>, fewer: set<string>)
    requires Marked(s, v, known) && Extends(s, t) && fewer <= known
    ensures Marked(t, v, fewer)
  {
  }

  /** A node for class `name` if it has none. */
  function Ensure(s: Scene, name: string): (r: Scene)
    ensures r.nodes.Keys == s.nodes.Keys + {name} && r.links == s.links
  {
    if name in s.nodes then s else Place(s, name)
  }

  /** The parent block, when the class has a parent. */
  function AttachParent(s: Scene, v: Visit): (r: Scene)
    requires v.name in s.nodes
    ensures r.nodes.Keys == s.nodes.Keys
  {
    if v.parent.None? then s else Attach(s, v.name, "parent-" + v.parent.value, v.parent.value)
  }

  /** The reference block, when the class has a reference. */
  function AttachRef(s: Scene, v: Visit): (r: Scene)
    requires v.name in s.nodes
    ensures r.nodes.Keys == s.nodes.Keys
  {
    if v.ref.None? then s else Attach(s, v.name, "ref-" + v.ref.value, v.ref.value)
  }

  /** One pass of the loop body: a node if the class has none, then the parent block and the
      reference block. */
  function RenderClass(s: Scene, v: Visit): (r: Scene)
    ensures r.nodes.Keys == s.nodes.Keys + {v.name}
  {
    AttachRef(AttachParent(Ensure(s, v.name), v), v)
  }

  /** A pass keeps the scene valid and only adds to it; it places the class exactly when it
      had no node. */
  lemma {:induction false} RenderClassValid(s: Scene, v: Visit)
    requires Valid(s)
    ensures var r := RenderClass(s, v);
      && Valid(r) && Extends(s, r)
      && r.placed == if v.name in s.nodes then s.placed else s.placed + [v.name]
  {
    var s1 := Ensure(s, v.name);
    if v.name !in s.nodes { PlaceEffect(s, v.name); }
    var s2 := AttachParent(s1, v);
    if v.parent.Some? { AttachValid(s1, v.name, "parent-" + v.parent.value, v.parent.value); }
    if v.ref.Some? { AttachValid(s2, v.name, "ref-" + v.ref.value, v.ref.value); }
  }

  /** After its pass a class has its node, with the markers of its first parent and first
      reference, each connected if the target was placed by then; and no other class node
      changes. */
  lemma {:induction false} RenderClassMarks(s: Scene, v: Visit)
    ensures var r := RenderClass(s, v);
      && Marked(r, v, s.nodes.Keys + {v.name})
      && (forall k :: k in s.nodes && k != v.name ==> r.nodes[k] == s.nodes[k])
  {
    var s1 := Ensure(s, v.name);
    var s2 := AttachParent(s1, v);
    if v.parent.Some? {
      AttachEffect(s1, v.name, "parent-" + v.parent.value, v.parent.value);
    }
    if v.ref.Some? {
      AttachEffect(s2, v.name, "ref-" + v.ref.value, v.ref.value);
    }
  }

  /** Only the visited class's node gains connections in its pass. */
  lemma {:induction false} RenderClassLinks(s: Scene, v: Visit)
    ensures LinksFrom(s, RenderClass(s, v), v.name)
  {
    var s1 := Ensure(s, v.name);
    var s2 := AttachParent(s1, v);
    var r := AttachRef(s2, v);
    if v.parent.Some? {
      AttachEffect(s1, v.name, "parent-" + v.parent.value, v.parent.value);
    }
    if v.ref.Some? {
      AttachEffect(s2, v.name, "ref-" + v.ref.value, v.ref.value);
    }
    assert s.links == s1.links && s1.links <= s2.links <= r.links;
    forall i | |s.links| <= i < |r.links| ensures r.links[i].from == v.name {
      if i < |s2.links| { assert r.links[i] == s2.links[i]; }
    }
  }

  /** A pass over a class already marked against the placed classes changes nothing. */
  lemma {:induction false} RenderClassSettled(s: Scene, v: Visit)
    requires Marked(s, v, s.nodes.Keys)
    ensures RenderClass(s, v) == s
  {
    if v.parent.Some? {
      AttachSettled(s, v.name, "parent-" + v.parent.value, v.parent.value);
    }
    if v.ref.Some? {
      AttachSettled(s, v.name, "ref-" + v.ref.value, v.ref.value);
    }
  }

  /** The classes the visits name, in turn. */
  function Names(vs: seq<Visit>): (ns: seq<string>)
    ensures |ns| == |vs| && forall i :: 0 <= i < |vs| ==> ns[i] == vs[i].name
  {
    seq(|vs|, i requires 0 <= i < |vs| => vs[i].name)
  }

  /** The loop, one visit after another. */
  function RenderVisits(s: Scene, vs: seq<Visit>): (r: Scene)
    ensures forall k :: k in r.nodes <==> k in s.nodes || k in Names(vs)
    decreases |vs|
  {
    if |vs| == 0 then s
    else
      assert Names(vs) == [vs[0].name] + Names(vs[1..]);
      RenderVisits(RenderClass(s, vs[0]), vs[1..])
  }

  /** The loop keeps the scene valid and only adds to it. */
  lemma {:induction false} RenderVisitsValid(s: Scene, vs: seq<Visit>)
    requires Valid(s)
    ensures Valid(RenderVisits(s, vs)) && Extends(s, RenderVisits(s, vs))
    decreases |vs|
  {
    if |vs| > 0 {
      RenderClassValid(s, vs[0]);
      RenderVisitsValid(RenderClass(s, vs[0]), vs[1..]);
    }
  }

  /** After the loop every visited class is marked against the classes placed before it. */
  lemma {:induction false} RenderVisitsMarks(s: Scene, vs: seq<Visit>)
    requires Valid(s)
    ensures forall i :: 0 <= i < |vs| ==> Marked(RenderVisits(s, vs), vs[i], s.nodes.Keys)
    decreases |vs|
  {
    if |vs| > 0 {
      var s1 := RenderClass(s, vs[0]);
      var r := RenderVisits(s1, vs[1..]);
      RenderClassValid(s, vs[0]);
      RenderClassMarks(s, vs[0]);
      RenderVisitsValid(s1, vs[1..]);
      RenderVisitsMarks(s1, vs[1..]);
      forall i | 0 <= i < |vs| ensures Marked(r, vs[i], s.nodes.Keys) {
        if i == 0 {
          MarkedKept(s1, r, vs[0], s.nodes.Keys + {vs[0].name}, s.nodes.Keys);
        } else {
          assert vs[i] == vs[1..][i - 1];
          MarkedKept(r, r, vs[i], s1.nodes.Keys, s.nodes.Keys);
        }
      }
    }
  }

  /** A loop over classes all marked against the placed classes changes nothing. */
  lemma {:induction false} RenderVisitsSettled(s: Scene, vs: seq<Visit>)
    requires forall i :: 0 <= i < |vs| ==> Marked(s, vs[i], s.nodes.Keys)
    ensures RenderVisits(s, vs) == s
    decreases |vs|
  {
    if |vs| > 0 {
      RenderClassSettled(s, vs[0]);
      assert forall i :: 0 <= i < |vs[1..]| ==> vs[1..][i] == vs[i + 1];
      RenderVisitsSettled(s, vs[1..]);
    }
  }

  /** `renderCodeModels(id, codeData)`: one pass for every class of the graph, in the map's
      order. */
  function Render(s: Scene, g: CodeData, korder: KeyOrder, sorder: SetOrder): (r: Scene)
    requires Graph.Valid(g)
    ensures forall k :: k in r.nodes <==> k in s.nodes || k in g.classes
  {
    var vs := LoopPlan(g, korder, sorder);
    assert forall k :: k in Names(vs) <==> k in korder(g.keys) by {
      assert Names(vs) == korder(g.keys);
    }
    RenderVisits(s, vs)
  }

  /** The visits of one render: every class of the graph once, in the map's order. */
  function LoopPlan(g: CodeData, korder: KeyOrder, sorder: SetOrder): (vs: seq<Visit>)
    requires Graph.Valid(g)
    ensures Reorders(korder(g.keys), g.keys)
    ensures |vs| == |g.keys| && forall i :: 0 <= i < |vs| ==> vs[i] == VisitOf(g, sorder, korder(g.keys)[i])
  {
    assert Reorders(korder(g.keys), g.keys);
    Plan(g, sorder, korder(g.keys))
  }

  /** The scene before the first render is valid. */
  lemma {:induction false} StartValid()
    ensures Valid(Start)
  {
  }

  /** A render keeps the scene valid and only adds to it: no class node is removed or moved
      and no marker or connection is taken away. */
  lemma {:induction false} RenderKeeps(s: Scene, g: CodeData, korder: KeyOrder, sorder: SetOrder)
    requires Valid(s) && Graph.Valid(g)
    ensures Valid(Render(s, g, korder, sorder)) && Extends(s, Render(s, g, korder, sorder))
  {
    var names := korder(g.keys);
    assert Reorders(names, g.keys);
    RenderVisitsValid(s, Plan(g, sorder, names));
  }

  /** Every class of the graph is marked against the classes placed before the render. */
  lemma {:induction false} RenderMarks(s: Scene, g: CodeData, korder: KeyOrder, sorder: SetOrder)
    requires Valid(s) && Graph.Valid(g)
    ensures forall k :: k in g.classes ==> Marked(Render(s, g, korder, sorder), VisitOf(g, sorder, k), s.nodes.Keys)
  {
    var names := korder(g.keys);
    assert Reorders(names, g.keys);
    var vs := Plan(g, sorder, names);
    RenderVisitsMarks(s, vs);
    forall k | k in g.classes ensures Marked(Render(s, g, korder, sorder), VisitOf(g, sorder, k), s.nodes.Keys) {
      var i :| 0 <= i < |names| && names[i] == k;
      assert vs[i] == VisitOf(g, sorder, k);
    }
  }

  /** Every class of the graph has its node and its markers, each connected whenever the
      target has a node. */
  ghost predicate Settled(s: Scene, g: CodeData, sorder: SetOrder) {
    forall k :: k in g.classes ==> Marked(s, VisitOf(g, sorder, k), s.nodes.Keys)
  }

  /** A render of a settled scene changes nothing. */
  lemma {:induction false} SettledRenderFixed(s: Scene, g: CodeData, korder: KeyOrder, sorder: SetOrder)
    requires Graph.Valid(g) && Settled(s, g, sorder)
    ensures Render(s, g, korder, sorder) == s
  {
    var names := korder(g.keys);
    assert Reorders(names, g.keys);
    var vs := Plan(g, sorder, names);
    RenderVisitsSettled(s, vs);
  }

  /** Two renders of the same graph settle the scene: the first gives every class a node, so
      the second connects every marker whose target is a class of the graph or was placed
      before. A connection deferred because its target had no node yet is drawn by then. */
  lemma {:induction false} RenderTwiceSettles(s: Scene, g: CodeData, korder: KeyOrder, sorder: SetOrder)
    requires Valid(s) && Graph.Valid(g)
    ensures Settled(Render(Render(s, g, korder, sorder), g, korder, sorder), g, sorder)
  {
    var s1 := Render(s, g, korder, sorder);
    RenderKeeps(s, g, korder, sorder);
    RenderMarks(s1, g, korder, sorder);
    MarksSettle(s1, Render(s1, g, korder, sorder), g, sorder);
  }

  /** Marks against the classes placed before a pass that placed nothing new settle the scene. */
  lemma {:induction false} MarksSettle(s1: Scene, s2: Scene, g: CodeData, sorder: SetOrder)
    requires forall k :: k in g.classes ==> Marked(s2, VisitOf(g, sorder, k), s1.nodes.Keys)
    requires forall k :: k in s2.nodes <==> k in s1.nodes || k in g.classes
    requires forall k :: k in g.classes ==> k in s1.nodes
    ensures Settled(s2, g, sorder)
  {
    assert s2.nodes.Keys == s1.nodes.Keys;
  }

  /** From the second render of the same graph on, a render draws nothing new: no connection
      is ever drawn twice. */
  lemma {:induction false} ThirdRenderChangesNothing(s: Scene, g: CodeData, korder: KeyOrder, sorder: SetOrder)
    requires Valid(s) && Graph.Valid(g)
    ensures var s2 := Render(Render(s, g, korder, sorder), g, korder, sorder);
      Render(s2, g, korder, sorder) == s2
  {
    RenderTwiceSettles(s, g, korder, sorder);
    SettledRenderFixed(Render(Render(s, g, korder, sorder), g, korder, sorder), g, korder, sorder);
  }

  /** A connection only ever points at a class with a node: one whose target is neither placed
      nor in the graph stays deferred. */
  lemma {:induction false} NoConnectionToUnplaced(s: Scene, g: CodeData, korder: KeyOrder, sorder: SetOrder, target: string)
    requires Valid(s) && Graph.Valid(g) && target !in s.nodes && target !in g.classes
    ensures var r := Render(s, g, korder, sorder);
      forall i :: 0 <= i < |r.links| ==> r.links[i].to != target
  {
    RenderKeeps(s, g, korder, sorder);
  }

  /** Distinct classes never share a position, however many renders have run. */
  lemma {:induction false} RenderedSlotsDistinct(s: Scene, g: CodeData, korder: KeyOrder, sorder: SetOrder, a: string, b: string)
    requires Valid(s) && Graph.Valid(g) && a in g.classes && b in g.classes && a != b
    ensures var r := Render(s, g, korder, sorder);
      a in r.nodes && b in r.nodes && r.nodes[a].pos != r.nodes[b].pos
  {
    RenderKeeps(s, g, korder, sorder);
    NoSharedSlot(Render(s, g, korder, sorder), a, b);
  }

  /** The loop over two visits. */
  lemma {:induction false} RenderTwo(s: Scene, v: Visit, w: Visit)
    ensures RenderVisits(s, [v, w]) == RenderClass(RenderClass(s, v), w)
  {
    assert [v, w][1..] == [w] && [w][1..] == [];
    var t := RenderClass(s, v);
    assert RenderVisits(s, [v, w]) == RenderVisits(t, [w]);
    assert RenderVisits(t, [w]) == RenderVisits(RenderClass(t, w), []);
  }

  /** `class Child : public Parent` before `Parent` is declared, as the graph records it. */
  function ChildOnly(): (g: CodeData)
    ensures Graph.Valid(g) && g.keys == ["Child"]
    ensures g.classes.Keys == {"Child"} && g.classes["Child"] == ClassData({"Parent"}, {})
  {
    AddParent(Insert(Empty, "Child"), "Child", "Parent")
  }

  /** The same graph once `class Parent` has been read too. */
  function WithParent(): (g: CodeData)
    ensures Graph.Valid(g) && g.keys == ["Child", "Parent"]
    ensures g.classes.Keys == {"Child", "Parent"}
    ensures g.classes["Child"] == ClassData({"Parent"}, {}) && g.classes["Parent"] == ClassData({}, {})
  {
    Insert(ChildOnly(), "Parent")
  }

  /** The child's visit: its one parent, no reference. */
  const ChildVisit: Visit := Visit("Child", Some("Parent"), None)

  /** The parent's visit: nothing to attach. */
  const ParentVisit: Visit := Visit("Parent", None, None)

  /** The scene after the first render: `Child` at the origin with its parent marker only. */
  const Marker: Scene :=
    Scene(["Child"], map["Child" := ClassNode(Origin, {"parent-Parent"})], Slot(1), [])

  /** Then `Parent` placed next to it, still unconnected. */
  const BothPlaced: Scene :=
    Scene(["Child", "Parent"], map["Child" := ClassNode(Origin, {"parent-Parent"}), "Parent" := ClassNode(Slot(1), {})], Slot(2), [])

  /** Then the connection drawn. */
  const Connected: Scene :=
    Scene(["Child", "Parent"],
      map["Child" := ClassNode(Origin, {"parent-Parent", "parent-Parent-connection"}), "Parent" := ClassNode(Slot(1), {})],
      Slot(2), [Link("Child", "Parent", "parent-Parent-connection")])

  /** The names the child's parent block uses. */
  lemma {:induction false} MarkerNames()
    ensures "parent-" + "Parent" == "parent-Parent"
    ensures ConnectionName("parent-Parent") == "parent-Parent-connection"
    ensures "parent-Parent" != "parent-Parent-connection"
  {
    assert |"parent-Parent"| != |"parent-Parent-connection"|;
  }

  /** The first pass places the child and marks its parent, without connecting it. */
  lemma {:induction false} StepMarker()
    ensures RenderClass(Start, ChildVisit) == Marker
  {
    MarkerNames();
    var s1 := Place(Start, "Child");
    assert s1.nodes == map["Child" := ClassNode(Origin, {})];
    assert Marker.nodes == s1.nodes["Child" := ClassNode(Origin, {"parent-Parent"})];
  }

  /** The parent's pass places it. */
  lemma {:induction false} StepBothPlaced()
    ensures RenderClass(Marker, ParentVisit) == BothPlaced
  {
    assert BothPlaced.nodes == Marker.nodes["Parent" := ClassNode(Slot(1), {})];
  }

  /** The child's pass after the parent has a node draws the connection. */
  lemma {:induction false} StepConnected()
    ensures RenderClass(BothPlaced, ChildVisit) == Connected
  {
    MarkerNames();
    assert "Child" != "Parent" by { assert "Child"[0] != "Parent"[0]; }
    var n := BothPlaced.nodes["Child"];
    assert n.names + {"parent-Parent"} == {"parent-Parent"};
    var m := BothPlaced.nodes["Child" := ClassNode(Origin, {"parent-Parent"} + {"parent-Parent-connection"})];
    assert {"parent-Parent"} + {"parent-Parent-connection"} == {"parent-Parent", "parent-Parent-connection"};
    assert m.Keys == Connected.nodes.Keys;
    assert m["Child"] == Connected.nodes["Child"] && m["Parent"] == Connected.nodes["Parent"];
    assert Connected.nodes == m;
  }

  /** The passes that change nothing. */
  lemma {:induction false} StepsSettled()
    ensures RenderClass(Marker, ChildVisit) == Marker
    ensures RenderClass(Connected, ChildVisit) == Connected
    ensures RenderClass(Connected, ParentVisit) == Connected
  {
    MarkerNames();
    RenderClassSettled(Marker, ChildVisit);
    RenderClassSettled(Connected, ChildVisit);
    RenderClassSettled(Connected, ParentVisit);
  }

  /** Both orders of a map with two keys. */
  lemma {:induction false} TwoKeyOrders(korder: KeyOrder)
    ensures korder(["Child"]) == ["Child"]
    ensures korder(["Child", "Parent"]) == ["Child", "Parent"] || korder(["Child", "Parent"]) == ["Parent", "Child"]
  {
    var n1 := korder(["Child"]);
    assert Reorders(n1, ["Child"]);
    assert n1[0] in ["Child"];
    var n2 := korder(["Child", "Parent"]);
    assert Distinct(["Child", "Parent"]);
    assert Reorders(n2, ["Child", "Parent"]);
    assert n2[0] in ["Child", "Parent"] && n2[1] in ["Child", "Parent"] && n2[0] != n2[1];
  }

  /** The visits of the example's classes, whatever the set order. */
  lemma {:induction false} ExampleVisits(sorder: SetOrder)
    ensures VisitOf(ChildOnly(), sorder, "Child") == ChildVisit
    ensures VisitOf(WithParent(), sorder, "Child") == ChildVisit
    ensures VisitOf(WithParent(), sorder, "Parent") == ParentVisit
  {
    assert Enumerates(sorder({"Parent"}), {"Parent"});
    var e := sorder({"Parent"});
    assert "Parent" in e;
    assert e[0] in e;
  }

  /** The visits of the example graphs, whatever the orders. */
  lemma {:induction false} DeferredPlans(korder: KeyOrder, sorder: SetOrder)
    ensures LoopPlan(ChildOnly(), korder, sorder) == [ChildVisit]
    ensures var vs := LoopPlan(WithParent(), korder, sorder);
      vs == [ChildVisit, ParentVisit] || vs == [ParentVisit, ChildVisit]
  {
    TwoKeyOrders(korder);
    ExampleVisits(sorder);
    PlanSingle(ChildOnly(), korder, sorder, "Child", ChildVisit);
    PlanPair(WithParent(), korder, sorder, "Child", "Parent", ChildVisit, ParentVisit);
  }

  /** The plan of a one-class graph. */
  lemma {:induction false} PlanSingle(g: CodeData, korder: KeyOrder, sorder: SetOrder, a: string, va: Visit)
    requires Graph.Valid(g) && g.keys == [a] && korder([a]) == [a]
    requires a in g.classes && VisitOf(g, sorder, a) == va
    ensures LoopPlan(g, korder, sorder) == [va]
  {
  }

  /** The plan of a two-class graph, in either order. */
  lemma {:induction false} PlanPair(g: CodeData, korder: KeyOrder, sorder: SetOrder, a: string, b: string, va: Visit, vb: Visit)
    requires Graph.Valid(g) && g.keys == [a, b] && (korder([a, b]) == [a, b] || korder([a, b]) == [b, a])
    requires a in g.classes && b in g.classes && VisitOf(g, sorder, a) == va && VisitOf(g, sorder, b) == vb
    ensures var vs := LoopPlan(g, korder, sorder); vs == [va, vb] || vs == [vb, va]
  {
  }

  /** A render is the loop over the graph's visits. */
  lemma {:induction false} RenderIsLoop(s: Scene, g: CodeData, korder: KeyOrder, sorder: SetOrder)
    requires Graph.Valid(g)
    ensures forall i :: 0 <= i < |korder(g.keys)| ==> korder(g.keys)[i] in g.classes
    ensures Render(s, g, korder, sorder) == RenderVisits(s, Plan(g, sorder, korder(g.keys)))
    ensures Render(s, g, korder, sorder) == RenderVisits(s, LoopPlan(g, korder, sorder))
  {
    assert Reorders(korder(g.keys), g.keys);
  }

  /** The first render of the example marks the child only. */
  lemma {:induction false} DeferredFirstRender(korder: KeyOrder, sorder: SetOrder)
    ensures Render(Start, ChildOnly(), korder, sorder) == Marker
  {
    DeferredPlans(korder, sorder);
    RenderIsLoop(Start, ChildOnly(), korder, sorder);
    StepMarker();
    assert [ChildVisit][1..] == [];
  }

  /** Once the parent is read, the next render gives one of two scenes, by the map's order. */
  lemma {:induction false} DeferredSecondRender(korder: KeyOrder, sorder: SetOrder)
    ensures Render(Marker, WithParent(), korder, sorder) in {BothPlaced, Connected}
  {
    DeferredPlans(korder, sorder);
    RenderIsLoop(Marker, WithParent(), korder, sorder);
    StepBothPlaced();
    StepConnected();
    StepsSettled();
    RenderTwo(Marker, ChildVisit, ParentVisit);
    RenderTwo(Marker, ParentVisit, ChildVisit);
  }

  /** Both scenes occur: a map that visits `Child` first leaves the parent unconnected, and one
      that visits `Parent` first, as the JVM's table of sixteen buckets does for these two
      names, connects at once. */
  lemma {:induction false} SecondRenderByOrder(sorder: SetOrder)
    ensures Render(Marker, WithParent(), InsertionOrder, sorder) == BothPlaced
    ensures Render(Marker, WithParent(), ReversedOrder, sorder) == Connected
  {
    SecondRenderChildFirst(sorder);
    SecondRenderParentFirst(sorder);
  }

  /** Visiting `Child` first: its pass finds no node for `Parent`, whose pass then places it. */
  lemma {:induction false} SecondRenderChildFirst(sorder: SetOrder)
    ensures Render(Marker, WithParent(), InsertionOrder, sorder) == BothPlaced
  {
    var g := WithParent();
    ExampleVisits(sorder);
    assert InsertionOrder(g.keys) == ["Child", "Parent"];
    PlanInOrder(g, InsertionOrder, sorder, "Child", "Parent", ChildVisit, ParentVisit);
    RenderIsLoop(Marker, g, InsertionOrder, sorder);
    RenderTwo(Marker, ChildVisit, ParentVisit);
    StepsSettled();
    StepBothPlaced();
  }

  /** Visiting `Parent` first: it is placed, and the child's pass then connects to it. */
  lemma {:induction false} SecondRenderParentFirst(sorder: SetOrder)
    ensures Render(Marker, WithParent(), ReversedOrder, sorder) == Connected
  {
    var g := WithParent();
    ExampleVisits(sorder);
    ReversedPair("Child", "Parent");
    PlanInOrder(g, ReversedOrder, sorder, "Parent", "Child", ParentVisit, ChildVisit);
    RenderIsLoop(Marker, g, ReversedOrder, sorder);
    RenderTwo(Marker, ParentVisit, ChildVisit);
    StepBothPlaced();
    StepConnected();
  }

  /** The plan of a two-class graph whose map visits `a` then `b`. */
  lemma {:induction false} PlanInOrder(g: CodeData, korder: KeyOrder, sorder: SetOrder, a: string, b: string, va: Visit, vb: Visit)
    requires Graph.Valid(g) && |g.keys| == 2 && korder(g.keys) == [a, b]
    requires a in g.classes && b in g.classes && VisitOf(g, sorder, a) == va && VisitOf(g, sorder, b) == vb
    ensures LoopPlan(g, korder, sorder) == [va, vb]
  {
  }

  /** Either way, the render after that has the connection, and stays. */
  lemma {:induction false} DeferredThirdRender(korder: KeyOrder, sorder: SetOrder, s: Scene)
    requires s in {BothPlaced, Connected}
    ensures Render(s, WithParent(), korder, sorder) == Connected
  {
    DeferredPlans(korder, sorder);
    RenderIsLoop(s, WithParent(), korder, sorder);
    StepConnected();
    StepsSettled();
    RenderTwo(BothPlaced, ChildVisit, ParentVisit);
    RenderTwo(BothPlaced, ParentVisit, ChildVisit);
    RenderTwo(Connected, ChildVisit, ParentVisit);
    RenderTwo(Connected, ParentVisit, ChildVisit);
  }

  /** A parent declared after its child: the first render only marks the child; once the
      parent is read, at most two more renders draw exactly one connection, and later renders
      draw nothing. */
  lemma {:induction false} DeferredConnection(korder: KeyOrder, sorder: SetOrder)
    ensures var r1 := Render(Start, ChildOnly(), korder, sorder);
      && "parent-Parent" in r1.nodes["Child"].names && r1.links == []
    ensures var r3 := Render(Render(Render(Start, ChildOnly(), korder, sorder), WithParent(), korder, sorder), WithParent(), korder, sorder);
      && r3.links == [Link("Child", "Parent", "parent-Parent-connection")]
      && Render(r3, WithParent(), korder, sorder) == r3
  {
    DeferredFirstRender(korder, sorder);
    DeferredSecondRender(korder, sorder);
    var r2 := Render(Marker, WithParent(), korder, sorder);
    DeferredThirdRender(korder, sorder, r2);
    DeferredThirdRender(korder, sorder, Connected);
  }
}
