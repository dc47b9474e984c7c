/** The class graph `parseCode` fills in: `CodeData.classes`, a map from class name to the
    class's parent and reference sets. */
module Graph {
  import opened Text

  /** `ClassData` without its `name`, which always equals the key it is stored under. */
  datatype ClassData = ClassData(parents: set<string>, refs: set<string>)

  /** `CodeData`: the map's entries, and its keys in the order they were inserted, which is
      what the map's iteration order depends on. */
  datatype CodeData = CodeData(keys: seq<string>, classes: map<string, ClassData>)

  /** The insertion history lists exactly the map's keys, each once. */
  ghost predicate Valid(g: CodeData) {
    Distinct(g.keys) && forall k :: k in g.classes <==> k in g.keys
  }

  /** A fresh `CodeData()`. */
  const Empty: CodeData := CodeData([], map[])

  /** `classes[name] = ClassData(name)` for a name not yet in the map. */
  function Insert(g: CodeData, name: string): (h: CodeData)
    requires Valid(g) && name !in g.classes
    ensures Valid(h) && h.keys == g.keys + [name]
    ensures h.classes == g.classes[name := ClassData({}, {})]
  {
    var h := CodeData(g.keys + [name], g.classes[name := ClassData({}, {})]);
    assert forall k :: k in h.keys <==> k in g.keys || k == name;
    h
  }

  /** `classes[name]?.parentClasses?.add(parent)`. */
  function AddParent(g: CodeData, name: string, parent: string): (h: CodeData)
    requires name in g.classes
    ensures h.keys == g.keys && h.classes.Keys == g.classes.Keys
    ensures h.classes[name] == g.classes[name].(parents := g.classes[name].parents + {parent})
    ensures forall k :: k in g.classes && k != name ==> h.classes[k] == g.classes[k]
  {
    var c := g.classes[name];
    g.(classes := g.classes[name := c.(parents := c.parents + {parent})])
  }

  /** `curClass.refClasses.add(r)` for every `r` in `found`. */
  function AddRefs(g: CodeData, name: string, found: set<string>): (h: CodeData)
    requires name in g.classes
    ensures h.keys == g.keys && h.classes.Keys == g.classes.Keys
    ensures h.classes[name] == g.classes[name].(refs := g.classes[name].refs + found)
    ensures forall k :: k in g.classes && k != name ==> h.classes[k] == g.classes[k]
  {
    var c := g.classes[name];
    g.(classes := g.classes[name := c.(refs := c.refs + found)])
  }

  /** `h` is `g` after additions only: no key removed or moved in the insertion order, no
      element removed from any set. */
  ghost predicate Grows(g: CodeData, h: CodeData) {
    && g.keys <= h.keys
    && forall k :: k in g.classes ==>
         k in h.classes && g.classes[k].parents <= h.classes[k].parents && g.classes[k].refs <= h.classes[k].refs
  }

  /** Every class that was in `g` has the same parent set in `h`. */
  ghost predicate ParentsKept(g: CodeData, h: CodeData) {
    forall k :: k in g.classes ==> k in h.classes && h.classes[k].parents == g.classes[k].parents
  }

  /** No class has more than one parent. */
  ghost predicate SingleParents(g: CodeData) {
    forall k :: k in g.classes ==> |g.classes[k].parents| <= 1
  }

  /** Every reference names a class of the graph. */
  ghost predicate RefsKnown(g: CodeData) {
    forall k, r :: k in g.classes && r in g.classes[k].refs ==> r in g.classes
  }

  /** No name in the graph holds a newline. */
  ghost predicate SingleLine(g: CodeData) {
    forall k :: k in g.classes ==>
      && '\n' !in k
      && (forall p :: p in g.classes[k].parents ==> '\n' !in p)
      && (forall r :: r in g.classes[k].refs ==> '\n' !in r)
  }

  /** Adding references to one class changes no parent set, and keeps the references known
      and newline-free when the added ones are. */
  lemma {:induction false} AddRefsKeeps(g: CodeData, name: string, found: set<string>)
    requires name in g.classes
    ensures ParentsKept(g, AddRefs(g, name, found))
    ensures SingleParents(g) ==> SingleParents(AddRefs(g, name, found))
    ensures RefsKnown(g) && (forall r :: r in found ==> r in g.classes) ==> RefsKnown(AddRefs(g, name, found))
    ensures SingleLine(g) && (forall r :: r in found ==> '\n' !in r) ==> SingleLine(AddRefs(g, name, found))
  {
  }
}
