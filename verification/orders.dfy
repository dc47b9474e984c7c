/** Iteration orders of `HashMap` and `HashSet`. The JVM fixes them from the hash codes and the
    insertion history, which the model does not compute; every operation that iterates takes
    the order as a parameter instead, constrained only to list each element exactly once. */
module Orders {
  import opened Text

  /** `a` lists the elements of `b`, each once. */
  ghost predicate Reorders(a: seq<string>, b: seq<string>) {
    |a| == |b| && Distinct(a) && forall x :: x in a <==> x in b
  }

  /** `a` lists the elements of `s`, each once. */
  ghost predicate Enumerates(a: seq<string>, s: set<string>) {
    Distinct(a) && forall x :: x in a <==> x in s
  }

  /** The order of a `HashMap`'s keys, as a function of the order they were inserted in:
      without removals, that history determines the table. */
  type KeyOrder = f: seq<string> -> seq<string> | forall keys :: Distinct(keys) ==> Reorders(f(keys), keys)
    witness (keys: seq<string>) => keys

  /** A map that lists its keys in the order they were inserted. */
  const InsertionOrder: KeyOrder := keys => keys

  /** A map that lists its keys in the reverse of that order. */
  const ReversedOrder: KeyOrder := keys => Reversed(keys)

  /** The keys from last to first. */
  function Reversed(keys: seq<string>): (r: seq<string>)
    ensures |r| == |keys| && forall i :: 0 <= i < |keys| ==> r[i] == keys[|keys| - 1 - i]
    ensures Distinct(keys) ==> Reorders(r, keys)
  {
    var r := seq(|keys|, i requires 0 <= i < |keys| => keys[|keys| - 1 - i]);
    assert forall x :: x in keys ==> x in r by {
      forall x | x in keys ensures x in r {
        var i :| 0 <= i < |keys| && keys[i] == x;
        assert r[|keys| - 1 - i] == x;
      }
    }
    r
  }

  /** Two keys, swapped. */
  lemma ReversedPair(a: string, b: string)
    ensures ReversedOrder([a, b]) == [b, a]
  {
    var r := Reversed([a, b]);
    assert r[0] == b && r[1] == a;
  }

  /** The order of a `HashSet`'s elements, as a function of its contents. */
  type SetOrder = f: set<string> -> seq<string> | forall s :: Enumerates(f(s), s)
    ghost witness (s: set<string>) => Enumeration(s)

  /** Some enumeration of a finite set. */
  ghost function Enumeration(s: set<string>): (r: seq<string>)
    ensures Enumerates(r, s)
    decreases |s|
  {
    if s == {} then []
    else
      var x :| x in s;
      [x] + Enumeration(s - {x})
  }

  /** `set.first()` on a non-empty set: the element the order lists first. */
  function First(order: SetOrder, s: set<string>): (x: string)
    requires s != {}
    ensures x in s
  {
    var e := order(s);
    assert |e| > 0 by {
      var y :| y in s;
      assert y in e;
    }
    e[0]
  }
}
