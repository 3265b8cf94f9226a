/**
 Sorted enumerations of finite sets. A BTreeMap is modelled by its contents; iterating
 it is `Sorted` of its key set, which is the one strictly ascending list of those keys.
 */
module Ordering {

  ghost predicate StrictOrder<T(!new)>(lt: (T, T) -> bool) {
    && (forall x :: !lt(x, x))
    && (forall x, y :: x == y || lt(x, y) || lt(y, x))
    && (forall x, y, z :: lt(x, y) && lt(y, z) ==> lt(x, z))
  }

  predicate Ascending<T>(s: seq<T>, lt: (T, T) -> bool) {
    forall i, j :: 0 <= i < j < |s| ==> lt(s[i], s[j])
  }

  function Elems<T>(s: seq<T>): set<T> {
    set x | x in s
  }

  lemma {:induction false} ElemsPrefix<T>(s: seq<T>, i: nat)
    requires i < |s|
    ensures Elems(s[..i + 1]) == Elems(s[..i]) + {s[i]}
  {
  }

  predicate IsLeast<T(==)>(x: T, s: set<T>, lt: (T, T) -> bool) {
    x in s && forall y :: y in s ==> y == x || lt(x, y)
  }

  lemma {:induction false} LeastExists<T(!new)>(s: set<T>, lt: (T, T) -> bool)
    requires StrictOrder(lt)
    requires s != {}
    ensures exists x :: IsLeast(x, s, lt)
    decreases |s|
  {
    var a :| a in s;
    var rest := s - {a};
    assert forall y :: y in s ==> y == a || y in rest;
    if rest == {} {
      assert IsLeast(a, s, lt);
    } else {
      LeastExists(rest, lt);
      var b :| IsLeast(b, rest, lt);
      var m := if lt(a, b) then a else b;
      assert IsLeast(m, s, lt);
    }
  }

  lemma {:induction false} ConsSorted<T(!new)>(x: T, s: set<T>, tail: seq<T>, lt: (T, T) -> bool)
    requires IsLeast(x, s, lt)
    requires Ascending(tail, lt) && Elems(tail) == s - {x}
    requires |tail| == |s| - 1
    ensures Ascending([x] + tail, lt)
    ensures Elems([x] + tail) == s
  {
    assert Elems([x] + tail) == {x} + Elems(tail);
    forall j | 0 <= j < |tail| ensures lt(x, tail[j]) {
      assert tail[j] in Elems(tail);
    }
  }

  /** The strictly ascending enumeration of a finite set. */
  function Sorted<T(==, !new)>(s: set<T>, lt: (T, T) -> bool): (r: seq<T>)
    requires StrictOrder(lt)
    ensures Ascending(r, lt)
    ensures Elems(r) == s
    ensures |r| == |s|
    decreases |s|
  {
    if s == {} then []
    else
      LeastExists(s, lt);
      var x :| IsLeast(x, s, lt);
      var tail := Sorted(s - {x}, lt);
      ConsSorted(x, s, tail, lt);
      [x] + tail
  }

  /** Two ascending lists of the same elements are the same list. */
  lemma {:induction false} AscendingUnique<T(!new)>(a: seq<T>, b: seq<T>, lt: (T, T) -> bool)
    requires StrictOrder(lt)
    requires Ascending(a, lt) && Ascending(b, lt)
    requires forall x :: x in a <==> x in b
    ensures a == b
  {
    if |a| + |b| > 0 {
      var w := (a + b)[0];
      assert w in a && w in b;
      assert a[0] in b && b[0] in a;
      assert a[0] == b[0];
      forall x ensures x in a[1..] <==> x in b[1..] {
        if x in a[1..] { assert x in b && x != a[0]; }
        if x in b[1..] { assert x in a && x != b[0]; }
      }
      AscendingUnique(a[1..], b[1..], lt);
    }
  }

  lemma {:induction false} AscendingDistinct<T(!new)>(s: seq<T>, lt: (T, T) -> bool)
    requires Ascending(s, lt)
    requires forall x :: x in s ==> !lt(x, x)
    ensures forall i, j :: 0 <= i < j < |s| ==> s[i] != s[j]
  {
  }

  /** A list without repetitions has the multiset of its set of elements. */
  lemma {:induction false} DistinctMultiset<T>(s: seq<T>)
    requires forall i, j :: 0 <= i < j < |s| ==> s[i] != s[j]
    ensures multiset(s) == multiset(Elems(s))
    ensures |Elems(s)| == |s|
  {
    if s == [] {
      assert Elems(s) == {};
    } else {
      var rest := s[1..];
      DistinctMultiset(rest);
      assert s == [s[0]] + rest;
      assert Elems(s) == {s[0]} + Elems(rest);
      assert s[0] !in Elems(rest);
    }
  }

  /** Concatenating two ascending lists with everything in the first below everything in the second. */
  lemma {:induction false} AscendingConcat<T(!new)>(a: seq<T>, b: seq<T>, lt: (T, T) -> bool)
    requires Ascending(a, lt) && Ascending(b, lt)
    requires forall x, y :: x in a && y in b ==> lt(x, y)
    ensures Ascending(a + b, lt)
  {
  }
}
