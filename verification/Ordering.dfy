/** Iterating over a set in increasing order, as a `BTreeMap` does over its keys, and sorting. */
module Ordering {

  /** A strict total order on the members of `s`. */
  ghost predicate IsOrder<T(!new)>(before: (T, T) -> bool, s: set<T>) {
    && (forall x :: x in s ==> !before(x, x))
    && (forall x, y :: x in s && y in s && x != y ==> before(x, y) || before(y, x))
    && (forall x, y, z :: x in s && y in s && z in s && before(x, y) && before(y, z) ==> before(x, z))
  }

  ghost predicate Increasing<T(!new)>(xs: seq<T>, before: (T, T) -> bool) {
    forall i, j :: 0 <= i < j < |xs| ==> before(xs[i], xs[j])
  }

  /** `xs` lists the members of `s`, each once, in increasing order. */
  ghost predicate Lists<T(!new)>(xs: seq<T>, s: set<T>, before: (T, T) -> bool) {
    && (forall x :: x in s ==> x in xs) && (forall x :: x in xs ==> x in s)
    && Increasing(xs, before)
  }

  predicate Least<T(==, !new)>(x: T, s: set<T>, before: (T, T) -> bool) {
    x in s && forall y :: y in s && y != x ==> before(x, y)
  }

  lemma LeastExists<T(!new)>(s: set<T>, before: (T, T) -> bool) returns (x: T)
    requires s != {} && IsOrder(before, s)
    ensures Least(x, s, before)
    decreases |s|
  {
    var y :| y in s;
    var rest := s - {y};
    if rest == {} {
      assert s == {y};
      x := y;
    } else {
      var z := LeastExists(rest, before);
      x := if before(y, z) then y else z;
    }
  }

  /** The listing of `s`. */
  function InOrder<T(==, !new)>(s: set<T>, before: (T, T) -> bool): (xs: seq<T>)
    requires IsOrder(before, s)
    ensures Lists(xs, s, before)
    ensures |xs| == |s|
    decreases |s|
  {
    if s == {} then []
    else
      assert exists x :: Least(x, s, before) by { var x := LeastExists(s, before); }
      var x :| x in s && Least(x, s, before);
      var rest := InOrder(s - {x}, before);
      assert s == (s - {x}) + {x};
      [x] + rest
  }

  /** There is only one listing. */
  lemma {:induction false} ListingIsUnique<T(!new)>(xs: seq<T>, ys: seq<T>, s: set<T>, before: (T, T) -> bool)
    requires IsOrder(before, s) && Lists(xs, s, before) && Lists(ys, s, before)
    ensures xs == ys
    decreases |xs|
  {
    if ys != [] { assert ys[0] in xs; }
    if xs != [] {
      assert xs[0] in s && ys != [] && ys[0] in s;
      assert xs[0] == ys[0] by { SameHead(xs, ys, s, before); }
      TailLists(xs, s, before);
      TailLists(ys, s, before);
      ListingIsUnique(xs[1..], ys[1..], s - {xs[0]}, before);
      assert xs == [xs[0]] + xs[1..] && ys == [ys[0]] + ys[1..];
    }
  }

  lemma SameHead<T(!new)>(xs: seq<T>, ys: seq<T>, s: set<T>, before: (T, T) -> bool)
    requires IsOrder(before, s) && Lists(xs, s, before) && Lists(ys, s, before) && xs != [] && ys != []
    ensures xs[0] == ys[0]
  {
    assert Least(xs[0], s, before) && Least(ys[0], s, before);
  }

  lemma TailLists<T(!new)>(xs: seq<T>, s: set<T>, before: (T, T) -> bool)
    requires IsOrder(before, s) && Lists(xs, s, before) && xs != []
    ensures Lists(xs[1..], s - {xs[0]}, before)
  {
    forall x ensures x in s - {xs[0]} <==> x in xs[1..] {
      if x in s && x != xs[0] {
        var i :| 0 <= i < |xs| && xs[i] == x;
        assert xs[1..][i - 1] == x;
      }
      if x in xs[1..] {
        var i :| 0 <= i < |xs[1..]| && xs[1..][i] == x;
        assert x == xs[i + 1] && before(xs[0], xs[i + 1]);
        assert x in s && x != xs[0];
      }
    }
  }

  // ---------------------------------------------------------------- strings

  /** `str` order: the first difference decides, and a prefix comes first. */
  predicate StrBefore(a: string, b: string) {
    b != [] && (a == [] || a[0] < b[0] || (a[0] == b[0] && StrBefore(a[1..], b[1..])))
  }

  lemma {:induction false} StrIrreflexive(a: string)
    ensures !StrBefore(a, a)
  {
    if a != [] { StrIrreflexive(a[1..]); }
  }

  lemma {:induction false} StrTotal(a: string, b: string)
    requires a != b
    ensures StrBefore(a, b) || StrBefore(b, a)
  {
    if a != [] && b != [] && a[0] == b[0] {
      assert a == [a[0]] + a[1..] && b == [b[0]] + b[1..];
      StrTotal(a[1..], b[1..]);
    }
  }

  lemma {:induction false} StrTransitive(a: string, b: string, c: string)
    requires StrBefore(a, b) && StrBefore(b, c)
    ensures StrBefore(a, c)
  {
    if a != [] && a[0] == b[0] == c[0] { StrTransitive(a[1..], b[1..], c[1..]); }
  }

  lemma StringsAreOrdered(s: set<string>)
    ensures IsOrder(StrBefore, s)
  {
    forall x | x in s ensures !StrBefore(x, x) { StrIrreflexive(x); }
    forall x, y | x in s && y in s && x != y ensures StrBefore(x, y) || StrBefore(y, x) { StrTotal(x, y); }
    forall x, y, z | x in s && y in s && z in s && StrBefore(x, y) && StrBefore(y, z) ensures StrBefore(x, z) {
      StrTransitive(x, y, z);
    }
  }
}
