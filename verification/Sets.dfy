/** Facts about finite sets that the solver does not volunteer. */
module Sets {

  lemma SomeMember<T>(s: set<T>) returns (x: T)
    requires s != {}
    ensures x in s
  {
    assert (forall y :: y !in s) ==> s == {};
    x :| x in s;
  }

  lemma {:induction false} GreatestIn(s: set<int>) returns (m: int)
    requires s != {}
    ensures m in s && forall x | x in s :: x <= m
  {
    var x := SomeMember(s);
    if s == {x} {
      m := x;
    } else {
      var rest := s - {x};
      assert rest == {} ==> s == {x};
      m := GreatestIn(rest);
      assert forall y | y in s :: y == x || y in rest;
      m := if x <= m then m else x;
    }
  }

  lemma {:induction false} LeastIn(s: set<int>) returns (m: int)
    requires s != {}
    ensures m in s && forall x | x in s :: m <= x
  {
    var x := SomeMember(s);
    if s == {x} {
      m := x;
    } else {
      var rest := s - {x};
      assert rest == {} ==> s == {x};
      m := LeastIn(rest);
      assert forall y | y in s :: y == x || y in rest;
      m := if x <= m then x else m;
    }
  }

  lemma SubsetCardinality<T>(a: set<T>, b: set<T>)
    requires a <= b
    ensures |a| <= |b|
    ensures |a| == |b| ==> a == b
  {
    assert b == a + (b - a);
    assert |b| == |a| + |b - a|;
    if |b - a| == 0 && b - a != {} {
      var x := SomeMember(b - a);
    }
  }

  ghost predicate NoDuplicates<T>(s: seq<T>) {
    forall i, j | 0 <= i < j < |s| :: s[i] != s[j]
  }

  /** keys lists the elements of s, each once. */
  ghost predicate IsListing<T(!new)>(keys: seq<T>, s: set<T>) {
    NoDuplicates(keys) && forall x :: x in keys <==> x in s
  }

  lemma {:induction false} SomeListing<T(!new)>(s: set<T>) returns (keys: seq<T>)
    ensures IsListing(keys, s)
    decreases |s|
  {
    if s == {} {
      keys := [];
    } else {
      var x := SomeMember(s);
      var rest := SomeListing(s - {x});
      keys := rest + [x];
    }
  }

  lemma ListingExists<T(!new)>(s: set<T>)
    ensures exists keys :: IsListing(keys, s)
  {
    var keys := SomeListing(s);
  }

  lemma {:induction false} DistinctListSize<T>(s: seq<T>)
    requires NoDuplicates(s)
    ensures |set x | x in s| == |s|
  {
    if s != [] {
      DistinctListSize(s[1..]);
      assert s == [s[0]] + s[1..];
      assert (set x | x in s) == {s[0]} + (set x | x in s[1..]);
      assert s[0] !in s[1..];
    }
  }

  /** The integers lo, ..., hi - 1. */
  function Interval(lo: int, hi: int): (r: set<int>)
    requires lo <= hi
    ensures forall x :: x in r <==> lo <= x < hi
    ensures |r| == hi - lo
    decreases hi - lo
  {
    if lo == hi then {} else {lo} + Interval(lo + 1, hi)
  }

  function Image<T(!new), U>(s: set<T>, m: map<T, U>): set<U> { set x | x in s && x in m :: m[x] }

  /** An injective numbering of n things by numbers from 1..n uses every one of them. */
  lemma {:induction false} Pigeonhole<T(!new)>(s: set<T>, number: map<T, int>)
    requires number.Keys == s
    requires forall x | x in s :: 1 <= number[x] <= |s|
    requires forall x, y | x in s && y in s && x != y :: number[x] != number[y]
    ensures Image(s, number) == Interval(1, |s| + 1)
  {
    ImageSize(s, number);
    SubsetCardinality(Image(s, number), Interval(1, |s| + 1));
  }

  lemma {:induction false} ImageSize<T(!new), U>(s: set<T>, number: map<T, U>)
    requires s <= number.Keys
    requires forall x, y | x in s && y in s && x != y :: number[x] != number[y]
    ensures |Image(s, number)| == |s|
    decreases |s|
  {
    if s != {} {
      var x := SomeMember(s);
      var rest := s - {x};
      ImageSize(rest, number);
      var whole, part := Image(s, number), Image(rest, number);
      assert whole == part + {number[x]};
      assert number[x] !in part;
    } else {
      assert Image(s, number) == {};
    }
  }
}
