/** A stable sort described by value, standing in for `sorted(...)`, `list.sort` and `ORDER BY`. */
module Sorting {
  import opened Sets

  ghost predicate TotalPreorder<T(!new)>(leq: (T, T) -> bool) {
    && (forall x, y :: leq(x, y) || leq(y, x))
    && (forall x, y, z :: leq(x, y) && leq(y, z) ==> leq(x, z))
  }

  ghost predicate Antisymmetric<T(!new)>(leq: (T, T) -> bool) {
    forall x, y :: leq(x, y) && leq(y, x) ==> x == y
  }

  ghost predicate Ordered<T>(leq: (T, T) -> bool, s: seq<T>) {
    forall i, j | 0 <= i < j < |s| :: leq(s[i], s[j])
  }

  /** Puts x in front of the first element that is not strictly smaller. */
  function Insert<T>(leq: (T, T) -> bool, x: T, s: seq<T>): (r: seq<T>)
    ensures multiset(r) == multiset([x]) + multiset(s)
    ensures |r| == |s| + 1
  {
    if s == [] || leq(x, s[0]) then [x] + s
    else
      assert s == [s[0]] + s[1..];
      [s[0]] + Insert(leq, x, s[1..])
  }

  function SortBy<T>(leq: (T, T) -> bool, s: seq<T>): (r: seq<T>)
    ensures multiset(r) == multiset(s)
    ensures |r| == |s|
  {
    if s == [] then []
    else
      assert s == [s[0]] + s[1..];
      Insert(leq, s[0], SortBy(leq, s[1..]))
  }

  lemma {:induction false} InsertOrdered<T(!new)>(leq: (T, T) -> bool, x: T, s: seq<T>)
    requires TotalPreorder(leq) && Ordered(leq, s)
    ensures Ordered(leq, Insert(leq, x, s))
  {
    if s != [] && !leq(x, s[0]) {
      InsertOrdered(leq, x, s[1..]);
      var rest := Insert(leq, x, s[1..]);
      forall y | y in rest ensures leq(s[0], y) {
        assert y in multiset(rest);
        assert y == x || y in s[1..];
      }
    }
  }

  lemma {:induction false} SortByOrdered<T(!new)>(leq: (T, T) -> bool, s: seq<T>)
    requires TotalPreorder(leq)
    ensures Ordered(leq, SortBy(leq, s))
  {
    if s != [] {
      SortByOrdered(leq, s[1..]);
      InsertOrdered(leq, s[0], SortBy(leq, s[1..]));
    }
  }

  /** Sorting leaves a list as it is exactly when it is in order already. */
  lemma {:induction false} SortedIff<T(!new)>(leq: (T, T) -> bool, s: seq<T>)
    requires TotalPreorder(leq)
    ensures SortBy(leq, s) == s <==> Ordered(leq, s)
  {
    SortByOrdered(leq, s);
    if Ordered(leq, s) { SortedStays(leq, s); }
  }

  lemma {:induction false} SortedStays<T>(leq: (T, T) -> bool, s: seq<T>)
    requires Ordered(leq, s)
    ensures SortBy(leq, s) == s
  {
    if s != [] { SortedStays(leq, s[1..]); }
  }

  lemma SameMembers<T>(a: seq<T>, b: seq<T>)
    requires multiset(a) == multiset(b)
    ensures |a| == |b|
    ensures forall x :: x in a <==> x in b
  {
    assert |multiset(a)| == |a| && |multiset(b)| == |b|;
    forall x ensures x in a <==> x in b {
      assert x in a <==> x in multiset(a);
      assert x in b <==> x in multiset(b);
    }
  }

  lemma TwiceCountsTwo<T>(s: seq<T>, i: nat, j: nat)
    requires i < j < |s| && s[i] == s[j]
    ensures multiset(s)[s[i]] >= 2
  {
    assert s == s[..j] + s[j..];
    var x := s[i];
    assert x == s[..j][i] && x == s[j..][0];
    assert x in multiset(s[..j]) && x in multiset(s[j..]);
  }

  lemma {:induction false} OnceCountsOne<T>(s: seq<T>, x: T)
    requires NoDuplicates(s)
    ensures multiset(s)[x] <= 1
  {
    if s != [] {
      OnceCountsOne(s[1..], x);
      assert s == [s[0]] + s[1..];
      assert s[0] !in s[1..];
      assert s[0] == x ==> x !in multiset(s[1..]);
    }
  }

  lemma PermutedNoDuplicates<T>(a: seq<T>, b: seq<T>)
    requires NoDuplicates(a) && multiset(a) == multiset(b)
    ensures NoDuplicates(b)
  {
    forall i, j | 0 <= i < j < |b| ensures b[i] != b[j] {
      if b[i] == b[j] {
        TwiceCountsTwo(b, i, j);
        OnceCountsOne(a, b[i]);
      }
    }
  }

  lemma TailMembers<T>(s: seq<T>)
    requires s != []
    ensures multiset(s[1..]) == multiset(s) - multiset{s[0]}
  {
    assert s == [s[0]] + s[1..];
  }

  lemma SameHead<T(!new)>(leq: (T, T) -> bool, a: seq<T>, b: seq<T>)
    requires TotalPreorder(leq) && Antisymmetric(leq)
    requires Ordered(leq, a) && Ordered(leq, b) && multiset(a) == multiset(b) && a != [] && b != []
    ensures a[0] == b[0]
  {
    SameMembers(a, b);
    var x, y := a[0], b[0];
    assert x in a && y in b;
    assert x in b && y in a;
    assert leq(x, y) && leq(y, x);
  }

  /** A list ordered by an antisymmetric order is determined by its members. */
  lemma {:induction false} OrderedUnique<T(!new)>(leq: (T, T) -> bool, a: seq<T>, b: seq<T>)
    requires TotalPreorder(leq) && Antisymmetric(leq)
    requires Ordered(leq, a) && Ordered(leq, b) && multiset(a) == multiset(b)
    ensures a == b
  {
    SameMembers(a, b);
    if a != [] {
      SameHead(leq, a, b);
      TailMembers(a);
      TailMembers(b);
      OrderedUnique(leq, a[1..], b[1..]);
      assert a == [a[0]] + a[1..] && b == [b[0]] + b[1..];
    }
  }

  /** Sorting by an antisymmetric order forgets the order the rows came in. */
  lemma {:induction false} SortByPermutation<T(!new)>(leq: (T, T) -> bool, a: seq<T>, b: seq<T>)
    requires TotalPreorder(leq) && Antisymmetric(leq)
    requires multiset(a) == multiset(b)
    ensures SortBy(leq, a) == SortBy(leq, b)
  {
    SortByOrdered(leq, a);
    SortByOrdered(leq, b);
    OrderedUnique(leq, SortBy(leq, a), SortBy(leq, b));
  }

  predicate IntLeq(a: int, b: int) { a <= b }

  /** Any listing of a set of numbers, sorted, ascends strictly. */
  lemma {:induction false} AscendingListing(ids: seq<int>, s: set<int>)
    requires IsListing(ids, s)
    ensures var up := SortBy(IntLeq, ids);
            IsListing(up, s) && forall i, j | 0 <= i < j < |up| :: up[i] < up[j]
  {
    var up := SortBy(IntLeq, ids);
    SortByOrdered(IntLeq, ids);
    PermutedNoDuplicates(ids, up);
    SameMembers(ids, up);
    forall i, j | 0 <= i < j < |up| ensures up[i] < up[j] { assert IntLeq(up[i], up[j]); }
  }

  /** The members of a set of numbers, ascending. */
  ghost function Ascending(s: set<int>): (up: seq<int>)
    ensures IsListing(up, s) && StrictlyUp(up)
  {
    ListingExists(s);
    var ids :| IsListing(ids, s);
    AscendingListing(ids, s);
    SortBy(IntLeq, ids)
  }

  ghost predicate StrictlyUp(s: seq<int>) { forall i, j | 0 <= i < j < |s| :: s[i] < s[j] }
}
