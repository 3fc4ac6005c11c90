/** Sums and images of lists, and what does not depend on the order of a list. */
module Lists {
  import opened Sets
  import opened Sorting

  function Sum<T>(s: seq<T>, f: T -> real): real {
    if s == [] then 0.0 else Sum(s[..|s| - 1], f) + f(s[|s| - 1])
  }

  function Map<T, U>(s: seq<T>, f: T -> U): (r: seq<U>)
    ensures |r| == |s| && forall i | 0 <= i < |s| :: r[i] == f(s[i])
  {
    if s == [] then [] else Map(s[..|s| - 1], f) + [f(s[|s| - 1])]
  }

  function Filter<T>(s: seq<T>, p: T -> bool): (r: seq<T>)
    ensures |r| <= |s|
  {
    if s == [] then []
    else
      var last := s[|s| - 1];
      Filter(s[..|s| - 1], p) + (if p(last) then [last] else [])
  }

  lemma Snoc<T>(s: seq<T>, x: T)
    ensures (s + [x])[..|s + [x]| - 1] == s && (s + [x])[|s + [x]| - 1] == x
  {
  }

  lemma {:induction false} SumSnoc<T>(s: seq<T>, x: T, f: T -> real)
    ensures Sum(s + [x], f) == Sum(s, f) + f(x)
  {
    Snoc(s, x);
  }

  lemma {:induction false} FilterSnoc<T>(s: seq<T>, x: T, p: T -> bool)
    ensures Filter(s + [x], p) == Filter(s, p) + (if p(x) then [x] else [])
  {
    Snoc(s, x);
  }

  lemma {:induction false} MapSnoc<T, U>(s: seq<T>, x: T, f: T -> U)
    ensures Map(s + [x], f) == Map(s, f) + [f(x)]
  {
    Snoc(s, x);
  }

  lemma {:induction false} FilterMembers<T>(s: seq<T>, p: T -> bool)
    ensures forall x :: x in Filter(s, p) <==> x in s && p(x)
  {
    if s != [] {
      FilterMembers(s[..|s| - 1], p);
      assert s == s[..|s| - 1] + [s[|s| - 1]];
    }
  }

  lemma {:induction false} FilterAll<T>(s: seq<T>, p: T -> bool)
    requires forall x | x in s :: p(x)
    ensures Filter(s, p) == s
  {
    if s != [] {
      var front, x := s[..|s| - 1], s[|s| - 1];
      assert s == front + [x];
      assert x in s;
      FilterAll(front, p);
    }
  }

  lemma {:induction false} FilterNone<T>(s: seq<T>, p: T -> bool)
    requires forall x | x in s :: !p(x)
    ensures Filter(s, p) == []
  {
    if s != [] {
      var front, x := s[..|s| - 1], s[|s| - 1];
      assert s == front + [x];
      assert x in s;
      FilterNone(front, p);
    }
  }

  /** What is left to do, item by item. */
  function Work<T>(s: seq<T>, rank: T -> nat): nat {
    if s == [] then 0 else Work(s[..|s| - 1], rank) + rank(s[|s| - 1])
  }

  lemma {:induction false} WorkSnoc<T>(s: seq<T>, x: T, rank: T -> nat)
    ensures Work(s + [x], rank) == Work(s, rank) + rank(x)
  {
    Snoc(s, x);
  }

  lemma {:induction false} WorkUpdate<T>(s: seq<T>, i: nat, x: T, rank: T -> nat)
    requires i < |s|
    ensures Work(s[i := x], rank) + rank(s[i]) == Work(s, rank) + rank(x)
  {
    var n := |s| - 1;
    var front := s[..n];
    WorkSnoc(front, s[n], rank);
    assert s == front + [s[n]];
    if i < n {
      WorkUpdate(front, i, x, rank);
      WorkSnoc(front[i := x], s[n], rank);
      assert s[i := x] == front[i := x] + [s[n]];
    } else {
      WorkSnoc(front, x, rank);
      assert s[i := x] == front + [x];
    }
  }

  lemma {:induction false} SumConcat<T>(a: seq<T>, b: seq<T>, f: T -> real)
    ensures Sum(a + b, f) == Sum(a, f) + Sum(b, f)
  {
    if b == [] {
      assert a + b == a;
    } else {
      var front, x := b[..|b| - 1], b[|b| - 1];
      SumConcat(a, front, f);
      assert a + b == (a + front) + [x];
      SumSnoc(a + front, x, f);
    }
  }

  /** Where the last element of a list sits in another list with the same members. */
  lemma Extract<T>(a: seq<T>, b: seq<T>) returns (left: seq<T>, right: seq<T>)
    requires a != [] && multiset(a) == multiset(b)
    ensures b == left + [a[|a| - 1]] + right
    ensures multiset(a[..|a| - 1]) == multiset(left + right)
  {
    var x := a[|a| - 1];
    SameMembers(a, b);
    assert x in a;
    assert x in b;
    var k :| 0 <= k < |b| && b[k] == x;
    left, right := b[..k], b[k+1..];
    assert b == left + [x] + right;
    assert a == a[..|a| - 1] + [x];
    assert multiset(a[..|a| - 1]) == multiset(a) - multiset{x};
    assert multiset(b) == multiset(left) + multiset{x} + multiset(right);
  }

  lemma {:induction false} SumPermutation<T>(a: seq<T>, b: seq<T>, f: T -> real)
    requires multiset(a) == multiset(b)
    ensures Sum(a, f) == Sum(b, f)
    decreases |a|
  {
    SameMembers(a, b);
    if a != [] {
      var left, right := Extract(a, b);
      SumPermutation(a[..|a| - 1], left + right, f);
      SumConcat(left, right, f);
      SumConcat(left + [a[|a| - 1]], right, f);
      SumSnoc(left, a[|a| - 1], f);
    }
  }

  lemma {:induction false} MapConcat<T, U>(a: seq<T>, b: seq<T>, f: T -> U)
    ensures Map(a + b, f) == Map(a, f) + Map(b, f)
  {
  }

  lemma {:induction false} MapMap<T, U, V>(s: seq<T>, f: T -> U, g: U -> V, both: T -> V)
    requires forall x | x in s :: both(x) == g(f(x))
    ensures Map(Map(s, f), g) == Map(s, both)
  {
    forall i | 0 <= i < |s| ensures Map(Map(s, f), g)[i] == Map(s, both)[i] { assert s[i] in s; }
  }

  lemma {:induction false} MapSame<T, U>(s: seq<T>, f: T -> U, g: T -> U)
    requires forall x | x in s :: f(x) == g(x)
    ensures Map(s, f) == Map(s, g)
  {
    forall i | 0 <= i < |s| ensures Map(s, f)[i] == Map(s, g)[i] { assert s[i] in s; }
  }

  lemma {:induction false} FilterTwice<T>(s: seq<T>, p: T -> bool, q: T -> bool, both: T -> bool)
    requires forall x | x in s :: both(x) <==> p(x) && q(x)
    ensures Filter(Filter(s, p), q) == Filter(s, both)
  {
    if s != [] {
      var front, x := s[..|s| - 1], s[|s| - 1];
      assert s == front + [x];
      assert x in s;
      FilterTwice(front, p, q, both);
      FilterSnoc(front, x, p);
      FilterSnoc(front, x, both);
      if p(x) {
        FilterSnoc(Filter(front, p), x, q);
      } else {
        assert Filter(s, p) == Filter(front, p);
      }
    }
  }

  lemma {:induction false} MapPermutation<T, U>(a: seq<T>, b: seq<T>, f: T -> U)
    requires multiset(a) == multiset(b)
    ensures multiset(Map(a, f)) == multiset(Map(b, f))
    decreases |a|
  {
    SameMembers(a, b);
    if a != [] {
      var x := a[|a| - 1];
      var left, right := Extract(a, b);
      MapPermutation(a[..|a| - 1], left + right, f);
      MapConcat(left, right, f);
      MapConcat(left + [x], right, f);
      MapSnoc(left, x, f);
    }
  }

  lemma {:induction false} FilterConcat<T>(a: seq<T>, b: seq<T>, p: T -> bool)
    ensures Filter(a + b, p) == Filter(a, p) + Filter(b, p)
  {
    if b == [] {
      assert a + b == a;
    } else {
      var front, x := b[..|b| - 1], b[|b| - 1];
      FilterConcat(a, front, p);
      assert a + b == (a + front) + [x];
      FilterSnoc(a + front, x, p);
    }
  }

  lemma {:induction false} FilterPermutation<T>(a: seq<T>, b: seq<T>, p: T -> bool)
    requires multiset(a) == multiset(b)
    ensures multiset(Filter(a, p)) == multiset(Filter(b, p))
    decreases |a|
  {
    SameMembers(a, b);
    if a != [] {
      var x := a[|a| - 1];
      var left, right := Extract(a, b);
      FilterPermutation(a[..|a| - 1], left + right, p);
      FilterConcat(left, right, p);
      FilterConcat(left + [x], right, p);
      FilterSnoc(left, x, p);
    }
  }

  /** Lists of the same elements without repetition have the same members as multisets. */
  lemma {:induction false} SameListing<T>(a: seq<T>, b: seq<T>)
    requires NoDuplicates(a) && NoDuplicates(b) && forall x :: x in a <==> x in b
    ensures multiset(a) == multiset(b)
  {
    forall x ensures multiset(a)[x] == multiset(b)[x] {
      OnceCountsOne(a, x);
      OnceCountsOne(b, x);
      assert x in a <==> x in multiset(a);
      assert x in b <==> x in multiset(b);
    }
  }
}
