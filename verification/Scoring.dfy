/**
 The numbers a scoreboard is derived from: result rows, awards, and what a team's total and its
 per-checkpoint list are once recomputed from them. Exact arithmetic; rounding as Python does it.
 */
module Scoring {
  import opened Lists
  import opened Sets
  import opened Sorting
  import opened Wrappers

  datatype Penalty = Penalty(kind: string, points: int)

  /** What was submitted: the completion time, if there is one, and the rest of the form. */
  datatype Data = Data(time: Option<real>, form: int)

  /** What a result is scored on. */
  datatype Entry = Entry(activity: int, team: int, data: Data, shots: int, penalties: seq<Penalty>)

  datatype Row = Row(id: int, entry: Entry, timeScore: Option<real>, final: Option<real>, completed: bool)

  datatype Award = Award(id: int, team: int, points: real, active: bool)

  datatype Team = Team(total: int, scores: seq<int>, visits: nat)

  datatype Activity = Activity(timed: bool, maxPoints: real, minPoints: real, checkpoint: Option<int>)

  /**
   What scoring reads and never writes. `score` is compute_final_score: an entry, and the
   completed times of its activity it is ranked on. `valid` is an activity type's check of a form,
   `shotLimit` how many extra shots a team may take. `edition` is the teams of the current event or
   of none: only these are recomputed and placed by a reclassification.
   */
  datatype World = World(activities: map<int, Activity>, orders: map<int, int>, edition: set<int>,
                         score: (Entry, seq<real>) -> real, valid: Entry -> bool, shotLimit: int -> int)

  datatype Board = Board(rows: seq<Row>, awards: seq<Award>, teams: map<int, Team>)

  // ---- Rounding ---------------------------------------------------------------------------

  /** round(): to the nearest integer, halves to the even one. */
  function Round(x: real): int {
    var low := x.Floor;
    var rest := x - low as real;
    if rest < 0.5 then low
    else if rest > 0.5 then low + 1
    else if low % 2 == 0 then low else low + 1
  }

  /** int(): towards zero. */
  function Trunc(x: real): int {
    if x >= 0.0 then x.Floor else -((-x).Floor)
  }

  /** To a nearest integer, and to the even one of two that are equally near. */
  lemma RoundIsNearest(x: real)
    ensures -0.5 <= x - Round(x) as real <= 0.5
    ensures x - Round(x) as real == 0.5 || Round(x) as real - x == 0.5 ==> Round(x) % 2 == 0
  {
    assert 0.0 <= x - x.Floor as real < 1.0;
  }

  /** Never further from zero, and by less than one. */
  lemma TruncIsTowardsZero(x: real)
    ensures x >= 0.0 ==> 0.0 <= Trunc(x) as real <= x < Trunc(x) as real + 1.0
    ensures x < 0.0 ==> Trunc(x) as real - 1.0 < x <= Trunc(x) as real <= 0.0
  {
    assert 0.0 <= x - x.Floor as real < 1.0 && 0.0 <= -x - (-x).Floor as real < 1.0;
  }

  // ---- What counts ------------------------------------------------------------------------

  function CheckpointOf(w: World, r: Row): Option<int> {
    if r.entry.activity in w.activities then w.activities[r.entry.activity].checkpoint else None
  }

  predicate Counts(w: World, r: Row) {
    r.completed && r.final.Some? && CheckpointOf(w, r).Some?
  }

  function TeamWorth(w: World, team: int): Row -> real {
    (r: Row) => if r.entry.team == team && Counts(w, r) then r.final.value else 0.0
  }

  function PostWorth(w: World, team: int, post: int): Row -> real {
    (r: Row) => if r.entry.team == team && Counts(w, r) && CheckpointOf(w, r) == Some(post) then r.final.value else 0.0
  }

  function AwardWorth(team: int): Award -> real {
    (a: Award) => if a.team == team && a.active then a.points else 0.0
  }

  function PostsOf(w: World, rows: seq<Row>, team: int): set<int> {
    set r | r in rows && r.entry.team == team && Counts(w, r) :: CheckpointOf(w, r).value
  }

  function OrderOf(w: World, post: int): int {
    if post in w.orders then w.orders[post] else 0
  }

  /** Summed results per checkpoint, keyed by the checkpoint's id. */
  function ScoreMap(w: World, rows: seq<Row>, team: int): map<int, real> {
    map c | c in PostsOf(w, rows, team) :: Sum(rows, PostWorth(w, team, c))
  }

  function OrderMap(w: World, rows: seq<Row>, team: int): map<int, int> {
    map c | c in PostsOf(w, rows, team) :: OrderOf(w, c)
  }

  // ---- The per-checkpoint list ---------------------------------------------------------------

  /** Tuple order of (order, score). */
  predicate PairLeq(a: (int, real), b: (int, real)) {
    a.0 < b.0 || (a.0 == b.0 && a.1 <= b.1)
  }

  function PairOf(scores: map<int, real>, orders: map<int, int>): int -> (int, real) {
    (c: int) => (if c in orders then orders[c] else 0, if c in scores then scores[c] else 0.0)
  }

  function Zeros(n: int): (r: seq<int>)
    ensures |r| == if n < 0 then 0 else n
    ensures forall i | 0 <= i < |r| :: r[i] == 0
    decreases n
  {
    if n <= 0 then [] else Zeros(n - 1) + [0]
  }

  function Take<T>(s: seq<T>, n: nat): seq<T> { if n < |s| then s[..n] else s }

  function SlotScore(p: (int, real)): int { Trunc(p.1) }

  /** Sorted pairs laid out one slot per visit, cut or padded with zeros. */
  function Lay(sorted: seq<(int, real)>, visits: nat): (r: seq<int>)
    ensures |r| == visits
    ensures forall i | 0 <= i < visits :: r[i] == if i < |sorted| then Trunc(sorted[i].1) else 0
  {
    var scores := Map(sorted, SlotScore);
    Take(Take(scores, visits) + Zeros(visits - |scores|), visits)
  }

  function LayListed(keys: seq<int>, scores: map<int, real>, orders: map<int, int>, visits: nat): seq<int> {
    Lay(SortBy(PairLeq, Map(keys, PairOf(scores, orders))), visits)
  }

  ghost function Layout(scores: map<int, real>, orders: map<int, int>, visits: nat): seq<int> {
    ListingExists(scores.Keys);
    var keys :| IsListing(keys, scores.Keys);
    LayListed(keys, scores, orders, visits)
  }

  lemma PairOrder()
    ensures TotalPreorder(PairLeq) && Antisymmetric(PairLeq)
  {
  }

  lemma ListingsAgree(scores: map<int, real>, orders: map<int, int>, visits: nat, keys: seq<int>, other: seq<int>)
    requires IsListing(keys, scores.Keys) && IsListing(other, scores.Keys)
    ensures LayListed(keys, scores, orders, visits) == LayListed(other, scores, orders, visits)
  {
    forall x ensures x in keys <==> x in other { assert x in keys <==> x in scores.Keys; }
    SameListing(keys, other);
    MapPermutation(keys, other, PairOf(scores, orders));
    PairOrder();
    SortByPermutation(PairLeq, Map(keys, PairOf(scores, orders)), Map(other, PairOf(scores, orders)));
  }

  /** The dict may be walked in any order. */
  lemma LayoutAnyListing(scores: map<int, real>, orders: map<int, int>, visits: nat, keys: seq<int>)
    requires IsListing(keys, scores.Keys)
    ensures LayListed(keys, scores, orders, visits) == Layout(scores, orders, visits)
  {
    ListingExists(scores.Keys);
    var other :| IsListing(other, scores.Keys) && Layout(scores, orders, visits) == LayListed(other, scores, orders, visits);
    ListingsAgree(scores, orders, visits, keys, other);
  }

  /** Two checkpoints never share an order, as once the route is settled. */
  ghost predicate OrdersDistinct(orders: map<int, int>) {
    forall a, b | a in orders && b in orders && a != b :: orders[a] != orders[b]
  }

  /** With distinct orders, slot i holds the score of the i-th scored checkpoint of the route. */
  lemma LayoutMeaning(scores: map<int, real>, orders: map<int, int>, visits: nat, post: int)
    requires scores.Keys == orders.Keys && OrdersDistinct(orders) && post in scores
    ensures var rank := |set c | c in orders && orders[c] < orders[post]|;
            rank < visits ==> Layout(scores, orders, visits)[rank] == Trunc(scores[post])
  {
    var keys := SomeListing(scores.Keys);
    LayoutAnyListing(scores, orders, visits, keys);
    var sorted := SortBy(PairLeq, Map(keys, PairOf(scores, orders)));
    SortedPairsHold(scores, orders, keys);
    var i := IndexOfPost(scores, orders, keys, sorted, post);
    RankInListing(scores, orders, keys, sorted, post, i);
  }

  lemma ListedRest(keys: seq<int>, scores: map<int, real>, orders: map<int, int>, visits: nat)
    ensures var list := LayListed(keys, scores, orders, visits);
            |list| == visits && forall i | |keys| <= i < visits :: list[i] == 0
  {
    assert |SortBy(PairLeq, Map(keys, PairOf(scores, orders)))| == |keys|;
  }

  /** One slot per visit, and those past the scored checkpoints are zero. */
  lemma LayoutRest(scores: map<int, real>, orders: map<int, int>, visits: nat)
    ensures var list := Layout(scores, orders, visits);
            |list| == visits && forall i | |scores| <= i < visits :: list[i] == 0
  {
    var keys := SomeListing(scores.Keys);
    LayoutAnyListing(scores, orders, visits, keys);
    DistinctListSize(keys);
    assert (set x | x in keys) == scores.Keys;
    ListedRest(keys, scores, orders, visits);
  }

  lemma {:induction false} SortedPairsHold(scores: map<int, real>, orders: map<int, int>, keys: seq<int>)
    requires scores.Keys == orders.Keys && OrdersDistinct(orders) && IsListing(keys, scores.Keys)
    ensures SortedPairs(scores, orders, keys, SortBy(PairLeq, Map(keys, PairOf(scores, orders))))
  {
    var pairs := Map(keys, PairOf(scores, orders));
    var sorted := SortBy(PairLeq, pairs);
    assert Ordered(PairLeq, sorted) by { PairOrder(); SortByOrdered(PairLeq, pairs); }
    assert NoDuplicates(sorted) by { PairsDistinct(scores, orders, keys); PermutedNoDuplicates(pairs, sorted); }
    assert forall p :: p in sorted <==> p in pairs by { SameMembers(sorted, pairs); }
  }

  lemma PairNamesPost(scores: map<int, real>, orders: map<int, int>, keys: seq<int>, sorted: seq<(int, real)>, i: nat)
    returns (post: int)
    requires scores.Keys == orders.Keys && (forall x :: x in keys <==> x in scores) && i < |sorted|
    requires forall p :: p in sorted <==> p in Map(keys, PairOf(scores, orders))
    ensures post in orders && sorted[i] == (orders[post], scores[post])
  {
    var pairs, p := Map(keys, PairOf(scores, orders)), sorted[i];
    assert p in sorted;
    assert p in pairs;
    var k :| 0 <= k < |pairs| && pairs[k] == p;
    post := keys[k];
    assert post in keys;
  }

  ghost predicate SortedPairs(scores: map<int, real>, orders: map<int, int>, keys: seq<int>, sorted: seq<(int, real)>) {
    && scores.Keys == orders.Keys && OrdersDistinct(orders)
    && (forall x :: x in keys <==> x in scores)
    && Ordered(PairLeq, sorted) && NoDuplicates(sorted)
    && (forall p :: p in sorted <==> p in Map(keys, PairOf(scores, orders)))
  }

  /** The posts behind the first i sorted pairs. */
  lemma {:induction false} PostsBehind(scores: map<int, real>, orders: map<int, int>, keys: seq<int>,
                                       sorted: seq<(int, real)>, i: nat) returns (names: seq<int>)
    requires SortedPairs(scores, orders, keys, sorted) && i <= |sorted|
    ensures |names| == i
    ensures forall k | 0 <= k < i :: names[k] in orders && sorted[k] == (orders[names[k]], scores[names[k]])
  {
    if i == 0 {
      names := [];
    } else {
      names := PostsBehind(scores, orders, keys, sorted, i - 1);
      var name := PairNamesPost(scores, orders, keys, sorted, i - 1);
      names := names + [name];
    }
  }

  lemma RankInListing(scores: map<int, real>, orders: map<int, int>, keys: seq<int>, sorted: seq<(int, real)>,
                      post: int, i: nat)
    requires SortedPairs(scores, orders, keys, sorted) && post in orders
    requires i < |sorted| && sorted[i] == (orders[post], scores[post])
    ensures |set c | c in orders && orders[c] < orders[post]| == i
  {
    var names := PostsBehind(scores, orders, keys, sorted, i);
    assert NoDuplicates(names);
    DistinctListSize(names);
    var earlier := set c | c in orders && orders[c] < orders[post];
    forall c | c in names ensures c in earlier {
      var k :| 0 <= k < |names| && names[k] == c;
      assert PairLeq(sorted[k], sorted[i]) && sorted[k] != sorted[i];
    }
    forall c | c in earlier ensures c in names {
      var j := IndexOfPost(scores, orders, keys, sorted, c);
      assert j > i ==> PairLeq(sorted[i], sorted[j]);
      assert j < i;
      var name := names[j];
      assert orders[name] == orders[c];
      assert name == c;
    }
    assert (set c | c in names) == earlier;
  }

  lemma IndexOfPost(scores: map<int, real>, orders: map<int, int>, keys: seq<int>, sorted: seq<(int, real)>, c: int)
    returns (j: nat)
    requires scores.Keys == orders.Keys && c in orders
    requires forall x :: x in keys <==> x in scores
    requires forall p :: p in sorted <==> p in Map(keys, PairOf(scores, orders))
    ensures j < |sorted| && sorted[j] == (orders[c], scores[c])
  {
    var pairs := Map(keys, PairOf(scores, orders));
    assert c in keys;
    var k :| 0 <= k < |keys| && keys[k] == c;
    var p := pairs[k];
    assert p in pairs;
    assert p in sorted;
    j :| 0 <= j < |sorted| && sorted[j] == p;
  }

  lemma {:induction false} PairsDistinct(scores: map<int, real>, orders: map<int, int>, keys: seq<int>)
    requires scores.Keys == orders.Keys && OrdersDistinct(orders)
    requires NoDuplicates(keys) && forall x :: x in keys <==> x in scores
    ensures NoDuplicates(Map(keys, PairOf(scores, orders)))
  {
    var pairs := Map(keys, PairOf(scores, orders));
    forall a, b | 0 <= a < b < |pairs| ensures pairs[a] != pairs[b] {
      var x, y := keys[a], keys[b];
      assert x in keys && y in keys && x != y;
      assert pairs[a].0 == orders[x] && pairs[b].0 == orders[y];
    }
  }

  // ---- Recomputing a team ------------------------------------------------------------------

  function TotalOf(w: World, rows: seq<Row>, awards: seq<Award>, team: int): int {
    Round(Sum(rows, TeamWorth(w, team)) + Sum(awards, AwardWorth(team)))
  }

  /** The team as the scoring service leaves it. */
  ghost function Recomputed(w: World, b: Board, team: int): Team
    requires team in b.teams
  {
    var visits := b.teams[team].visits;
    Team(TotalOf(w, b.rows, b.awards, team),
         Layout(ScoreMap(w, b.rows, team), OrderMap(w, b.rows, team), visits), visits)
  }

  ghost function RecomputeAll(w: World, b: Board, ids: set<int>): Board {
    b.(teams := map t | t in b.teams :: if t in ids then Recomputed(w, b, t) else b.teams[t])
  }

  ghost function Recompute(w: World, b: Board, team: int): Board { RecomputeAll(w, b, {team}) }

  /** Recomputing many teams at once is recomputing them one after the other, in any order. */
  lemma BatchIsOneByOne(w: World, b: Board, ids: set<int>, team: int)
    ensures RecomputeAll(w, RecomputeAll(w, b, ids), {team}) == RecomputeAll(w, b, ids + {team})
  {
    var mid := RecomputeAll(w, b, ids);
    forall t | t in b.teams ensures Recomputed(w, mid, t) == Recomputed(w, b, t) {}
  }

  // ---- Walking the rows ----------------------------------------------------------------------

  lemma {:induction false} PostsSnoc(w: World, s: seq<Row>, r: Row, team: int)
    ensures PostsOf(w, s + [r], team) ==
            PostsOf(w, s, team) + (if r.entry.team == team && Counts(w, r) then {CheckpointOf(w, r).value} else {})
  {
    assert forall x :: x in s + [r] <==> x in s || x == r;
  }

  lemma {:induction false} NoWorthOutside(w: World, s: seq<Row>, team: int, post: int)
    requires post !in PostsOf(w, s, team)
    ensures Sum(s, PostWorth(w, team, post)) == 0.0
  {
    if s != [] {
      var front, r := s[..|s| - 1], s[|s| - 1];
      assert s == front + [r];
      PostsSnoc(w, front, r, team);
      NoWorthOutside(w, front, team, post);
    }
  }

  lemma {:induction false} PostSumSnoc(w: World, s: seq<Row>, r: Row, team: int, c: int)
    ensures Sum(s + [r], PostWorth(w, team, c)) ==
            (if c in ScoreMap(w, s, team) then ScoreMap(w, s, team)[c] else 0.0) + PostWorth(w, team, c)(r)
  {
    SumSnoc(s, r, PostWorth(w, team, c));
    if c !in PostsOf(w, s, team) { NoWorthOutside(w, s, team, c); }
  }

  /** The dict after one more row of the loop. */
  function Added(w: World, scores: map<int, real>, r: Row, team: int): map<int, real> {
    if r.entry.team == team && Counts(w, r) then
      var c := CheckpointOf(w, r).value;
      scores[c := (if c in scores then scores[c] else 0.0) + r.final.value]
    else scores
  }

  function AddedOrder(w: World, orders: map<int, int>, r: Row, team: int): map<int, int> {
    if r.entry.team == team && Counts(w, r) then
      var c := CheckpointOf(w, r).value;
      orders[c := OrderOf(w, c)]
    else orders
  }

  lemma ScoreMapSnocAt(w: World, s: seq<Row>, r: Row, team: int, c: int)
    ensures c in ScoreMap(w, s + [r], team) <==> c in Added(w, ScoreMap(w, s, team), r, team)
    ensures c in ScoreMap(w, s + [r], team) ==>
              ScoreMap(w, s + [r], team)[c] == Added(w, ScoreMap(w, s, team), r, team)[c]
  {
    PostsSnoc(w, s, r, team);
    PostSumSnoc(w, s, r, team, c);
  }

  /** One step of the accumulation both recompute paths perform. */
  lemma ScoreMapSnoc(w: World, s: seq<Row>, r: Row, team: int)
    ensures ScoreMap(w, s + [r], team) == Added(w, ScoreMap(w, s, team), r, team)
  {
    var after, added := ScoreMap(w, s + [r], team), Added(w, ScoreMap(w, s, team), r, team);
    forall c ensures (c in after <==> c in added) && (c in after ==> after[c] == added[c]) {
      ScoreMapSnocAt(w, s, r, team, c);
    }
  }

  lemma OrderMapSnoc(w: World, s: seq<Row>, r: Row, team: int)
    ensures OrderMap(w, s + [r], team) == AddedOrder(w, OrderMap(w, s, team), r, team)
  {
    PostsSnoc(w, s, r, team);
  }

  // ---- Queries ------------------------------------------------------------------------------

  /** out is the selected rows, in whatever order the database returned them. */
  ghost predicate Selected<T(!new)>(out: seq<T>, table: seq<T>, p: T -> bool) {
    multiset(out) == multiset(Filter(table, p))
  }

  lemma {:induction false} SumFiltered<T>(table: seq<T>, p: T -> bool, f: T -> real)
    requires forall x | x in table && !p(x) :: f(x) == 0.0
    ensures Sum(Filter(table, p), f) == Sum(table, f)
  {
    if table != [] {
      var front, x := table[..|table| - 1], table[|table| - 1];
      assert table == front + [x];
      assert x in table;
      SumFiltered(front, p, f);
      if p(x) {
        SumSnoc(Filter(front, p), x, f);
      } else {
        assert Filter(table, p) == Filter(front, p);
      }
    }
  }

  lemma {:induction false} SelectedSum<T(!new)>(out: seq<T>, table: seq<T>, p: T -> bool, f: T -> real)
    requires Selected(out, table, p) && forall x | x in table && !p(x) :: f(x) == 0.0
    ensures Sum(out, f) == Sum(table, f)
  {
    SumPermutation(out, Filter(table, p), f);
    SumFiltered(table, p, f);
  }

  /** A query that keeps the team's rows tells all there is to know about the team's results. */
  lemma {:induction false} SelectedTells(w: World, out: seq<Row>, table: seq<Row>, p: Row -> bool, team: int)
    requires Selected(out, table, p) && forall r | r in table && r.entry.team == team :: p(r)
    ensures Sum(out, TeamWorth(w, team)) == Sum(table, TeamWorth(w, team))
    ensures ScoreMap(w, out, team) == ScoreMap(w, table, team)
    ensures OrderMap(w, out, team) == OrderMap(w, table, team)
  {
    SelectedSum(out, table, p, TeamWorth(w, team));
    SameMembers(out, Filter(table, p));
    FilterMembers(table, p);
    assert PostsOf(w, out, team) == PostsOf(w, table, team);
    forall c | c in PostsOf(w, table, team)
      ensures Sum(out, PostWorth(w, team, c)) == Sum(table, PostWorth(w, team, c))
    {
      SelectedSum(out, table, p, PostWorth(w, team, c));
    }
  }
}
