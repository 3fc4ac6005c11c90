/**
 The two league tables: competition ranks on the results alone, and the stored classification,
 which places every team after a recompute of all totals.
 */
module Ranking {
  import opened Lists
  import opened ScoreRuns
  import opened Scoring
  import opened ScoringService
  import opened Sets
  import opened Sorting
  import opened Wrappers

  // ---- Competition ranks: ties share a rank, and the next rank is skipped ------------------

  datatype Standing = Standing(team: int, total: real)
  datatype Ranked = Ranked(standing: Standing, rank: int)

  function CompletedWorth(team: int): Row -> real {
    (r: Row) => if r.entry.team == team && r.completed && r.final.Some? then r.final.value else 0.0
  }

  function StandingOf(rows: seq<Row>): int -> Standing {
    (team: int) => Standing(team, Sum(rows, CompletedWorth(team)))
  }

  predicate BestFirst(a: Standing, b: Standing) { a.total >= b.total }

  function Beats(x: real): Standing -> bool { (s: Standing) => s.total > x }

  /** In a table ordered best first, the k teams in front of a tie are the teams that beat it. */
  lemma {:induction false} BeatenBy(table: seq<Standing>, k: nat, x: real)
    requires k <= |table|
    requires forall i | 0 <= i < k :: table[i].total > x
    requires forall i | k <= i < |table| :: table[i].total <= x
    ensures |Filter(table, Beats(x))| == k
  {
    var ahead, rest := table[..k], table[k..];
    assert table == ahead + rest;
    FilterConcat(ahead, rest, Beats(x));
    FilterAll(ahead, Beats(x));
    FilterNone(rest, Beats(x));
  }

  function RankIn(table: seq<Standing>, x: real): int { 1 + |Filter(table, Beats(x))| }

  /** A rank does not depend on the order the teams were read in. */
  lemma RankAnyOrder(a: seq<Standing>, b: seq<Standing>, x: real)
    requires multiset(a) == multiset(b)
    ensures RankIn(a, x) == RankIn(b, x)
  {
    FilterPermutation(a, b, Beats(x));
    SameMembers(Filter(a, Beats(x)), Filter(b, Beats(x)));
  }

  function Unranked(s: Standing): Ranked { Ranked(s, 0) }

  function Plain(r: Ranked): Standing { r.standing }

  /** start is where the tie that i belongs to begins. */
  ghost predicate StartsTie(table: seq<Standing>, start: int, i: int) {
    && 0 <= start <= i < |table| && table[start].total == table[i].total
    && (start > 0 ==> table[start - 1].total > table[start].total)
  }

  lemma TieRank(table: seq<Standing>, start: int, i: int)
    requires Ordered(BestFirst, table) && StartsTie(table, start, i)
    ensures RankIn(table, table[i].total) == start + 1
  {
    forall j | 0 <= j < start ensures table[j].total > table[i].total {
      assert j < start - 1 ==> BestFirst(table[j], table[start - 1]);
    }
    forall j | start <= j < |table| ensures table[j].total <= table[i].total {
      assert start < j ==> BestFirst(table[start], table[j]);
    }
    BeatenBy(table, start, table[i].total);
  }

  /** The first i teams of the table ranked. */
  function RankedTo(table: seq<Standing>, i: nat): (r: seq<Ranked>)
    requires i <= |table|
    ensures |r| == i
  {
    if i == 0 then []
    else
      var before, total := RankedTo(table, i - 1), table[i - 1].total;
      before + [Ranked(table[i - 1], if i > 1 && table[i - 2].total == total then before[i - 2].rank else i)]
  }

  /** Each rank points at the start of its tie. */
  lemma {:induction false} RanksPointAtTies(table: seq<Standing>, i: nat, j: nat)
    requires Ordered(BestFirst, table) && j < i <= |table|
    ensures RankedTo(table, i)[j].standing == table[j]
    ensures StartsTie(table, RankedTo(table, i)[j].rank - 1, j)
    decreases i, j
  {
    if j < i - 1 {
      RanksPointAtTies(table, i - 1, j);
    } else if j > 0 {
      assert BestFirst(table[j - 1], table[j]);
      RanksPointAtTies(table, i - 1, j - 1);
    }
  }

  /** The rank loop over a sorted table, storing each rank in its row. */
  method AssignRanks(table: seq<Standing>) returns (ranking: seq<Ranked>)
    ensures ranking == RankedTo(table, |table|)
  {
    ranking := Map(table, Unranked);
    var previous: Option<real> := None;
    var rank := 0;
    for i := 0 to |table|
      invariant |ranking| == |table| && ranking[i..] == Map(table, Unranked)[i..]
      invariant ranking[..i] == RankedTo(table, i)
      invariant i == 0 ==> previous == None
      invariant i > 0 ==> previous == Some(table[i - 1].total) && rank == RankedTo(table, i)[i - 1].rank
    {
      assert ranking[i] == ranking[i..][0];
      var total := ranking[i].standing.total;
      if previous == None || total != previous.value { rank := i + 1; }
      previous := Some(total);
      ranking := ranking[i := ranking[i].(rank := rank)];
      assert ranking[..i + 1] == ranking[..i] + [ranking[i]];
    }
  }

  lemma BestFirstOrder()
    ensures TotalPreorder(BestFirst)
  {
  }

  /** The stored ranks, by what they mean in the table however it was read. */
  lemma {:induction false} RanksOf(table: seq<Standing>, source: seq<Standing>, r: Ranked)
    requires Ordered(BestFirst, table) && multiset(table) == multiset(source) && r in RankedTo(table, |table|)
    ensures r.rank == RankIn(source, r.standing.total)
  {
    var ranking := RankedTo(table, |table|);
    var i :| 0 <= i < |ranking| && ranking[i] == r;
    RanksPointAtTies(table, |table|, i);
    TieRank(table, r.rank - 1, i);
    RankAnyOrder(table, source, r.standing.total);
  }

  lemma {:induction false} SameStandings(table: seq<Standing>)
    requires Ordered(BestFirst, table)
    ensures Map(RankedTo(table, |table|), Plain) == table
  {
    var ranking := RankedTo(table, |table|);
    forall i | 0 <= i < |table| ensures Map(ranking, Plain)[i] == table[i] { RanksPointAtTies(table, |table|, i); }
  }

  /** Every team is ranked once: one more than the number of teams with a strictly greater total. */
  method GlobalRanking(teams: seq<int>, rows: seq<Row>) returns (ranking: seq<Ranked>)
    ensures multiset(Map(ranking, Plain)) == multiset(Map(teams, StandingOf(rows)))
    ensures Ordered(BestFirst, Map(ranking, Plain))
    ensures forall r | r in ranking :: r.rank == RankIn(Map(teams, StandingOf(rows)), r.standing.total)
  {
    var source := Map(teams, StandingOf(rows));
    var table := SortBy(BestFirst, source);
    BestFirstOrder();
    SortByOrdered(BestFirst, source);
    ranking := AssignRanks(table);
    SameStandings(table);
    forall r | r in ranking ensures r.rank == RankIn(source, r.standing.total) { RanksOf(table, source, r); }
  }

  /** Ranks agree with totals: equal totals share one, a greater total has a strictly smaller one. */
  lemma RankMeaning(table: seq<Standing>, a: Standing, b: Standing)
    requires a in table && b in table
    ensures RankIn(table, a.total) < RankIn(table, b.total) <==> a.total > b.total
    ensures 1 <= RankIn(table, a.total) <= |table|
  {
    if a.total >= b.total { FewerBeat(table, a.total, b.total); } else { FewerBeat(table, b.total, a.total); }
    FewerBeat(table, a.total, a.total - 1.0);
  }

  lemma {:induction false} FewerBeat(table: seq<Standing>, x: real, y: real)
    requires x >= y
    ensures |Filter(table, Beats(x))| <= |Filter(table, Beats(y))|
    ensures x > y && (exists s :: s in table && s.total == x) ==> |Filter(table, Beats(x))| < |Filter(table, Beats(y))|
  {
    if table != [] {
      FewerBeat(table[..|table| - 1], x, y);
      assert table == table[..|table| - 1] + [table[|table| - 1]];
    }
  }

  /** A rank is one more than the number of strictly greater totals. */
  lemma {:induction false} RankCounts(table: seq<Standing>, x: real)
    ensures RankIn(table, x) == 1 + |set i | 0 <= i < |table| && table[i].total > x|
  {
    CountBeats(table, x);
  }

  lemma {:induction false} CountBeats(table: seq<Standing>, x: real)
    ensures |Filter(table, Beats(x))| == |set i | 0 <= i < |table| && table[i].total > x|
  {
    if table != [] {
      var n := |table| - 1;
      assert table == table[..n] + [table[n]];
      CountBeats(table[..n], x);
      FilterSnoc(table[..n], table[n], Beats(x));
      var front := set i | 0 <= i < |table[..n]| && table[..n][i].total > x;
      assert (set i | 0 <= i < |table| && table[i].total > x) == front + (if table[n].total > x then {n} else {});
    }
  }

  /** A team stands on the scores of its completed results, at a checkpoint or not. */
  lemma {:induction false} StandingAdds(left: seq<Row>, r: Row, right: seq<Row>, team: int)
    ensures StandingOf(left + [r] + right)(team).team == team
    ensures StandingOf(left + [r] + right)(team).total ==
            StandingOf(left + right)(team).total
            + (if r.entry.team == team && r.completed && r.final.Some? then r.final.value else 0.0)
    ensures StandingOf([])(team).total == 0.0
  {
    SumConcat(left + [r], right, CompletedWorth(team));
    SumConcat(left, right, CompletedWorth(team));
    SumSnoc(left, r, CompletedWorth(team));
  }

  // ---- The classification ---------------------------------------------------------------------

  /** Python's order on strings. */
  predicate NameLeq(a: string, b: string) {
    a == [] || (b != [] && (a[0] < b[0] || (a[0] == b[0] && NameLeq(a[1..], b[1..]))))
  }

  lemma {:induction false} NameTotal(a: string, b: string)
    ensures NameLeq(a, b) || NameLeq(b, a)
    ensures NameLeq(a, b) && NameLeq(b, a) ==> a == b
  {
    if a != [] && b != [] {
      NameTotal(a[1..], b[1..]);
      assert a == [a[0]] + a[1..] && b == [b[0]] + b[1..];
    }
  }

  lemma {:induction false} NameTransitive(a: string, b: string, c: string)
    requires NameLeq(a, b) && NameLeq(b, c)
    ensures NameLeq(a, c)
  {
    if a != [] && a[0] == b[0] == c[0] { NameTransitive(a[1..], b[1..], c[1..]); }
  }

  /** What the classification sorts on. */
  datatype Key = Key(total: int, name: string)

  predicate KeyLeq(a: Key, b: Key) { a.total > b.total || (a.total == b.total && NameLeq(a.name, b.name)) }

  lemma KeyOrder()
    ensures TotalPreorder(KeyLeq) && Antisymmetric(KeyLeq)
  {
    forall a, b ensures KeyLeq(a, b) || KeyLeq(b, a) ensures KeyLeq(a, b) && KeyLeq(b, a) ==> a == b {
      NameTotal(a.name, b.name);
    }
    forall a, b, c | KeyLeq(a, b) && KeyLeq(b, c) ensures KeyLeq(a, c) {
      if a.total == b.total == c.total { NameTransitive(a.name, b.name, c.name); }
    }
  }

  function KeyAt(keys: map<int, Key>, t: int): Key { if t in keys then keys[t] else Key(0, "") }

  function ByKey(keys: map<int, Key>): (int, int) -> bool { (a: int, b: int) => KeyLeq(KeyAt(keys, a), KeyAt(keys, b)) }

  /** t is placed behind u: a smaller total, or a later name on equal totals, or a later id. */
  predicate Ahead(keys: map<int, Key>, u: int, t: int) {
    KeyLeq(KeyAt(keys, u), KeyAt(keys, t)) && (KeyLeq(KeyAt(keys, t), KeyAt(keys, u)) ==> u < t)
  }

  function PlaceOf(keys: map<int, Key>, t: int): int {
    1 + |TeamsAhead(keys, t)|
  }

  function TeamsAhead(keys: map<int, Key>, t: int): set<int> { set u | u in keys && Ahead(keys, u, t) }

  /** Ordered by key, and by id among equal keys. */
  ghost predicate Settled(keys: map<int, Key>, s: seq<int>) {
    forall i, j | 0 <= i < j < |s| :: Ahead(keys, s[i], s[j])
  }

  lemma {:induction false} StableInsert(keys: map<int, Key>, x: int, s: seq<int>)
    requires Settled(keys, s) && forall y | y in s :: x < y
    ensures Settled(keys, Insert(ByKey(keys), x, s))
  {
    KeyOrder();
    if s != [] && !ByKey(keys)(x, s[0]) {
      var rest := Insert(ByKey(keys), x, s[1..]);
      forall y | y in s[1..] ensures x < y { assert y in s; }
      StableInsert(keys, x, s[1..]);
      forall y | y in rest ensures Ahead(keys, s[0], y) {
        assert y in multiset(rest);
        assert y == x || y in s[1..];
      }
    } else if s != [] {
      forall y | y in s ensures Ahead(keys, x, y) {
        var i :| 0 <= i < |s| && s[i] == y;
        assert i > 0 ==> Ahead(keys, s[0], s[i]);
      }
    }
  }

  /** The sort is stable: rows read in id order stay in id order where the keys tie. */
  lemma {:induction false} StableSort(keys: map<int, Key>, s: seq<int>)
    requires forall i, j | 0 <= i < j < |s| :: s[i] < s[j]
    ensures Settled(keys, SortBy(ByKey(keys), s))
  {
    if s != [] {
      StableSort(keys, s[1..]);
      var rest := SortBy(ByKey(keys), s[1..]);
      SameMembers(rest, s[1..]);
      forall y | y in rest ensures s[0] < y {
        assert y in s[1..];
        var k :| 0 <= k < |s[1..]| && s[1..][k] == y;
      }
      StableInsert(keys, s[0], SortBy(ByKey(keys), s[1..]));
    }
  }

  lemma AheadOrder(keys: map<int, Key>, a: int, b: int)
    requires a != b
    ensures Ahead(keys, a, b) <==> !Ahead(keys, b, a)
  {
    KeyOrder();
  }

  /** The position in the sorted list counts the teams ahead. */
  lemma PositionIsPlace(keys: map<int, Key>, s: seq<int>, i: nat)
    requires Settled(keys, s) && IsListing(s, keys.Keys) && i < |s|
    ensures PlaceOf(keys, s[i]) == i + 1
  {
    var front := s[..i];
    DistinctListSize(front);
    var ahead := TeamsAhead(keys, s[i]);
    forall u | u in front ensures u in ahead {
      var k :| 0 <= k < |front| && front[k] == u;
      assert s[k] in s;
    }
    forall u | u in ahead ensures u in front {
      assert u in s;
      var k :| 0 <= k < |s| && s[k] == u;
      if k > i { AheadOrder(keys, s[i], s[k]); }
      assert front[k] == u;
    }
    assert (set u | u in front) == ahead;
  }

  lemma PlacedListing(keys: map<int, Key>) returns (placed: seq<int>)
    ensures Settled(keys, placed) && IsListing(placed, keys.Keys)
  {
    var ids := SomeListing(keys.Keys);
    var ascending := SortBy(IntLeq, ids);
    AscendingListing(ids, keys.Keys);
    placed := SortBy(ByKey(keys), ascending);
    StableSort(keys, ascending);
    PermutedNoDuplicates(ascending, placed);
    SameMembers(ascending, placed);
  }

  lemma PlaceInRange(keys: map<int, Key>, t: int)
    requires t in keys
    ensures 1 <= PlaceOf(keys, t) <= |keys|
  {
    var placed := PlacedListing(keys);
    assert t in placed;
    var i :| 0 <= i < |placed| && placed[i] == t;
    PositionIsPlace(keys, placed, i);
    DistinctListSize(placed);
    assert (set x | x in placed) == keys.Keys;
  }

  /** Of two teams the one ahead has the smaller place. */
  lemma PlacesCompare(keys: map<int, Key>, t: int, u: int)
    requires t in keys && u in keys && t != u
    ensures PlaceOf(keys, t) != PlaceOf(keys, u)
    ensures PlaceOf(keys, t) < PlaceOf(keys, u) <==> Ahead(keys, t, u)
  {
    var placed := PlacedListing(keys);
    assert t in placed && u in placed;
    var i :| 0 <= i < |placed| && placed[i] == t;
    var j :| 0 <= j < |placed| && placed[j] == u;
    PositionIsPlace(keys, placed, i);
    PositionIsPlace(keys, placed, j);
    AheadOrder(keys, t, u);
  }

  /** A strictly higher total is placed strictly better. */
  lemma HigherTotalPlacedBetter(keys: map<int, Key>, t: int, u: int)
    requires t in keys && u in keys && keys[t].total > keys[u].total
    ensures PlaceOf(keys, t) < PlaceOf(keys, u)
  {
    PlacesCompare(keys, t, u);
  }

  /** Some team has place p, for each p from 1 to the number of teams. */
  lemma TeamAtPlace(keys: map<int, Key>, p: int) returns (t: int)
    requires 1 <= p <= |keys|
    ensures t in keys && PlaceOf(keys, t) == p
  {
    var placed := PlacedListing(keys);
    DistinctListSize(placed);
    assert (set x | x in placed) == keys.Keys;
    t := placed[p - 1];
    assert t in placed;
    PositionIsPlace(keys, placed, p - 1);
  }

  predicate HasPlace(keys: map<int, Key>, t: int, p: int) { t in keys && PlaceOf(keys, t) == p }

  ghost predicate Taken(keys: map<int, Key>, p: int) { exists t :: HasPlace(keys, t, p) }

  /** The places are exactly 1..n, and no two teams share one. */
  lemma PlacesAreBijective(keys: map<int, Key>)
    ensures forall t | t in keys :: 1 <= PlaceOf(keys, t) <= |keys|
    ensures forall p | 1 <= p <= |keys| :: Taken(keys, p)
    ensures forall t, u, p :: HasPlace(keys, t, p) && HasPlace(keys, u, p) ==> t == u
  {
    forall t | t in keys ensures 1 <= PlaceOf(keys, t) <= |keys| { PlaceInRange(keys, t); }
    forall p | 1 <= p <= |keys| ensures Taken(keys, p) {
      var t := TeamAtPlace(keys, p);
      assert HasPlace(keys, t, p);
    }
    forall t, u, p | HasPlace(keys, t, p) && HasPlace(keys, u, p) ensures t == u {
      if t != u { PlacesCompare(keys, t, u); }
    }
  }

  /** With unique names the ids do not matter: teams with the same names and totals are placed alike. */
  lemma OnlyNamesAndTotals(keys: map<int, Key>, others: map<int, Key>, t: int, u: int)
    requires NamesUnique(keys) && NamesUnique(others) && SameTeams(keys, others)
    requires t in keys && u in others && keys[t] == others[u]
    ensures PlaceOf(keys, t) == PlaceOf(others, u)
  {
    NamesAhead(keys, t);
    NamesAhead(others, u);
  }

  function KeysIn(keys: map<int, Key>): set<Key> { set t | t in keys :: keys[t] }

  ghost predicate NamesUnique(keys: map<int, Key>) {
    forall a, b | a in keys && b in keys && a != b :: keys[a].name != keys[b].name
  }

  ghost predicate SameTeams(keys: map<int, Key>, others: map<int, Key>) { KeysIn(keys) == KeysIn(others) }

  predicate StrictlyAhead(a: Key, b: Key) { KeyLeq(a, b) && !KeyLeq(b, a) }

  lemma AheadByKey(keys: map<int, Key>, u: int, t: int)
    requires NamesUnique(keys) && t in keys && u in keys
    ensures Ahead(keys, u, t) <==> StrictlyAhead(keys[u], keys[t])
  {
    KeyOrder();
    if keys[u] == keys[t] { assert u == t; }
  }

  function KeysAhead(keys: set<Key>, key: Key): set<Key> { set k | k in keys && StrictlyAhead(k, key) }

  lemma NamesAhead(keys: map<int, Key>, t: int)
    requires NamesUnique(keys) && t in keys
    ensures PlaceOf(keys, t) == 1 + |KeysAhead(KeysIn(keys), keys[t])|
  {
    var ahead, strictly := TeamsAhead(keys, t), KeysAhead(KeysIn(keys), keys[t]);
    var image := Image(ahead, keys);
    forall u | u in keys ensures Ahead(keys, u, t) <==> StrictlyAhead(keys[u], keys[t]) { AheadByKey(keys, u, t); }
    ImageSize(ahead, keys);
    forall k ensures k in image <==> k in strictly {
      if k in strictly {
        var u :| u in keys && keys[u] == k;
        assert u in ahead;
      }
    }
    assert image == strictly;
  }

  /** Names as Python orders them: alike up to some point, where the first ends or has the smaller character. */
  predicate NameBefore(a: string, b: string) {
    exists n :: 0 <= n <= |a| && n <= |b| && a[..n] == b[..n] && (if n == |a| then n < |b| else n < |b| && a[n] < b[n])
  }

  lemma {:induction false} NameMeaning(a: string, b: string)
    ensures NameBefore(a, b) <==> NameLeq(a, b) && a != b
  {
    if a != [] && b != [] && a[0] == b[0] {
      NameMeaning(a[1..], b[1..]);
      assert a == [a[0]] + a[1..] && b == [b[0]] + b[1..];
      if NameBefore(a[1..], b[1..]) {
        var n :| 0 <= n <= |a[1..]| && n <= |b[1..]| && a[1..][..n] == b[1..][..n]
                 && (if n == |a[1..]| then n < |b[1..]| else n < |b[1..]| && a[1..][n] < b[1..][n]);
        assert a[..n + 1] == [a[0]] + a[1..][..n] && b[..n + 1] == [b[0]] + b[1..][..n];
      }
      if NameBefore(a, b) {
        var n :| 0 <= n <= |a| && n <= |b| && a[..n] == b[..n] && (if n == |a| then n < |b| else n < |b| && a[n] < b[n]);
        assert a[1..][..n - 1] == a[..n][1..] && b[1..][..n - 1] == b[..n][1..];
      }
    } else {
      assert a[..0] == b[..0];
      if a != [] && b != [] { FirstDiffers(a, b); }
    }
  }

  lemma FirstDiffers(a: string, b: string)
    requires a != [] && b != [] && a[0] != b[0]
    ensures forall n | 0 < n <= |a| && n <= |b| :: a[..n] != b[..n]
  {
    forall n | 0 < n <= |a| && n <= |b| ensures a[..n] != b[..n] { assert a[..n][0] == a[0] && b[..n][0] == b[0]; }
  }

  /** Placed first is who has the greater total, on equal totals the earlier name, and on equal names the smaller id. */
  lemma PlacedFirst(keys: map<int, Key>, t: int, u: int)
    requires t in keys && u in keys && t != u
    ensures PlaceOf(keys, t) < PlaceOf(keys, u) <==>
            || keys[t].total > keys[u].total
            || (keys[t].total == keys[u].total &&
                  (NameBefore(keys[t].name, keys[u].name) || (keys[t].name == keys[u].name && t < u)))
  {
    PlacesCompare(keys, t, u);
    NameMeaning(keys[t].name, keys[u].name);
    NameTotal(keys[t].name, keys[u].name);
  }

  // ---- Checking in and classifying ---------------------------------------------------------------

  /** Keys of the teams that are ranked: those of this edition. */
  function KeysOf(teams: map<int, Team>, edition: set<int>, names: map<int, string>): map<int, Key> {
    map t | t in teams && t in edition :: Key(teams[t].total, if t in names then names[t] else "")
  }

  function Placed(before: map<int, int>, sorted: seq<int>, i: nat): map<int, int> {
    if i == 0 || i > |sorted| then before else Placed(before, sorted, i - 1)[sorted[i - 1] := i]
  }

  lemma {:induction false} PlacedAt(before: map<int, int>, sorted: seq<int>, i: nat, j: nat)
    requires j < i <= |sorted| && NoDuplicates(sorted)
    ensures sorted[j] in Placed(before, sorted, i) && Placed(before, sorted, i)[sorted[j]] == j + 1
  {
    if j < i - 1 { PlacedAt(before, sorted, i - 1, j); }
  }

  /** Every ranked team has a place, one more than the number of teams ahead of it; any other keeps what it had. */
  ghost predicate RightlyPlaced(keys: map<int, Key>, before: map<int, int>, classification: map<int, int>) {
    && (forall t | t in keys :: t in classification && classification[t] == PlaceOf(keys, t))
    && (forall t | t !in keys :: (t in classification <==> t in before) && (t in before ==> classification[t] == before[t]))
  }

  lemma {:induction false} PlacedElsewhere(before: map<int, int>, sorted: seq<int>, i: nat, t: int)
    requires t !in sorted
    ensures t in Placed(before, sorted, i) <==> t in before
    ensures t in before ==> Placed(before, sorted, i)[t] == before[t]
  {
    if 0 < i <= |sorted| { PlacedElsewhere(before, sorted, i - 1, t); }
  }

  lemma {:induction false} SortPlaces(keys: map<int, Key>, ids: seq<int>, before: map<int, int>)
    requires IsListing(ids, keys.Keys) && forall i, j | 0 <= i < j < |ids| :: ids[i] < ids[j]
    ensures var sorted := SortBy(ByKey(keys), ids); RightlyPlaced(keys, before, Placed(before, sorted, |sorted|))
  {
    var sorted := SortBy(ByKey(keys), ids);
    StableSort(keys, ids);
    PermutedNoDuplicates(ids, sorted);
    SameMembers(ids, sorted);
    var after := Placed(before, sorted, |sorted|);
    forall t | t in keys ensures t in after && after[t] == PlaceOf(keys, t) {
      assert t in sorted;
      var i :| 0 <= i < |sorted| && sorted[i] == t;
      PositionIsPlace(keys, sorted, i);
      PlacedAt(before, sorted, |sorted|, i);
    }
    forall t | t !in keys ensures (t in after <==> t in before) && (t in before ==> after[t] == before[t]) {
      PlacedElsewhere(before, sorted, |sorted|, t);
    }
  }

  lemma CheckInStep(w: World, b: Board, team: int)
    requires team in b.teams
    ensures Step(w, b, CheckIn(team)) == RecomputeAll(w, b.(teams := Visited(b.teams, team)), b.teams.Keys * w.edition)
  {
    assert Changed(w, b, CheckIn(team)) == Change(b.(teams := Visited(b.teams, team)), b.teams.Keys * w.edition);
  }

  class Classifier {
    const scoring: Service
    const names: map<int, string>
    var classification: map<int, int>

    constructor (scoring: Service, names: map<int, string>)
      ensures this.scoring == scoring && this.names == names && classification == map[]
    {
      this.scoring, this.names, this.classification := scoring, names, map[];
    }

    ghost function Edition(): set<int>
      reads scoring
    {
      scoring.teams.Keys * scoring.w.edition
    }

    /** The teams of the edition by ascending id, as their rows are locked. */
    method TeamsById() returns (ids: seq<int>)
      ensures IsListing(ids, Edition()) && forall i, j | 0 <= i < j < |ids| :: ids[i] < ids[j]
    {
      var left := scoring.teams.Keys * scoring.w.edition;
      var listed := [];
      while left != {}
        invariant left <= Edition() && IsListing(listed, Edition() - left)
        decreases |left|
      {
        ghost var some := SomeMember(left);
        var t :| t in left;
        listed := listed + [t];
        left := left - {t};
      }
      AscendingListing(listed, Edition());
      ids := SortBy(IntLeq, listed);
    }

    /** Stores place i + 1 for the i-th team of the sorted list. */
    method StorePlaces(sorted: seq<int>)
      modifies this`classification
      ensures classification == Placed(old(classification), sorted, |sorted|)
    {
      for i := 0 to |sorted|
        invariant classification == Placed(old(classification), sorted, i)
      {
        classification := classification[sorted[i] := i + 1];
      }
    }

    method RecomputeTeams() returns (ids: seq<int>)
      modifies scoring`teams
      ensures IsListing(ids, Edition()) && forall i, j | 0 <= i < j < |ids| :: ids[i] < ids[j]
      ensures scoring.Tables() == RecomputeAll(scoring.w, old(scoring.Tables()), old(Edition()))
    {
      ids := TeamsById();
      scoring.UpdateAllTeamScores(ids);
      OneByOneIsAll(scoring.w, old(scoring.Tables()), ids);
      assert Members(ids) == old(Edition());
      assert scoring.teams.Keys == old(scoring.teams.Keys);
    }

    /** Recomputes the teams of the edition, then places each by its total, name and, failing those, id. */
    method UpdateClassification()
      modifies this`classification, scoring`teams
      ensures scoring.Tables() == RecomputeAll(scoring.w, old(scoring.Tables()), old(Edition()))
      ensures RightlyPlaced(KeysOf(scoring.teams, scoring.w.edition, names), old(classification), classification)
    {
      var ids := RecomputeTeams();
      var keys := KeysOf(scoring.teams, scoring.w.edition, names);
      assert keys.Keys == Edition();
      var sorted := SortBy(ByKey(keys), ids);
      SortPlaces(keys, ids, classification);
      StorePlaces(sorted);
    }

    /**
     A recorded visit is committed, then the teams of the edition are recomputed and placed, whether
     or not the one that checked in is among them. `admits` is the event window and the route's rule
     for a team with this many visits; a refused visit leaves no trace.
     */
    method AddCheckpoint(team: int, admits: nat -> bool) returns (ok: bool)
      modifies this`classification, scoring`teams
      ensures ok <==> team in old(scoring.teams) && admits(old(scoring.teams)[team].visits)
      ensures ok ==> scoring.Tables() == Step(scoring.w, old(scoring.Tables()), CheckIn(team))
      ensures ok ==> RightlyPlaced(KeysOf(scoring.teams, scoring.w.edition, names), old(classification), classification)
      ensures !ok ==> scoring.Tables() == old(scoring.Tables()) && classification == old(classification)
    {
      if team !in scoring.teams || !admits(scoring.teams[team].visits) { return false; }
      CheckInStep(scoring.w, scoring.Tables(), team);
      scoring.teams := Visited(scoring.teams, team);
      UpdateClassification();
      return true;
    }
  }
}
