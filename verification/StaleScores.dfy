/**
 When a change of population leaves scores stale: for the repository's ranking formula, the exact
 cases in which removing a time, or adding one, moves nobody; and inputs on which somebody moves.
 */
module StaleScores {
  import opened Lists
  import opened Rescoring
  import opened ScoreFormula
  import opened ScoreRuns
  import opened Scoring
  import opened SettledRuns
  import opened Sorting
  import opened Wrappers

  // ---- One time more or less ----------------------------------------------------------------------

  /** all is rest and x, in any order. */
  ghost predicate OneMore(all: seq<real>, rest: seq<real>, x: real) { multiset(all) == multiset(rest + [x]) }

  predicate IsFastest(times: seq<real>, t: real) { forall x | x in times :: t <= x }

  /**
   The fastest stay first, and the slowest stay last as long as somebody is faster; and all keep
   their score where first and last are worth the same.
   */
  predicate RankKept(a: Activity, all: seq<real>, rest: seq<real>, t: real) {
    a.maxPoints == a.minPoints || IsFastest(all, t) || (IsSlowest(all, t) && exists y :: y in rest && y < t)
  }

  lemma {:induction false} OneMoreMeaning(all: seq<real>, rest: seq<real>, x: real)
    requires OneMore(all, rest, x)
    ensures |all| == |rest| + 1 && forall y :: y in all <==> y in rest || y == x
    ensures forall t :: CountLess(all, t) == CountLess(rest, t) + (if x < t then 1 else 0)
  {
    SameMembers(all, rest + [x]);
    assert |multiset(all)| == |multiset(rest + [x])|;
    forall t ensures CountLess(all, t) == CountLess(rest, t) + (if x < t then 1 else 0) {
      CountLessPermutation(all, rest + [x], t);
      Snoc(rest, x);
    }
  }

  lemma NonZeroScale(range: real, x: real, y: real)
    requires range != 0.0 && x != y
    ensures range * x != range * y
  {
    assert range * x - range * y == range * (x - y);
  }

  lemma SharesDiffer(f: nat, n: nat, g: nat)
    requires 0 < f < n && (g == f || g == f - 1)
    ensures f as real / n as real != g as real / (n - 1) as real
  {
    var x, y := f as real / n as real, g as real / (n - 1) as real;
    var p, q := n as real, (n - 1) as real;
    assert x * p == f as real && y * q == g as real && p == q + 1.0;
    assert (x - y) * (p * q) == x * p * q - y * q * p;
    assert x * p * q - y * q * p == f as real * q - g as real * p;
  }

  /** In the middle of a field the share depends on its size: another size gives another score. */
  lemma BetweenMoves(a: Activity, f: nat, count: nat, g: nat)
    requires a.maxPoints != a.minPoints && 0 < f < count - 1 && (g == f || g == f - 1)
    ensures Between(a, f, count) != a.maxPoints && Between(a, f, count) != a.minPoints
    ensures count > 2 && Between(a, f, count) != Between(a, g, count - 1)
  {
    var range, n := a.maxPoints - a.minPoints, count - 1;
    var x, y := f as real / n as real, g as real / (n - 1) as real;
    assert 0.0 < x < 1.0;
    SharesDiffer(f, n, g);
    NonZeroScale(range, x, y);
    NonZeroScale(range, x, 1.0);
    NonZeroScale(range, x, 0.0);
    assert Between(a, f, count) == a.maxPoints - range * x;
    assert count > 2 ==> Between(a, g, count - 1) == a.maxPoints - range * y;
  }

  lemma {:induction false} MiddleCount(all: seq<real>, t: real)
    requires t in all && !IsFastest(all, t) && !IsSlowest(all, t)
    ensures 0 < CountLess(all, t) < |all| - 1
  {
    NobodyFaster(all, t);
    var y :| y in all && y > t;
    CountLessMonotone(all, t, y);
    CountLessMonotone(all, y, y);
  }

  lemma MiddleMoves(a: Activity, all: seq<real>, rest: seq<real>, x: real, t: real)
    requires OneMore(all, rest, x) && t in rest && a.maxPoints != a.minPoints
    requires !IsFastest(all, t) && !IsSlowest(all, t)
    ensures RankingScore(a, all, t) != RankingScore(a, rest, t)
  {
    OneMoreMeaning(all, rest, x);
    MiddleCount(all, t);
    BetweenMoves(a, CountLess(all, t), |all|, CountLess(rest, t));
  }

  lemma EqualEnds(a: Activity, times: seq<real>, t: real)
    requires a.maxPoints == a.minPoints && t in times
    ensures RankingScore(a, times, t) == a.maxPoints
  {
  }

  /** Exactly the ends of the field keep their ranking score when a time comes or goes. */
  lemma RankKeptIff(a: Activity, all: seq<real>, rest: seq<real>, x: real, t: real)
    requires OneMore(all, rest, x) && t in rest
    ensures RankingScore(a, all, t) == RankingScore(a, rest, t) <==> RankKept(a, all, rest, t)
  {
    OneMoreMeaning(all, rest, x);
    NobodyFaster(all, t);
    NobodyFaster(rest, t);
    if a.maxPoints == a.minPoints {
      EqualEnds(a, all, t);
      EqualEnds(a, rest, t);
    } else if !IsFastest(all, t) {
      if IsSlowest(all, t) {
        assert |rest| == 1 ==> rest == [t];
      } else {
        MiddleMoves(a, all, rest, x, t);
      }
    }
  }

  // ---- What a result is worth with one time more or less ---------------------------------------------

  /** Its modifiers leave nothing of what the result is worth on either list. */
  predicate HeldAtZero(rules: Rules, e: Entry, s: seq<real>, t: seq<real>) {
    var sum := ModifierSum(e.shots, rules.bonusPerShot, e.penalties);
    BaseOf(rules, e, s) + sum <= 0.0 && BaseOf(rules, e, t) + sum <= 0.0
  }

  lemma BaseIsRanking(a: Activity, times: seq<real>, t: real)
    requires t in times
    ensures TimedBase(a, times, t) == RankingScore(a, times, t)
  {
  }

  lemma SameFinalIff(rules: Rules, e: Entry, s: seq<real>, t: seq<real>)
    ensures FinalScore(rules, e, s) == FinalScore(rules, e, t) <==>
            BaseOf(rules, e, s) == BaseOf(rules, e, t) || HeldAtZero(rules, e, s, t)
  {
  }

  /** A ranked result is worth the same with one time more or less exactly when it keeps its end of the field. */
  lemma WorthKeptIff(rules: Rules, e: Entry, all: seq<real>, rest: seq<real>, x: real)
    requires IsTimedEntry(rules, e) && e.data.time.value in rest && OneMore(all, rest, x)
    ensures FinalScore(rules, e, all) == FinalScore(rules, e, rest) <==>
            RankKept(rules.activities[e.activity], all, rest, e.data.time.value) || HeldAtZero(rules, e, all, rest)
  {
    var a, t := rules.activities[e.activity], e.data.time.value;
    OneMoreMeaning(all, rest, x);
    BaseIsRanking(a, all, t);
    BaseIsRanking(a, rest, t);
    RankKeptIff(a, all, rest, x, t);
    SameFinalIff(rules, e, all, rest);
  }

  /**
   The newcomer itself, scored on the field it was not yet part of. Beside one result at most it is
   given the maximum; beside more of them, with a time nobody has, nothing at all.
   */
  predicate NewcomerKept(a: Activity, all: seq<real>, rest: seq<real>, x: real) {
    if |rest| <= 1 then a.maxPoints == a.minPoints || IsFastest(all, x)
    else if x in rest then RankKept(a, all, rest, x)
    else if IsFastest(all, x) then a.maxPoints == 0.0
    else if IsSlowest(all, x) then a.minPoints == 0.0
    else a.maxPoints * |rest| as real == (a.maxPoints - a.minPoints) * CountLess(rest, x) as real
  }

  lemma BetweenIsZeroIff(a: Activity, f: nat, count: nat)
    requires count > 1
    ensures Between(a, f, count) == 0.0 <==>
            a.maxPoints * (count - 1) as real == (a.maxPoints - a.minPoints) * f as real
  {
    var b, n := Between(a, f, count), (count - 1) as real;
    RanksAreSpaced(a, f, count);
    assert (a.maxPoints - b) * n == a.maxPoints * n - b * n;
    assert b * n == 0.0 <==> b == 0.0;
  }

  lemma NewTimeIsZeroIff(a: Activity, all: seq<real>, rest: seq<real>, x: real)
    requires OneMore(all, rest, x) && |rest| > 1 && x !in rest
    ensures RankingScore(a, all, x) == 0.0 <==> NewcomerKept(a, all, rest, x)
  {
    OneMoreMeaning(all, rest, x);
    NobodyFaster(all, x);
    BetweenIsZeroIff(a, CountLess(all, x), |all|);
  }

  lemma FewBefore(a: Activity, all: seq<real>, rest: seq<real>, x: real)
    requires OneMore(all, rest, x) && |rest| <= 1
    ensures TimedBase(a, all, x) == TimedBase(a, rest, x) <==> NewcomerKept(a, all, rest, x)
  {
    OneMoreMeaning(all, rest, x);
    NobodyFaster(all, x);
    assert rest != [] ==> rest == [rest[0]];
    if IsFastest(all, x) && |all| > 1 { assert CountLess(all, x) == 0; }
  }

  lemma NewcomerBase(a: Activity, all: seq<real>, rest: seq<real>, x: real)
    requires OneMore(all, rest, x)
    ensures TimedBase(a, all, x) == TimedBase(a, rest, x) <==> NewcomerKept(a, all, rest, x)
  {
    OneMoreMeaning(all, rest, x);
    if |rest| <= 1 {
      FewBefore(a, all, rest, x);
    } else if x in rest {
      RankKeptIff(a, all, rest, x, x);
    } else {
      NewTimeIsZeroIff(a, all, rest, x);
    }
  }

  lemma NewcomerIff(rules: Rules, e: Entry, all: seq<real>, rest: seq<real>)
    requires IsTimedEntry(rules, e) && OneMore(all, rest, e.data.time.value)
    ensures FinalScore(rules, e, all) == FinalScore(rules, e, rest) <==>
            NewcomerKept(rules.activities[e.activity], all, rest, e.data.time.value) || HeldAtZero(rules, e, all, rest)
  {
    NewcomerBase(rules.activities[e.activity], all, rest, e.data.time.value);
    SameFinalIff(rules, e, all, rest);
  }

  // ---- Whole tables ------------------------------------------------------------------------------------

  /** A row of a timed activity is ranked on the time its form gives. */
  ghost predicate Filed(w: World, rows: seq<Row>) {
    forall r | r in rows && Timed(w, r.entry.activity) :: r.timeScore == r.entry.data.time
  }

  /** Every ranked row but the one named keeps its end of the field, or is held at zero. */
  ghost predicate OthersKept(rules: Rules, rows: seq<Row>, a: int, id: int, all: seq<real>, rest: seq<real>) {
    a in rules.activities && forall r | r in rows && r.id != id && Ranks(a, r) ::
      RankKept(rules.activities[a], all, rest, TimeOf(r)) || HeldAtZero(rules, r.entry, all, rest)
  }

  lemma {:induction false} TimeListed(rows: seq<Row>, r: Row, a: int)
    requires r in rows && Ranks(a, r)
    ensures TimeOf(r) in Times(rows, a)
  {
    FilterMembers(rows, RanksIn(a));
    var ranked := Filter(rows, RanksIn(a));
    assert r in ranked;
    var i :| 0 <= i < |ranked| && ranked[i] == r;
    assert Times(rows, a)[i] == TimeOf(r);
  }

  /** A row that is not the one that comes or goes is worth the same exactly when it keeps its end. */
  lemma OtherWorthIff(rules: Rules, w: World, r: Row, a: int, all: seq<real>, rest: seq<real>, x: real)
    requires UsesFormula(rules, w) && Timed(w, a)
    requires OneMore(all, rest, x) && Rescored(a, None, r) && r.timeScore == r.entry.data.time
    requires r.timeScore.Some? ==> TimeOf(r) in rest
    ensures w.score(r.entry, all) == w.score(r.entry, rest) <==>
            (Ranks(a, r) ==> RankKept(w.activities[a], all, rest, TimeOf(r)) || HeldAtZero(rules, r.entry, all, rest))
  {
    assert w.score(r.entry, all) == FinalScore(rules, r.entry, all);
    assert w.score(r.entry, rest) == FinalScore(rules, r.entry, rest);
    if Ranks(a, r) { WorthKeptIff(rules, r.entry, all, rest, x); }
  }

  lemma {:induction false} OthersWorthIff(rules: Rules, w: World, rows: seq<Row>, a: int, id: int,
                                          all: seq<real>, rest: seq<real>, x: real)
    requires UsesFormula(rules, w) && Timed(w, a)
    requires Filed(w, rows) && OneMore(all, rest, x)
    requires forall r | r in rows && r.id != id && Ranks(a, r) :: TimeOf(r) in rest
    ensures (forall r | r in rows && r.id != id && Rescored(a, None, r) :: w.score(r.entry, all) == w.score(r.entry, rest))
            <==> OthersKept(rules, rows, a, id, all, rest)
  {
    forall r | r in rows && r.id != id && Rescored(a, None, r)
      ensures w.score(r.entry, all) == w.score(r.entry, rest) <==>
              (Ranks(a, r) ==> RankKept(w.activities[a], all, rest, TimeOf(r)) || HeldAtZero(rules, r.entry, all, rest))
    {
      OtherWorthIff(rules, w, r, a, all, rest, x);
    }
  }

  // ---- Deletions ---------------------------------------------------------------------------------------

  lemma {:induction false} SplitAt(rows: seq<Row>, r: Row) returns (left: seq<Row>, right: seq<Row>)
    requires IdsDistinct(rows) && r in rows
    ensures rows == left + [r] + right
    ensures forall y | y in left + right :: y in rows && y.id != r.id
  {
    var k :| 0 <= k < |rows| && rows[k] == r;
    left, right := rows[..k], rows[k + 1..];
    forall y | y in left + right ensures y in rows && y.id != r.id {
      var i :| 0 <= i < |left + right| && (left + right)[i] == y;
      assert y == rows[if i < k then i else i + 1];
    }
  }

  lemma TimesConcat(left: seq<Row>, right: seq<Row>, a: int)
    ensures Times(left + right, a) == Times(left, a) + Times(right, a)
  {
    FilterConcat(left, right, RanksIn(a));
    MapConcat(Filter(left, RanksIn(a)), Filter(right, RanksIn(a)), TimeOf);
  }

  /** A completed result of the activity adds its ranked time, if it has one, to those around it; any other adds none. */
  lemma TimesAround(left: seq<Row>, r: Row, right: seq<Row>, a: int)
    ensures Times(left + [r] + right, a) ==
            Times(left, a)
            + (if r.entry.activity == a && r.completed && r.timeScore.Some? then [r.timeScore.value] else [])
            + Times(right, a)
    ensures Times([], a) == []
  {
    TimesConcat(left + [r], right, a);
    TimesSnoc(left, r, a);
  }

  lemma OneInTheMiddle(left: seq<real>, x: real, right: seq<real>)
    ensures OneMore(left + [x] + right, left + right, x)
  {
  }

  lemma {:induction false} RemovedAround(left: seq<Row>, r: Row, right: seq<Row>)
    requires forall y | y in left + right :: y.id != r.id
    ensures Filter(left + [r] + right, OtherThan(r.id)) == left + right
  {
    var p := OtherThan(r.id);
    forall y | y in left ensures p(y) { assert y in left + right; }
    forall y | y in right ensures p(y) { assert y in left + right; }
    FilterConcat(left + [r], right, p);
    FilterSnoc(left, r, p);
    FilterAll(left, p);
    FilterAll(right, p);
    assert left + [] == left;
  }

  lemma {:induction false} RemovedTime(rows: seq<Row>, r: Row, a: int)
    requires IdsDistinct(rows) && r in rows && Ranks(a, r)
    ensures OneMore(Times(rows, a), Times(Filter(rows, OtherThan(r.id)), a), TimeOf(r))
  {
    var left, right := SplitAt(rows, r);
    RemovedAround(left, r, right);
    TimesConcat(left, right, a);
    TimesAround(left, r, right, a);
    OneInTheMiddle(Times(left, a), TimeOf(r), Times(right, a));
  }

  /**
   Under the repository's formula a removed ranked result leaves no stale score exactly when each
   remaining one was the fastest, or was the slowest and has somebody faster left, or is held at
   zero by its modifiers.
   */
  lemma {:induction false} DeletionStaleIff(rules: Rules, w: World, rows: seq<Row>, r: Row, a: int)
    requires UsesFormula(rules, w) && Timed(w, a)
    requires Filed(w, rows) && IdsDistinct(rows) && r in rows && Ranks(a, r) && Settled(w, rows, a)
    ensures var rest := Filter(rows, OtherThan(r.id));
            Settled(w, rest, a) <==> OthersKept(rules, rows, a, r.id, Times(rows, a), Times(rest, a))
  {
    var rest := Filter(rows, OtherThan(r.id));
    DeletionSettlesIff(w, rows, r.id, a);
    RemovedTime(rows, r, a);
    FilterMembers(rows, OtherThan(r.id));
    forall y | y in rows && y.id != r.id && Ranks(a, y) ensures TimeOf(y) in Times(rest, a) { TimeListed(rest, y, a); }
    OthersWorthIff(rules, w, rows, a, r.id, Times(rows, a), Times(rest, a), TimeOf(r));
  }

  // ---- Edits that turn the completion ---------------------------------------------------------------------

  /** Two versions of the table that differ in one row, which is ranked in only one of them. */
  lemma {:induction false} TurnedTime(rows: seq<Row>, unranked: Row -> Row, ranked: Row -> Row, r: Row, a: int)
    requires IdsDistinct(rows) && r in rows && !Ranks(a, unranked(r)) && Ranks(a, ranked(r))
    requires forall y | y in rows && y.id != r.id :: unranked(y) == ranked(y)
    ensures OneMore(Times(Map(rows, ranked), a), Times(Map(rows, unranked), a), TimeOf(ranked(r)))
  {
    var left, right := SplitAt(rows, r);
    MappedAround(left, r, right, unranked);
    MappedAround(left, r, right, ranked);
    MapSame(left, unranked, ranked);
    MapSame(right, unranked, ranked);
    TimesAround(Map(left, ranked), unranked(r), Map(right, ranked), a);
    TimesAround(Map(left, ranked), ranked(r), Map(right, ranked), a);
    OneInTheMiddle(Times(Map(left, ranked), a), TimeOf(ranked(r)), Times(Map(right, ranked), a));
    assert Times(Map(left, ranked), a) + [] == Times(Map(left, ranked), a);
  }

  lemma {:induction false} MappedAround(left: seq<Row>, r: Row, right: seq<Row>, g: Row -> Row)
    ensures Map(left + [r] + right, g) == Map(left, g) + [g(r)] + Map(right, g)
  {
  }

  /** The edit turns the completion of r, one way or the other. */
  predicate Turns(r: Row, e: Edit) { e.completed == Some(!r.completed) }

  lemma {:induction false} OthersAreKept(w: World, rows: seq<Row>, r: Row, e: Edit)
    requires IdsDistinct(rows) && r in rows
    ensures forall y | y in rows && y.id != r.id :: y in EditedRows(w, rows, r.id, e)
    ensures Edited(w, r, e) in EditedRows(w, rows, r.id, e)
    ensures forall y | y in EditedRows(w, rows, r.id, e) :: (y in rows && y.id != r.id) || y == Edited(w, r, e)
  {
    var after := EditedRows(w, rows, r.id, e);
    forall y | y in rows ensures Editing(w, r.id, e)(y) in after {
      var i :| 0 <= i < |rows| && rows[i] == y;
      assert after[i] == Editing(w, r.id, e)(y);
    }
    assert Editing(w, r.id, e)(r) == Edited(w, r, e);
    forall y | y in rows && y.id != r.id ensures y in after { assert Editing(w, r.id, e)(y) == y; }
    forall y | y in after ensures (y in rows && y.id != r.id) || y == Edited(w, r, e) {
      var i :| 0 <= i < |after| && after[i] == y;
      assert rows[i] in rows;
      if rows[i].id == r.id { IdNamesRow(rows, rows[i], r); }
    }
  }

  /** The populations before and after the turn, the fuller one first. */
  function Fuller(w: World, rows: seq<Row>, r: Row, a: int, e: Edit): seq<real> {
    Times(EditedRows(w, rows, r.id, if r.completed then Unflagged(e) else e), a)
  }

  function Emptier(w: World, rows: seq<Row>, r: Row, a: int, e: Edit): seq<real> {
    Times(EditedRows(w, rows, r.id, if r.completed then e else Unflagged(e)), a)
  }

  lemma TurnMovesOneTime(w: World, rows: seq<Row>, r: Row, a: int, e: Edit)
    requires IdsDistinct(rows) && r in rows && r.entry.activity == a && Turns(r, e)
    requires Edited(w, r, e).timeScore.Some?
    ensures OneMore(Fuller(w, rows, r, a, e), Emptier(w, rows, r, a, e), TimeOf(Edited(w, r, e)))
  {
    var unranked := Editing(w, r.id, if r.completed then e else Unflagged(e));
    var ranked := Editing(w, r.id, if r.completed then Unflagged(e) else e);
    TurnedTime(rows, unranked, ranked, r, a);
  }

  lemma {:induction false} OthersListed(w: World, rows: seq<Row>, r: Row, a: int, e: Edit)
    requires IdsDistinct(rows) && r in rows
    ensures forall y | y in rows && y.id != r.id && Ranks(a, y) :: TimeOf(y) in Times(EditedRows(w, rows, r.id, e), a)
  {
    OthersAreKept(w, rows, r, e);
    forall y | y in rows && y.id != r.id && Ranks(a, y) ensures TimeOf(y) in Times(EditedRows(w, rows, r.id, e), a) {
      TimeListed(EditedRows(w, rows, r.id, e), y, a);
    }
  }

  /** Whether the edited row's own score on the emptier field is its score on the fuller one. */
  predicate OwnKept(rules: Rules, w: World, r: Row, a: int, e: Edit, all: seq<real>, rest: seq<real>) {
    a in rules.activities && Edited(w, r, e).timeScore.Some? ==>
      || NewcomerKept(rules.activities[a], all, rest, TimeOf(Edited(w, r, e)))
      || HeldAtZero(rules, Edited(w, r, e).entry, all, rest)
  }

  lemma WorthAfterTurn(rules: Rules, w: World, rows: seq<Row>, r: Row, a: int, e: Edit, s: seq<real>, t: seq<real>)
    requires IdsDistinct(rows) && r in rows && r.entry.activity == a && Turns(r, e)
    ensures SameWorth(w, EditedRows(w, rows, r.id, e), a, s, t) <==>
            && (forall y | y in rows && y.id != r.id && Rescored(a, None, y) :: w.score(y.entry, s) == w.score(y.entry, t))
            && (!r.completed ==> w.score(Edited(w, r, e).entry, s) == w.score(Edited(w, r, e).entry, t))
  {
    OthersAreKept(w, rows, r, e);
    assert Rescored(a, None, Edited(w, r, e)) <==> !r.completed;
  }

  /**
   Under the repository's formula an edit that carries a time and turns the completion leaves no
   stale score exactly when every other ranked result keeps its end of the field and, if the edited
   one joins it, its score on the field without it is its score on the field with it.
   */
  lemma {:induction false} TurnStaleIff(rules: Rules, w: World, rows: seq<Row>, r: Row, a: int, e: Edit)
    requires UsesFormula(rules, w) && Timed(w, a)
    requires Filed(w, rows) && IdsDistinct(rows) && r in rows && r.entry.activity == a && Turns(r, e)
    requires e.data.Some? && e.data.value.time.Some?
    ensures var all, rest := Fuller(w, rows, r, a, e), Emptier(w, rows, r, a, e);
            Settled(w, RowsWithEdit(w, rows, r.id, a, e), a) <==>
            OthersKept(rules, rows, a, r.id, all, rest) && (!r.completed ==> OwnKept(rules, w, r, a, e, all, rest))
  {
    var all, rest, x := Fuller(w, rows, r, a, e), Emptier(w, rows, r, a, e), e.data.value.time.value;
    EditSettlesIff(w, rows, r.id, a, e);
    WorthAfterTurn(rules, w, rows, r, a, e, all, rest);
    WorthAfterTurn(rules, w, rows, r, a, e, rest, all);
    TurnMovesOneTime(w, rows, r, a, e);
    OthersListed(w, rows, r, a, if r.completed then e else Unflagged(e));
    OthersWorthIff(rules, w, rows, a, r.id, all, rest, x);
    NewcomerIff(rules, Edited(w, r, e).entry, all, rest);
  }

  lemma OwnStored(w: World, rows: seq<Row>, r: Row, a: int, e: Edit)
    requires IdsDistinct(rows) && r in rows && r.entry.activity == a && Turns(r, e) && e.data == None
    ensures StillRight(w, rows, r.id, a, e) <==>
            var s, t := Times(rows, a), Times(EditedRows(w, rows, r.id, e), a);
            && (forall y | y in rows && y.id != r.id && Rescored(a, None, y) :: w.score(y.entry, s) == w.score(y.entry, t))
            && (!r.completed ==> r.final == Some(w.score(Edited(w, r, e).entry, t)))
  {
    var after := EditedRows(w, rows, r.id, e);
    forall i | 0 <= i < |rows|
      ensures rows[i] in rows
      ensures rows[i].id == r.id ==> rows[i] == r && after[i] == Edited(w, r, e)
      ensures rows[i].id != r.id ==> after[i] == rows[i]
    {
      if rows[i].id == r.id { IdNamesRow(rows, rows[i], r); }
    }
    forall y | y in rows ensures exists i :: 0 <= i < |rows| && rows[i] == y {}
    assert Rescored(a, None, Edited(w, r, e)) <==> !r.completed;
  }

  lemma {:induction false} BareEditKeepsTimes(w: World, rows: seq<Row>, id: int, a: int, e: Edit)
    requires e.data == None && e.completed == None
    ensures Times(EditedRows(w, rows, id, e), a) == Times(rows, a)
  {
    assert KeepsTimes(Editing(w, id, e), rows, a);
    TimesKept(rows, Editing(w, id, e), a);
  }

  /** The same for an edit without a form, which must also store what a joining result is then worth. */
  lemma {:induction false} BareTurnStaleIff(rules: Rules, w: World, rows: seq<Row>, r: Row, a: int, e: Edit)
    requires UsesFormula(rules, w) && Timed(w, a)
    requires Filed(w, rows) && IdsDistinct(rows) && r in rows && r.entry.activity == a && Turns(r, e)
    requires e.data == None && r.timeScore.Some? && Settled(w, rows, a)
    ensures var all, rest := Fuller(w, rows, r, a, e), Emptier(w, rows, r, a, e);
            Settled(w, RowsWithEdit(w, rows, r.id, a, e), a) <==>
            && OthersKept(rules, rows, a, r.id, all, rest)
            && (!r.completed ==> r.final == Some(w.score(Edited(w, r, e).entry, all)))
  {
    var all, rest := Fuller(w, rows, r, a, e), Emptier(w, rows, r, a, e);
    BareEditSettlesIff(w, rows, r.id, a, e);
    OwnStored(w, rows, r, a, e);
    BareEditKeepsTimes(w, rows, r.id, a, Unflagged(e));
    TurnMovesOneTime(w, rows, r, a, e);
    OthersListed(w, rows, r, a, if r.completed then e else Unflagged(e));
    OthersWorthIff(rules, w, rows, a, r.id, all, rest, TimeOf(r));
  }

  // ---- Edits of the modifiers only --------------------------------------------------------------------------

  /** Both sets of modifiers come to the same: they add the same, or leave nothing of what the result is worth. */
  predicate ModifiersAlike(rules: Rules, x: Entry, y: Entry, times: seq<real>) {
    var before := ModifierSum(x.shots, rules.bonusPerShot, x.penalties);
    var after := ModifierSum(y.shots, rules.bonusPerShot, y.penalties);
    before == after || (BaseOf(rules, x, times) + before <= 0.0 && BaseOf(rules, x, times) + after <= 0.0)
  }

  lemma ModifiersIff(rules: Rules, x: Entry, y: Entry, times: seq<real>)
    requires SameButModifiers(x, y)
    ensures FinalScore(rules, x, times) == FinalScore(rules, y, times) <==> ModifiersAlike(rules, x, y, times)
  {
    assert BaseOf(rules, x, times) == BaseOf(rules, y, times);
  }

  lemma AgreeAtTheRow(w: World, rows: seq<Row>, r: Row, a: int, e: Edit)
    requires IdsDistinct(rows) && r in rows && r.entry.activity == a
    ensures ModifiersAgree(w, rows, a, r.id, e) <==>
            (r.completed ==> w.score(Edited(w, r, e).entry, Times(rows, a)) == w.score(r.entry, Times(rows, a)))
  {
    forall i | 0 <= i < |rows|
      ensures rows[i].id == r.id ==> rows[i] == r
    {
      assert rows[i] in rows;
      if rows[i].id == r.id { IdNamesRow(rows, rows[i], r); }
    }
    var k :| 0 <= k < |rows| && rows[k] == r;
  }

  /**
   Under the repository's formula an edit without a form that keeps the completion leaves no stale
   score exactly when the row is unfinished, or its shots and penalties add up to what they did, or
   they left and leave nothing of the result.
   */
  lemma BareModifiersStaleIff(rules: Rules, w: World, rows: seq<Row>, r: Row, a: int, e: Edit)
    requires UsesFormula(rules, w) && Timed(w, a) && IdsDistinct(rows) && r in rows && r.entry.activity == a
    requires e.data == None && !Turns(r, e) && Settled(w, rows, a)
    ensures Settled(w, RowsWithEdit(w, rows, r.id, a, e), a) <==>
            (r.completed ==> ModifiersAlike(rules, r.entry, Edited(w, r, e).entry, Times(rows, a)))
  {
    forall x | x in rows && x.id == r.id ensures x == r { IdNamesRow(rows, x, r); }
    BareEditSettlesIff(w, rows, r.id, a, e);
    BareEditKeepingFlag(w, rows, r.id, a, e);
    AgreeAtTheRow(w, rows, r, a, e);
    var after, times := Edited(w, r, e).entry, Times(rows, a);
    assert w.score(after, times) == FinalScore(rules, after, times);
    assert w.score(r.entry, times) == FinalScore(rules, r.entry, times);
    ModifiersIff(rules, r.entry, after, times);
  }

  // ---- Forms and ranked times go together -------------------------------------------------------------------

  ghost predicate KeepsFiling(w: World, g: Row -> Row, rows: seq<Row>) {
    forall r | r in rows :: g(r).entry.activity == r.entry.activity
      && (r.timeScore == r.entry.data.time && Timed(w, r.entry.activity) ==> g(r).timeScore == g(r).entry.data.time)
  }

  lemma {:induction false} FiledMap(w: World, g: Row -> Row, rows: seq<Row>)
    requires Filed(w, rows) && KeepsFiling(w, g, rows)
    ensures Filed(w, Map(rows, g))
  {
    var after := Map(rows, g);
    forall r | r in after && Timed(w, r.entry.activity) ensures r.timeScore == r.entry.data.time {
      var i :| 0 <= i < |after| && after[i] == r;
      assert rows[i] in rows && r == g(rows[i]);
    }
  }

  lemma FiledRescore(w: World, rows: seq<Row>, a: int, exclude: Option<int>)
    requires Filed(w, rows)
    ensures Filed(w, Rescore(w, rows, a, exclude))
  {
    FiledMap(w, RescoreRow(w, a, exclude, TimesFor(rows, a, exclude)), rows);
  }

  lemma FiledEdit(w: World, rows: seq<Row>, id: int, a: int, e: Edit)
    requires Filed(w, rows)
    ensures Filed(w, RowsWithEdit(w, rows, id, a, e))
  {
    FiledMap(w, Editing(w, id, e), rows);
    var held := EditedRows(w, rows, id, Unflagged(e));
    FiledMap(w, Editing(w, id, Unflagged(e)), rows);
    FiledMap(w, ScoringOne(w, id, Times(held, a)), held);
    var scored := ScoredOnce(w, held, id, a);
    FiledRescore(w, scored, a, None);
    FiledMap(w, Flagging(FlagOf(id, e)), Rescore(w, scored, a, None));
  }

  lemma FiledAmend(w: World, rows: seq<Row>, r: Row, entry: Entry)
    requires Filed(w, rows) && IdsDistinct(rows) && r in rows && SameButModifiers(entry, r.entry)
    ensures Filed(w, RowsAmended(w, rows, r.id, entry))
  {
    forall x | x in rows && x.id == r.id ensures x == r { IdNamesRow(rows, x, r); }
    FiledMap(w, Amending(r.id, entry), rows);
    var amended := Map(rows, Amending(r.id, entry));
    FiledMap(w, ScoringOne(w, r.id, Times(amended, entry.activity)), amended);
  }

  lemma FiledAmended(w: World, b: Board, activity: int, team: int, entry: Entry -> Entry)
    requires Keyed(b) && Filed(w, b.rows) && forall e :: SameButModifiers(entry(e), e)
    ensures Filed(w, Amended(w, b, ResultOf(b.rows, activity, team), entry).board.rows)
  {
    ResultOfMeaning(b.rows, activity, team);
    if ResultOf(b.rows, activity, team).Some? {
      var r := ResultOf(b.rows, activity, team).value;
      FiledAmend(w, b.rows, r, entry(r.entry));
    }
  }

  lemma {:induction false} StepKeepsFiled(w: World, b: Board, op: Op)
    requires Keyed(b) && Filed(w, b.rows)
    ensures Filed(w, Changed(w, b, op).board.rows)
  {
    match op
    case Submit(e) => FiledRescore(w, b.rows + [NewRow(w, b.rows, e)], e.activity, Some(NewRow(w, b.rows, e).id));
    case EditResult(id, edit) =>
      if FirstRow(b.rows, HasId(id)).Some? {
        FiledEdit(w, b.rows, id, FirstRow(b.rows, HasId(id)).value.entry.activity, edit);
      }
    case DeleteResult(id) => FilterMembers(b.rows, OtherThan(id));
    case ApplyPenalty(t, activity, kind, amount) => FiledAmended(w, b, activity, t, Penalising(kind, amount));
    case ApplyShots(t, activity, shots) => FiledAmended(w, b, activity, t, Shooting(shots));
    case _ =>
  }

  /** In every run a timed result is ranked on the time its form gives, as the conditions above take it to be. */
  lemma {:induction false} RunKeepsFiled(w: World, b: Board, ops: seq<Op>)
    requires Keyed(b) && Filed(w, b.rows)
    ensures Filed(w, Run(w, b, ops).rows)
  {
    if ops != [] {
      var front := ops[..|ops| - 1];
      RunKeepsFiled(w, b, front);
      RunKeepsKeys(w, b, front);
      StepKeepsFiled(w, Run(w, b, front), ops[|ops| - 1]);
    }
  }

  // ---- The conditions are needed ------------------------------------------------------------------------

  /** Two teams in one timed race worth 100 to the first and 50 to the last. */
  function Race(): Rules {
    Rules(map[1 := Activity(true, 100.0, 50.0, Some(7))], map[], 0.0, (activity: int, form: Data, size: nat) => 0.0)
  }

  function RaceWorld(): World {
    World(Race().activities, map[7 := 1], {}, (e: Entry, times: seq<real>) => FinalScore(Race(), e, times),
          (e: Entry) => true, (team: int) => 0)
  }

  function Finisher(id: int, time: real, score: real): Row {
    Row(id, Entry(1, id, Data(Some(time), 0), 0, []), Some(time), Some(score), true)
  }

  lemma RaceScores()
    ensures var w, last := RaceWorld(), Entry(1, 2, Data(Some(20.0), 0), 0, []);
            && w.score(Entry(1, 1, Data(Some(10.0), 0), 0, []), [10.0, 20.0]) == 100.0
            && w.score(last, [10.0, 20.0]) == 50.0 && w.score(last, [20.0]) == 100.0
            && w.score(last.(penalties := [Penalty("vomit", 10)]), [10.0, 20.0]) == 40.0
  {
    var times := [10.0, 20.0];
    assert times[..1] == [10.0] && [10.0][..0] == [];
    assert CountLess([10.0], 10.0) == 0 && CountLess([10.0], 20.0) == 1;
    assert CountLess(times, 10.0) == 0 && CountLess(times, 20.0) == 1;
    assert times[0] in times && times[1] in times;
    assert PenaltySum([]) == 0;
    assert [Penalty("vomit", 10)][..0] == [];
    assert PenaltySum([Penalty("vomit", 10)]) == 10;
  }

  lemma TimesOfTwo(x: Row, y: Row)
    requires Ranks(1, x) && Ranks(1, y)
    ensures Times([x, y], 1) == [TimeOf(x), TimeOf(y)] && Times([y], 1) == [TimeOf(y)]
  {
    TimesOfOne(x, [x]);
    TimesOfOne(y, [y]);
    TimesConcat([x], [y], 1);
    assert [x] + [y] == [x, y];
  }

  lemma TimesOfOne(x: Row, rows: seq<Row>)
    requires Ranks(1, x) && rows == [x]
    ensures Times(rows, 1) == [TimeOf(x)]
  {
    var none: seq<Row> := [];
    TimesSnoc(none, x, 1);
    assert none + [x] == rows;
    assert Times(none, 1) == [];
  }

  lemma OnlyRaceTimed(w: World, rows: seq<Row>)
    requires w.activities == Race().activities
    ensures AllSettled(w, rows) <==> ScoredRight(w, rows, 1)
  {
    assert forall a :: Timed(w, a) <==> a == 1;
    SettledIsScoredRight(w, rows, 1);
  }

  predicate Holds(w: World, r: Row, times: seq<real>) { r.final == Some(w.score(r.entry, times)) }

  lemma TwoRight(w: World, first: Row, last: Row)
    requires Ranks(1, first) && Ranks(1, last)
    ensures var times := [TimeOf(first), TimeOf(last)];
            ScoredRight(w, [first, last], 1) <==> Holds(w, first, times) && Holds(w, last, times)
    ensures ScoredRight(w, [last], 1) <==> Holds(w, last, [TimeOf(last)])
  {
    var two, one := [first, last], [last];
    TimesOfTwo(first, last);
    assert two[0] in two && two[1] in two && one[0] in one;
    assert Rescored(1, None, first) && Rescored(1, None, last);
  }

  /** Activity 1 alone is timed, and these are its results. */
  lemma TwoSettledIff(w: World, first: Row, last: Row)
    requires w.activities == Race().activities
    requires Ranks(1, first) && Ranks(1, last)
    ensures var times := [TimeOf(first), TimeOf(last)];
            AllSettled(w, [first, last]) <==> Holds(w, first, times) && Holds(w, last, times)
    ensures AllSettled(w, [last]) <==> Holds(w, last, [TimeOf(last)])
  {
    OnlyRaceTimed(w, [first, last]);
    OnlyRaceTimed(w, [last]);
    TwoRight(w, first, last);
  }

  lemma RemovesFirst(x: Row, y: Row)
    requires x.id == 1 && y.id != 1
    ensures Filter([x, y], OtherThan(1)) == [y] && FirstRow([x, y], HasId(1)) == Some(x)
  {
    assert [x, y][..1] == [x] && [x][..0] == [];
    assert Filter([x], OtherThan(1)) == [] && Filter([x], HasId(1)) == [x];
    assert Filter([x, y], HasId(1)) == [x];
  }

  lemma DeletionOfFirst(w: World, first: Row, last: Row)
    requires w.activities == Race().activities && Ranks(1, first) && Ranks(1, last) && first.id == 1 && last.id != 1
    requires var times := [TimeOf(first), TimeOf(last)]; Holds(w, first, times) && Holds(w, last, times)
    requires !Holds(w, last, [TimeOf(last)])
    ensures var b := Board([first, last], [], map[]);
            AllSettled(w, b.rows) && !AllSettled(w, Changed(w, b, DeleteResult(1)).board.rows)
  {
    TwoSettledIff(w, first, last);
    RemovesFirst(first, last);
  }

  /** Removing the winner leaves the loser on a loser's score: the deletion does not rank again. */
  lemma DeletionLeavesStaleScore()
    ensures var w := RaceWorld(); var b := Board([Finisher(1, 10.0, 100.0), Finisher(2, 20.0, 50.0)], [], map[]);
            AllSettled(w, b.rows) && !AllSettled(w, Changed(w, b, DeleteResult(1)).board.rows)
  {
    RaceScores();
    DeletionOfFirst(RaceWorld(), Finisher(1, 10.0, 100.0), Finisher(2, 20.0, 50.0));
  }

  lemma BareEditOfSecond(w: World, first: Row, last: Row, edit: Edit)
    requires first.id != 2 && last.id == 2 && edit.data == None
    ensures RowsWithEdit(w, [first, last], 2, 1, edit) == [first, Edited(w, last, edit)]
  {
  }

  lemma EditOfSecond(w: World, first: Row, last: Row, edit: Edit)
    requires w.activities == Race().activities && Ranks(1, first) && Ranks(1, last) && first.id != 2 && last.id == 2
    requires edit.data == None && edit.completed == None
    requires var times := [TimeOf(first), TimeOf(last)];
             Holds(w, first, times) && Holds(w, last, times) && !Holds(w, Edited(w, last, edit), times)
    ensures AllSettled(w, [first, last]) && !AllSettled(w, RowsWithEdit(w, [first, last], 2, 1, edit))
  {
    TwoSettledIff(w, first, last);
    BareEditOfSecond(w, first, last, edit);
    TwoSettledIff(w, first, Edited(w, last, edit));
  }

  /** Editing only the penalties stores them and leaves the score as it was. */
  lemma BareEditLeavesStaleScore()
    ensures var w, rows := RaceWorld(), [Finisher(1, 10.0, 100.0), Finisher(2, 20.0, 50.0)];
            var edit := Edit(None, None, Some([Penalty("vomit", 10)]), None);
            AllSettled(w, rows) && !AllSettled(w, RowsWithEdit(w, rows, 2, 1, edit))
  {
    RaceScores();
    EditOfSecond(RaceWorld(), Finisher(1, 10.0, 100.0), Finisher(2, 20.0, 50.0),
                 Edit(None, None, Some([Penalty("vomit", 10)]), None));
  }

  lemma NoTime(x: Row)
    requires !x.completed
    ensures Times([x], 1) == []
  {
    var none: seq<Row> := [];
    TimesSnoc(none, x, 1);
    assert none + [x] == [x] && Times(none, 1) == [];
  }

  lemma TimesOfLast(x: Row, y: Row)
    requires !x.completed && Ranks(1, y)
    ensures Times([x, y], 1) == [TimeOf(y)]
  {
    NoTime(x);
    TimesSnoc([x], y, 1);
    assert [x] + [y] == [x, y];
  }

  lemma EditOfFirst(w: World, first: Row, last: Row, edit: Edit)
    requires first.id == 1 && last.id != 1
    ensures EditedRows(w, [first, last], 1, edit) == [Edited(w, first, edit), last]
  {
  }

  lemma UnfinishingFirst(w: World, first: Row, last: Row, edit: Edit)
    requires w.activities == Race().activities && Ranks(1, first) && Ranks(1, last) && first.id == 1 && last.id != 1
    requires edit.data.Some? && edit.completed == Some(false) && Edited(w, first, Unflagged(edit)) == first
    requires w.score(last.entry, [TimeOf(first), TimeOf(last)]) != w.score(last.entry, [TimeOf(last)])
    ensures !Settled(w, RowsWithEdit(w, [first, last], 1, 1, edit), 1)
  {
    var after := EditedRows(w, [first, last], 1, edit);
    EditOfFirst(w, first, last, Unflagged(edit));
    EditOfFirst(w, first, last, edit);
    TimesOfTwo(first, last);
    TimesOfLast(Edited(w, first, edit), last);
    EditSettlesIff(w, [first, last], 1, 1, edit);
    assert after[1] in after;
  }

  /**
   Unfinishing the winner with its form leaves the loser on a loser's score: the rescore still
   counts the winner, whose flag is stored only afterwards.
   */
  lemma UnfinishingLeavesStaleScore()
    ensures var w, rows := RaceWorld(), [Finisher(1, 10.0, 100.0), Finisher(2, 20.0, 50.0)];
            var edit := Edit(Some(Data(Some(10.0), 0)), None, None, Some(false));
            AllSettled(w, rows) && !Settled(w, RowsWithEdit(w, rows, 1, 1, edit), 1)
  {
    RaceScores();
    TwoSettledIff(RaceWorld(), Finisher(1, 10.0, 100.0), Finisher(2, 20.0, 50.0));
    UnfinishingFirst(RaceWorld(), Finisher(1, 10.0, 100.0), Finisher(2, 20.0, 50.0),
                     Edit(Some(Data(Some(10.0), 0)), None, None, Some(false)));
  }

  /** A result between the two finishers that is not completed yet. */
  function Latecomer(): Row { Row(3, Entry(1, 3, Data(Some(15.0), 0), 0, []), Some(15.0), None, false) }

  lemma LatecomerScores()
    ensures var w, e := RaceWorld(), Latecomer().entry;
            w.score(e, [10.0, 20.0]) == 0.0 && w.score(e, [10.0, 20.0, 15.0]) == 75.0
  {
    var times := [10.0, 20.0, 15.0];
    assert times[..2] == [10.0, 20.0] && [10.0, 20.0][..1] == [10.0] && [10.0][..0] == [];
    assert CountLess([10.0], 15.0) == 1 && CountLess([10.0, 20.0], 15.0) == 1 && CountLess(times, 15.0) == 1;
    assert times[1] in times && times[2] in times;
    assert 1 as real / 2 as real == 0.5;
    assert PenaltySum([]) == 0;
  }

  lemma TimesOfThree(x: Row, y: Row, z: Row)
    requires Ranks(1, x) && Ranks(1, y)
    ensures Times([x, y, z], 1) == [TimeOf(x), TimeOf(y)] + (if Ranks(1, z) then [TimeOf(z)] else [])
  {
    TimesOfTwo(x, y);
    TimesSnoc([x, y], z, 1);
    assert [x, y] + [z] == [x, y, z];
  }

  lemma FinishingThird(w: World, x: Row, y: Row, z: Row, edit: Edit)
    requires w.activities == Race().activities && Ranks(1, x) && Ranks(1, y) && x.id != 3 && y.id != 3 && z.id == 3
    requires !z.completed && z.entry.activity == 1 && z.timeScore.Some?
    requires edit.data.Some? && edit.completed == Some(true) && Edited(w, z, Unflagged(edit)) == z
    ensures var after := RowsWithEdit(w, [x, y, z], 3, 1, edit);
            && after[2].completed && after[2].final == Some(w.score(z.entry, [TimeOf(x), TimeOf(y)]))
            && Times(after, 1) == [TimeOf(x), TimeOf(y), TimeOf(z)] && after[2].entry == z.entry
  {
    var rows := [x, y, z];
    assert EditedRows(w, rows, 3, Unflagged(edit)) == rows;
    assert EditedRows(w, rows, 3, edit) == [x, y, z.(completed := true)];
    TimesOfThree(x, y, z);
    assert Times(rows, 1) == [TimeOf(x), TimeOf(y)];
    TimesOfThree(x, y, z.(completed := true));
    var done := z.(completed := true);
    assert EditedRows(w, rows, 3, edit)[2] == done && done.entry == z.entry && Rescored(1, None, done);
    EditedRow(w, rows, 3, 1, edit, 2);
    TimesOfEdit(w, rows, 3, 1, edit);
    var third := RowsWithEdit(w, rows, 3, 1, edit)[2];
    assert third.(final := None).entry == z.entry && third.(final := None).completed;
  }

  /** Finishing a result with its form beside two others scores it on a field it is not part of: it gets nothing. */
  lemma FinishingScoresZero()
    ensures var w, rows := RaceWorld(), [Finisher(1, 10.0, 100.0), Finisher(2, 20.0, 50.0), Latecomer()];
            var after := RowsWithEdit(w, rows, 3, 1, Edit(Some(Data(Some(15.0), 0)), None, None, Some(true)));
            && after[2].completed && after[2].final == Some(0.0)
            && w.score(after[2].entry, Times(after, 1)) == 75.0
  {
    LatecomerScores();
    FinishingThird(RaceWorld(), Finisher(1, 10.0, 100.0), Finisher(2, 20.0, 50.0), Latecomer(),
                   Edit(Some(Data(Some(15.0), 0)), None, None, Some(true)));
  }
}
