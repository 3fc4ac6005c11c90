/**
 What a team's total and list are made of, one row and one award at a time, and how giving, revoking
 and buying move a total.
 */
module TotalLaws {
  import opened BoardLaws
  import opened Lists
  import opened ScoreRuns
  import opened Scoring
  import opened Sets
  import opened Wrappers

  /** A team's points before rounding. */
  function Points(w: World, rows: seq<Row>, awards: seq<Award>, team: int): real {
    Sum(rows, TeamWorth(w, team)) + Sum(awards, AwardWorth(team))
  }

  /** What a result is worth to a team: its score, once completed and scored, for an activity at a checkpoint. */
  function Worth(w: World, r: Row, team: int): real {
    if r.entry.team == team && r.completed && r.final.Some?
       && r.entry.activity in w.activities && w.activities[r.entry.activity].checkpoint.Some?
    then r.final.value else 0.0
  }

  lemma {:induction false} SumAround<T>(left: seq<T>, x: T, right: seq<T>, f: T -> real)
    ensures Sum(left + [x] + right, f) == Sum(left + right, f) + f(x)
  {
    SumConcat(left + [x], right, f);
    SumConcat(left, right, f);
    SumSnoc(left, x, f);
  }

  /** Totals are rounded points, and without results and awards there are none. */
  lemma TotalIsPoints(w: World, rows: seq<Row>, awards: seq<Award>, team: int)
    ensures TotalOf(w, rows, awards, team) == Round(Points(w, rows, awards, team))
    ensures Points(w, [], [], team) == 0.0
  {
  }

  /** A result adds what it is worth, wherever it stands: an unfinished or unscored one nothing. */
  lemma {:induction false} ResultAdds(w: World, left: seq<Row>, r: Row, right: seq<Row>, awards: seq<Award>, team: int)
    ensures Points(w, left + [r] + right, awards, team) == Points(w, left + right, awards, team) + Worth(w, r, team)
  {
    SumAround(left, r, right, TeamWorth(w, team));
  }

  /** An award adds its points to its team while it is active, and nothing otherwise. */
  lemma {:induction false} AwardAdds(w: World, rows: seq<Row>, left: seq<Award>, a: Award, right: seq<Award>, team: int)
    ensures Points(w, rows, left + [a] + right, team) ==
            Points(w, rows, left + right, team) + (if a.team == team && a.active then a.points else 0.0)
  {
    SumAround(left, a, right, AwardWorth(team));
  }

  // ---- The list ----------------------------------------------------------------------------------

  /** The result counts for the team at this checkpoint. */
  predicate CountsAt(w: World, r: Row, team: int, post: int) {
    && r.entry.team == team && r.completed && r.final.Some?
    && r.entry.activity in w.activities && w.activities[r.entry.activity].checkpoint == Some(post)
  }

  function PostPoints(w: World, rows: seq<Row>, team: int, post: int): real {
    if post in ScoreMap(w, rows, team) then ScoreMap(w, rows, team)[post] else 0.0
  }

  /** A checkpoint is scored when some result counts there, in its order on the route, or 0 if it has none. */
  lemma ScoredCheckpoints(w: World, rows: seq<Row>, team: int, post: int)
    ensures post in ScoreMap(w, rows, team) <==> exists r :: r in rows && CountsAt(w, r, team, post)
    ensures post in OrderMap(w, rows, team) <==> post in ScoreMap(w, rows, team)
    ensures post in OrderMap(w, rows, team) ==>
              OrderMap(w, rows, team)[post] == if post in w.orders then w.orders[post] else 0
  {
    if r :| r in rows && CountsAt(w, r, team, post) { assert Counts(w, r) && CheckpointOf(w, r).value == post; }
    if post in PostsOf(w, rows, team) {
      var r :| r in rows && r.entry.team == team && Counts(w, r) && CheckpointOf(w, r).value == post;
      assert CountsAt(w, r, team, post);
    }
  }

  lemma {:induction false} PostPointsAreSum(w: World, rows: seq<Row>, team: int, post: int)
    ensures PostPoints(w, rows, team, post) == Sum(rows, PostWorth(w, team, post))
  {
    if post !in PostsOf(w, rows, team) { NoWorthOutside(w, rows, team, post); }
  }

  /** A result adds its score to the checkpoint it counts at, and to no other. */
  lemma {:induction false} ResultAddsAt(w: World, left: seq<Row>, r: Row, right: seq<Row>, team: int, post: int)
    ensures PostPoints(w, left + [r] + right, team, post) ==
            PostPoints(w, left + right, team, post) + (if CountsAt(w, r, team, post) then r.final.value else 0.0)
    ensures PostPoints(w, [], team, post) == 0.0
  {
    PostPointsAreSum(w, left + [r] + right, team, post);
    PostPointsAreSum(w, left + right, team, post);
    SumAround(left, r, right, PostWorth(w, team, post));
  }

  // ---- Awards --------------------------------------------------------------------------------------

  /** A refreshed team has the rounded points of the tables as they now are. */
  lemma RefreshedTotal(w: World, c: Change, team: int)
    requires team in c.board.teams && team in c.stale
    ensures var after := RecomputeAll(w, c.board, c.stale);
            team in after.teams && after.teams[team].total == Round(Points(w, after.rows, after.awards, team))
  {
  }

  /** Giving an award raises the points of its team, and only of it, by exactly the award. */
  lemma {:induction false} GivingAdds(w: World, b: Board, team: int, points: real, other: int)
    requires team in b.teams
    ensures var after := Step(w, b, GiveAward(team, points));
            && after.rows == b.rows && team in after.teams
            && Points(w, after.rows, after.awards, other) ==
               Points(w, b.rows, b.awards, other) + (if other == team then points else 0.0)
            && after.teams[team].total == Round(Points(w, b.rows, b.awards, team) + points)
  {
    var a := Award(NextAwardId(b.awards), team, points, true);
    assert b.awards + [a] + [] == b.awards + [a] && b.awards + [] == b.awards;
    AwardAdds(w, b.rows, b.awards, a, [], other);
    AwardAdds(w, b.rows, b.awards, a, [], team);
    RefreshedTotal(w, Changed(w, b, GiveAward(team, points)), team);
  }

  /** A hint that costs something is such an award; a free one changes nothing, nor does a missing team. */
  lemma BuyingGives(w: World, b: Board, team: int, cost: int, points: real)
    ensures Step(w, b, BuyHint(team, cost)) == if cost == 0 then b else Step(w, b, GiveAward(team, cost as real))
    ensures team !in b.teams ==> Step(w, b, GiveAward(team, points)) == b && Step(w, b, BuyHint(team, cost)) == b
  {
    if cost == 0 { NothingHappens(w, b, BuyHint(team, cost)); }
    if team !in b.teams {
      NothingHappens(w, b, GiveAward(team, points));
      NothingHappens(w, b, BuyHint(team, cost));
    }
  }

  lemma {:induction false} RevokedAt(awards: seq<Award>, k: nat)
    requires AwardIdsDistinct(awards) && k < |awards|
    ensures Map(awards, Revoking(awards[k].id)) == awards[k := awards[k].(active := false)]
  {
    forall i | 0 <= i < |awards| && i != k ensures awards[i].id != awards[k].id { if i < k {} else {} }
  }

  lemma {:induction false} AwardFound(awards: seq<Award>, k: nat)
    requires AwardIdsDistinct(awards) && k < |awards|
    ensures AwardById(awards, awards[k].id) == Some(awards[k])
  {
    var p := (a: Award) => a.id == awards[k].id;
    FilterMembers(awards, p);
    assert awards[k] in Filter(awards, p);
    AwardByIdMeaning(awards, awards[k].id);
    AwardIdNames(awards, AwardById(awards, awards[k].id).value, awards[k]);
  }

  /** Revoking an award only clears its flag. */
  lemma {:induction false} RevocationStored(w: World, b: Board, k: nat)
    requires Keyed(b) && k < |b.awards|
    ensures var after := Step(w, b, RevokeAward(b.awards[k].id));
            after.rows == b.rows && after.awards == b.awards[k := b.awards[k].(active := false)]
    ensures var a, c := b.awards[k], Changed(w, b, RevokeAward(b.awards[k].id)); c.stale == {a.team} && c.board.teams == b.teams
  {
    AwardFound(b.awards, k);
    RevokedAt(b.awards, k);
  }

  lemma {:induction false} InactiveAddsNothing(w: World, rows: seq<Row>, awards: seq<Award>, k: nat, team: int)
    requires k < |awards|
    ensures var a := awards[k];
            Points(w, rows, awards[k := a.(active := false)], team) ==
            Points(w, rows, awards, team) - (if a.team == team && a.active then a.points else 0.0)
  {
    var a, left, right := awards[k], awards[..k], awards[k + 1..];
    assert awards == left + [a] + right && awards[k := a.(active := false)] == left + [a.(active := false)] + right;
    AwardAdds(w, rows, left, a, right, team);
    AwardAdds(w, rows, left, a.(active := false), right, team);
  }

  /** So an active award's points leave its team's total, and a second revocation takes nothing more. */
  lemma {:induction false} RevokingTakesBack(w: World, b: Board, k: nat, other: int)
    requires Keyed(b) && k < |b.awards| && b.awards[k].team in b.teams
    ensures var a, after := b.awards[k], Step(w, b, RevokeAward(b.awards[k].id));
            && Points(w, after.rows, after.awards, other) ==
               Points(w, b.rows, b.awards, other) - (if a.team == other && a.active then a.points else 0.0)
            && a.team in after.teams
            && after.teams[a.team].total ==
               Round(Points(w, b.rows, b.awards, a.team) - (if a.active then a.points else 0.0))
  {
    var a := b.awards[k];
    RevocationStored(w, b, k);
    InactiveAddsNothing(w, b.rows, b.awards, k, other);
    InactiveAddsNothing(w, b.rows, b.awards, k, a.team);
    RefreshedTotal(w, Changed(w, b, RevokeAward(a.id)), a.team);
  }

  lemma {:induction false} GivingStores(w: World, b: Board, team: int, points: real)
    requires Keyed(b) && team in b.teams
    ensures var given, n := Step(w, b, GiveAward(team, points)), |b.awards|;
            && Keyed(given) && |given.awards| == n + 1 && given.awards[n].team == team && team in given.teams
            && given.awards[n].active && given.awards[n].points == points
  {
    StepKeepsKeys(w, b, GiveAward(team, points));
    StepRows(w, b, GiveAward(team, points));
  }

  /** Giving an award and revoking it again leaves every team the points it had. */
  lemma {:induction false} GivenAndRevoked(w: World, b: Board, team: int, points: real, other: int)
    requires Keyed(b) && team in b.teams
    ensures var given := Step(w, b, GiveAward(team, points));
            |given.awards| == |b.awards| + 1 &&
            var after := Step(w, given, RevokeAward(given.awards[|b.awards|].id));
            Points(w, after.rows, after.awards, other) == Points(w, b.rows, b.awards, other)
  {
    var given := Step(w, b, GiveAward(team, points));
    GivingStores(w, b, team, points);
    GivingAdds(w, b, team, points, other);
    RevokingTakesBack(w, given, |b.awards|, other);
  }

  // ---- A recomputed team ---------------------------------------------------------------------------

  /** The checkpoints some result of the team counts at. */
  function ScoredPosts(w: World, rows: seq<Row>, team: int): set<int> { ScoreMap(w, rows, team).Keys }

  function RouteOrder(w: World, post: int): int { if post in w.orders then w.orders[post] else 0 }

  /**
   A refreshed team keeps its visits. Its list has one slot per visit; with distinct orders the slot
   of a scored checkpoint is the number of scored ones before it on the route, it holds what the team
   has there, cut to an integer, and the slots past the scored ones hold zero.
   */
  lemma {:induction false} RefreshedList(w: World, c: Change, team: int, post: int)
    requires team in c.board.teams && team in c.stale && post in ScoredPosts(w, c.board.rows, team)
    requires forall p, q | p in ScoredPosts(w, c.board.rows, team) && q in ScoredPosts(w, c.board.rows, team) && p != q ::
               RouteOrder(w, p) != RouteOrder(w, q)
    ensures var rows, after := c.board.rows, RecomputeAll(w, c.board, c.stale).teams[team];
            var scored := ScoredPosts(w, rows, team);
            var slot := |set p | p in scored && RouteOrder(w, p) < RouteOrder(w, post)|;
            && after.visits == c.board.teams[team].visits == |after.scores|
            && (slot < after.visits ==> after.scores[slot] == Trunc(PostPoints(w, rows, team, post)))
            && forall i | |scored| <= i < after.visits :: after.scores[i] == 0
  {
    var rows := c.board.rows;
    var scores, orders := ScoreMap(w, rows, team), OrderMap(w, rows, team);
    forall p | p in scores ensures p in orders && orders[p] == RouteOrder(w, p) { ScoredCheckpoints(w, rows, team, p); }
    LayoutMeaning(scores, orders, c.board.teams[team].visits, post);
    LayoutRest(scores, orders, c.board.teams[team].visits);
    assert (set p | p in orders && orders[p] < orders[post]) ==
           (set p | p in ScoredPosts(w, rows, team) && RouteOrder(w, p) < RouteOrder(w, post));
  }
}
