/**
 The scoring service on its tables: loops over query results in whatever order the database gives
 them, field by field updates, and the per-team and the batched way to recompute totals.
 */
module ScoringService {
  import opened BoardLaws
  import opened Lists
  import opened Rescoring
  import opened ScoreRuns
  import opened Scoring
  import opened Sets
  import opened Sorting
  import opened Wrappers

  /** What the batch accumulates for one team. */
  datatype Bucket = Bucket(scores: map<int, real>, orders: map<int, int>, raw: real)

  function BucketOf(w: World, rows: seq<Row>, team: int): Bucket {
    Bucket(ScoreMap(w, rows, team), OrderMap(w, rows, team), Sum(rows, TeamWorth(w, team)))
  }

  function Get(m: map<int, real>, k: int): real { if k in m then m[k] else 0.0 }

  /** The bucket after one more result of the team that counts. */
  function Credited(b: Bucket, post: int, order: int, points: real): Bucket {
    Bucket(b.scores[post := Get(b.scores, post) + points], b.orders[post := order], b.raw + points)
  }

  /** What walking the results leaves in the team's bucket. */
  function Tally(w: World, results: seq<Row>, team: int): Bucket {
    if results == [] then Bucket(map[], map[], 0.0)
    else
      var before, r := Tally(w, results[..|results| - 1], team), results[|results| - 1];
      if r.entry.team == team && Counts(w, r) then
        Credited(before, CheckpointOf(w, r).value, OrderOf(w, CheckpointOf(w, r).value), r.final.value)
      else before
  }

  lemma CreditedFields(w: World, b: Bucket, r: Row, team: int)
    ensures Bucket(Added(w, b.scores, r, team), AddedOrder(w, b.orders, r, team), b.raw + TeamWorth(w, team)(r)) ==
            if r.entry.team == team && Counts(w, r) then
              Credited(b, CheckpointOf(w, r).value, OrderOf(w, CheckpointOf(w, r).value), r.final.value)
            else b
  {
  }

  lemma {:induction false} TallyMeaning(w: World, results: seq<Row>, team: int)
    ensures Tally(w, results, team) == BucketOf(w, results, team)
  {
    if results == [] {
      assert PostsOf(w, results, team) == {};
    } else {
      var front, r := results[..|results| - 1], results[|results| - 1];
      assert results == front + [r];
      TallyMeaning(w, front, team);
      CreditedFields(w, BucketOf(w, front, team), r, team);
      ScoreMapSnoc(w, front, r, team);
      OrderMapSnoc(w, front, r, team);
      SumSnoc(front, r, TeamWorth(w, team));
    }
  }

  /** A query that keeps the team's results tallies to what the whole table does, in any order. */
  lemma {:induction false} TallySelected(w: World, out: seq<Row>, table: seq<Row>, p: Row -> bool, team: int)
    requires Selected(out, table, p) && forall r | r in table && r.entry.team == team :: p(r)
    ensures Tally(w, out, team) == BucketOf(w, table, team)
  {
    TallyMeaning(w, out, team);
    SelectedTells(w, out, table, p, team);
  }

  lemma {:induction false} TallySnoc(w: World, results: seq<Row>, i: nat, team: int)
    requires i < |results|
    ensures Tally(w, results[..i + 1], team) ==
            if results[i].entry.team == team && Counts(w, results[i]) then
              Credited(Tally(w, results[..i], team), CheckpointOf(w, results[i]).value,
                       OrderOf(w, CheckpointOf(w, results[i]).value), results[i].final.value)
            else Tally(w, results[..i], team)
  {
    assert results[..i + 1][..i] == results[..i];
  }

  // ---- One team after the other ---------------------------------------------------------------

  /** update_team_scores called for each team in turn. */
  ghost function OneByOne(w: World, b: Board, ids: seq<int>): Board {
    if ids == [] then b else Recompute(w, OneByOne(w, b, ids[..|ids| - 1]), ids[|ids| - 1])
  }

  lemma {:induction false} OneByOneIsAll(w: World, b: Board, ids: seq<int>)
    ensures OneByOne(w, b, ids) == RecomputeAll(w, b, Members(ids))
  {
    if ids == [] {
      assert b.teams == RecomputeAll(w, b, {}).teams;
    } else {
      var front, last := ids[..|ids| - 1], ids[|ids| - 1];
      OneByOneIsAll(w, b, front);
      BatchIsOneByOne(w, b, Members(front), last);
      assert ids == front + [last];
      assert Members(ids) == Members(front) + {last};
    }
  }

  lemma {:induction false} OneByOneKeeps(w: World, b: Board, ids: seq<int>)
    ensures OneByOne(w, b, ids).rows == b.rows && OneByOne(w, b, ids).awards == b.awards
    ensures OneByOne(w, b, ids).teams.Keys == b.teams.Keys
    ensures forall t | t in b.teams :: OneByOne(w, b, ids).teams[t].visits == b.teams[t].visits
  {
    if ids != [] { OneByOneKeeps(w, b, ids[..|ids| - 1]); }
  }

  /** A team put together from its bucket, its awards and its layout is the team recomputed. */
  lemma Assembled(w: World, b: Board, t: int, bucket: Bucket, points: real, list: seq<int>)
    requires t in b.teams && bucket == BucketOf(w, b.rows, t) && points == Sum(b.awards, AwardWorth(t))
    requires list == Layout(bucket.scores, bucket.orders, b.teams[t].visits)
    ensures b.(teams := b.teams[t := Team(Round(bucket.raw + points), list, b.teams[t].visits)]) == Recompute(w, b, t)
  {
  }

  lemma NobodyRecomputed(w: World, b: Board, t: int)
    requires t !in b.teams
    ensures Recompute(w, b, t) == b
  {
  }

  function ActiveFor(team: int): Award -> bool { (a: Award) => a.team == team && a.active }

  function Among(ids: seq<int>): Row -> bool { (r: Row) => r.entry.team in ids }

  function ActiveAmong(ids: seq<int>): Award -> bool { (a: Award) => a.team in ids && a.active }

  lemma SelectedMembers<T(!new)>(out: seq<T>, table: seq<T>, p: T -> bool)
    requires Selected(out, table, p)
    ensures forall x :: x in out <==> x in table && p(x)
  {
    SameMembers(out, Filter(table, p));
    FilterMembers(table, p);
  }

  function Members(ids: seq<int>): set<int> { set t | t in ids }

  // ---- Rescoring ----------------------------------------------------------------------------------

  function HasTime(r: Row): bool { r.timeScore.Some? }

  /** The times of the selected results are the times the activity is ranked on, in some order. */
  lemma {:induction false} RescoreTimes(out: seq<Row>, rows: seq<Row>, activity: int, exclude: Option<int>)
    requires Selected(out, rows, RescoredIn(activity, exclude))
    ensures multiset(Map(Filter(out, HasTime), TimeOf)) ==
            multiset(Map(Filter(rows, RankedBut(activity, exclude)), TimeOf))
  {
    var chosen := Filter(rows, RescoredIn(activity, exclude));
    FilterPermutation(out, chosen, HasTime);
    FilterTwice(rows, RescoredIn(activity, exclude), HasTime, RankedBut(activity, exclude));
    MapPermutation(Filter(out, HasTime), Filter(chosen, HasTime), TimeOf);
  }

  function StoringFinal(id: int, points: real): Row -> Row {
    (r: Row) => if r.id == id then r.(final := Some(points)) else r
  }

  /** The rows after the listed ones were scored on these times. */
  function ScoredAmong(w: World, done: seq<Row>, times: seq<real>): Row -> Row {
    (r: Row) => if r in done then r.(final := Some(w.score(r.entry, times))) else r
  }

  lemma {:induction false} OneMoreScored(w: World, rows: seq<Row>, done: seq<Row>, r: Row, times: seq<real>)
    requires IdsDistinct(rows) && r in rows
    ensures Map(Map(rows, ScoredAmong(w, done, times)), StoringFinal(r.id, w.score(r.entry, times))) ==
            Map(rows, ScoredAmong(w, done + [r], times))
  {
    forall x | x in rows && x.id == r.id ensures x == r { IdNamesRow(rows, x, r); }
    MapMap(rows, ScoredAmong(w, done, times), StoringFinal(r.id, w.score(r.entry, times)),
           ScoredAmong(w, done + [r], times));
  }

  /** Scores stored one row after the other. */
  function ScoredInTurn(w: World, rows: seq<Row>, done: seq<Row>, times: seq<real>): seq<Row> {
    if done == [] then rows
    else
      var last := done[|done| - 1];
      Map(ScoredInTurn(w, rows, done[..|done| - 1], times), StoringFinal(last.id, w.score(last.entry, times)))
  }

  lemma {:induction false} InTurnIsAtOnce(w: World, rows: seq<Row>, done: seq<Row>, times: seq<real>)
    requires IdsDistinct(rows) && forall r | r in done :: r in rows
    ensures ScoredInTurn(w, rows, done, times) == Map(rows, ScoredAmong(w, done, times))
  {
    if done == [] {
      assert Map(rows, ScoredAmong(w, done, times)) == rows;
    } else {
      var front, last := done[..|done| - 1], done[|done| - 1];
      assert done == front + [last];
      assert last in done;
      InTurnIsAtOnce(w, rows, front, times);
      OneMoreScored(w, rows, front, last, times);
    }
  }

  lemma {:induction false} AllScored(w: World, rows: seq<Row>, all: seq<Row>, activity: int, exclude: Option<int>, times: seq<real>)
    requires Lawful(w) && Timed(w, activity) && Selected(all, rows, RescoredIn(activity, exclude))
    requires multiset(times) == multiset(TimesFor(rows, activity, exclude))
    requires IdsDistinct(rows)
    ensures ScoredInTurn(w, rows, all, times) == Rescore(w, rows, activity, exclude)
  {
    SelectedMembers(all, rows, RescoredIn(activity, exclude));
    InTurnIsAtOnce(w, rows, all, times);
    MapSame(rows, ScoredAmong(w, all, times), RescoreRow(w, activity, exclude, TimesFor(rows, activity, exclude)));
  }

  /** The tables once flags set on objects are stored. */
  function Stored(b: Board, flags: map<int, bool>): Board { b.(rows := Map(b.rows, Flagging(flags))) }

  lemma {:induction false} NoFlags(rows: seq<Row>)
    ensures Map(rows, Flagging(map[])) == rows
  {
  }

  /** A rescore that finds no result to rescore, and no team to refresh. */
  lemma NothingToRescore(w: World, b: Board, activity: int, exclude: Option<int>, flags: map<int, bool>)
    requires Selected([], b.rows, RescoredIn(activity, exclude))
    ensures Reranked(w, b, activity, exclude, flags) == Stored(b, flags)
  {
    SelectedMembers([], b.rows, RescoredIn(activity, exclude));
    assert TeamsRanked(b.rows, activity, exclude) == {};
    UnrescoredRows(w, b.rows, activity, exclude);
    assert RecomputeAll(w, Stored(b, flags), {}).teams == b.teams;
  }

  lemma {:induction false} UnrescoredRows(w: World, rows: seq<Row>, activity: int, exclude: Option<int>)
    requires forall r | r in rows :: !Rescored(activity, exclude, r)
    ensures Rescore(w, rows, activity, exclude) == rows
  {
    forall i | 0 <= i < |rows| ensures rows[i] in rows {}
  }

  /**
   The tables after _recalculate_all_results_for_activity: it selects on the stored flags, stores
   the pending ones with its commit, and then refreshes the teams.
   */
  ghost function Reranked(w: World, b: Board, activity: int, exclude: Option<int>, flags: map<int, bool>): Board {
    if Timed(w, activity) then
      RecomputeAll(w, Stored(b.(rows := Rescore(w, b.rows, activity, exclude)), flags), TeamsRanked(b.rows, activity, exclude))
    else Stored(b, flags)
  }

  function TeamIds(results: seq<Row>): set<int> { set r | r in results :: r.entry.team }

  lemma TeamsOfSelected(all: seq<Row>, rows: seq<Row>, activity: int, exclude: Option<int>)
    requires Selected(all, rows, RescoredIn(activity, exclude))
    ensures TeamIds(all) == TeamsRanked(rows, activity, exclude)
  {
    SelectedMembers(all, rows, RescoredIn(activity, exclude));
  }

  predicate SameRace(x: Entry, y: Entry) { x.activity == y.activity && x.team == y.team }

  lemma {:induction false} EditedMember(w: World, rows: seq<Row>, r: Row, edit: Edit)
    requires r in rows
    ensures Edited(w, r, edit) in Map(rows, Editing(w, r.id, edit))
  {
    var i :| 0 <= i < |rows| && rows[i] == r;
    assert Map(rows, Editing(w, r.id, edit))[i] == Edited(w, r, edit);
  }

  lemma {:induction false} AmendedMember(rows: seq<Row>, r: Row, entry: Entry)
    requires r in rows
    ensures r.(entry := entry) in Map(rows, Amending(r.id, entry))
  {
    var i :| 0 <= i < |rows| && rows[i] == r;
    assert Map(rows, Amending(r.id, entry))[i] == r.(entry := entry);
  }

  // ---- Steps, as the service performs them -----------------------------------------------------------

  lemma OneStale(w: World, b: Board, op: Op, c: Board, team: int)
    requires Changed(w, b, op) == Change(c, {team})
    ensures Step(w, b, op) == Recompute(w, c, team)
  {
  }

  /** Rerank the others, then refresh the submitter: the teams the step calls stale, in two goes. */
  lemma SubmitStep(w: World, b: Board, e: Entry)
    requires e.activity in w.activities && w.valid(e) && e.team in b.teams && ResultOf(b.rows, e.activity, e.team) == None
    ensures var r := NewRow(w, b.rows, e);
            Step(w, b, Submit(e)) ==
            Recompute(w, Reranked(w, b.(rows := b.rows + [r]), e.activity, Some(r.id), map[]), e.team)
  {
    var r := NewRow(w, b.rows, e);
    var mid := b.(rows := RowsWithNew(w, b.rows, e));
    NoFlags(RowsWithNew(w, b.rows, e));
    if Timed(w, e.activity) {
      BatchIsOneByOne(w, mid, TeamsRanked(b.rows + [r], e.activity, Some(r.id)), e.team);
    } else {
      assert {} + {e.team} == {e.team};
    }
  }

  /** The objects of an edited row before the commit: all but the flag is set, and with a form the row is scored. */
  function Held(w: World, rows: seq<Row>, id: int, activity: int, edit: Edit): seq<Row> {
    var held := EditedRows(w, rows, id, Unflagged(edit));
    if edit.data.Some? then ScoredOnce(w, held, id, activity) else held
  }

  lemma {:induction false} BareEditInTwo(w: World, rows: seq<Row>, id: int, activity: int, edit: Edit)
    requires edit.data == None
    ensures Map(Held(w, rows, id, activity, edit), Flagging(FlagOf(id, edit))) == RowsWithEdit(w, rows, id, activity, edit)
  {
    MapMap(rows, Editing(w, id, Unflagged(edit)), Flagging(FlagOf(id, edit)), Editing(w, id, edit));
  }

  lemma {:induction false} HeldRanked(w: World, rows: seq<Row>, id: int, activity: int, edit: Edit)
    ensures TeamsRanked(Held(w, rows, id, activity, edit), activity, None) == TeamsRanked(rows, activity, None)
  {
    var g := Editing(w, id, Unflagged(edit));
    var held := EditedRows(w, rows, id, Unflagged(edit));
    SameRanked(rows, g, activity);
    SameRanked(held, ScoringOne(w, id, Times(held, activity)), activity);
  }

  lemma UntimedForm(w: World, rows: seq<Row>, id: int, activity: int, edit: Edit)
    requires edit.data.Some? && !Timed(w, activity)
    ensures Map(Held(w, rows, id, activity, edit), Flagging(FlagOf(id, edit))) == RowsWithEdit(w, rows, id, activity, edit)
  {
  }

  /** The same for an edit of a stored result. */
  /** The step of a form on a timed activity: its ranked teams and the row's own are refreshed together. */
  lemma RankedEditStep(w: World, b: Board, r: Row, edit: Edit)
    requires FirstRow(b.rows, HasId(r.id)) == Some(r) && edit.data.Some? && Timed(w, r.entry.activity)
    ensures var held := b.(rows := Held(w, b.rows, r.id, r.entry.activity, edit));
            Step(w, b, EditResult(r.id, edit)) ==
            Recompute(w, Reranked(w, held, r.entry.activity, None, FlagOf(r.id, edit)), r.entry.team)
  {
    var after := b.(rows := RowsWithEdit(w, b.rows, r.id, r.entry.activity, edit));
    HeldRanked(w, b.rows, r.id, r.entry.activity, edit);
    BatchIsOneByOne(w, after, TeamsRanked(b.rows, r.entry.activity, None), r.entry.team);
  }

  lemma PlainEditStep(w: World, b: Board, r: Row, edit: Edit)
    requires FirstRow(b.rows, HasId(r.id)) == Some(r) && !(edit.data.Some? && Timed(w, r.entry.activity))
    ensures var flags := FlagOf(r.id, edit); var held := b.(rows := Held(w, b.rows, r.id, r.entry.activity, edit));
            Step(w, b, EditResult(r.id, edit)) ==
            Recompute(w, if edit.data.Some? then Reranked(w, held, r.entry.activity, None, flags) else Stored(held, flags),
                      r.entry.team)
  {
    if edit.data.Some? {
      UntimedForm(w, b.rows, r.id, r.entry.activity, edit);
    } else {
      BareEditInTwo(w, b.rows, r.id, r.entry.activity, edit);
    }
    assert {} + {r.entry.team} == {r.entry.team};
  }

  lemma EditStep(w: World, b: Board, id: int, edit: Edit)
    requires FirstRow(b.rows, HasId(id)).Some?
    ensures var r := FirstRow(b.rows, HasId(id)).value; var flags := FlagOf(id, edit);
            var held := b.(rows := Held(w, b.rows, id, r.entry.activity, edit));
            Step(w, b, EditResult(id, edit)) ==
            Recompute(w, if edit.data.Some? then Reranked(w, held, r.entry.activity, None, flags) else Stored(held, flags),
                      r.entry.team)
  {
    var r := FirstRow(b.rows, HasId(id)).value;
    FirstHasId(b.rows, id);
    if edit.data.Some? && Timed(w, r.entry.activity) {
      RankedEditStep(w, b, r, edit);
    } else {
      PlainEditStep(w, b, r, edit);
    }
  }

  /** The dict's items, in whatever order it gives them. */
  method Items(scores: map<int, real>, orders: map<int, int>) returns (pairs: seq<(int, real)>, ghost keys: seq<int>)
    requires scores.Keys == orders.Keys
    ensures IsListing(keys, scores.Keys) && pairs == Map(keys, PairOf(scores, orders))
  {
    var left := scores.Keys;
    pairs, keys := [], [];
    while left != {}
      invariant left <= scores.Keys && IsListing(keys, scores.Keys - left)
      invariant pairs == Map(keys, PairOf(scores, orders))
      decreases |left|
    {
      ghost var some := SomeMember(left);
      var c :| c in left;
      MapSnoc(keys, c, PairOf(scores, orders));
      pairs := pairs + [(orders[c], scores[c])];
      keys := keys + [c];
      left := left - {c};
    }
  }

  method CheckpointLayout(scores: map<int, real>, orders: map<int, int>, visits: nat) returns (list: seq<int>)
    requires scores.Keys == orders.Keys
    ensures list == Layout(scores, orders, visits)
  {
    var pairs, keys := Items(scores, orders);
    LayoutAnyListing(scores, orders, visits, keys);
    var ordered := Map(SortBy(PairLeq, pairs), SlotScore);
    list := Take(Take(ordered, visits) + Zeros(visits - |ordered|), visits);
  }

  class Service {
    const w: World
    var rows: seq<Row>
    var awards: seq<Award>
    var teams: map<int, Team>

    /** Completion flags set on objects and not stored yet: the session does not flush before it commits. */
    var flags: map<int, bool>

    constructor (w: World, rows: seq<Row>, awards: seq<Award>, teams: map<int, Team>)
      ensures this.w == w && Tables() == Board(rows, awards, teams) && flags == map[]
    {
      this.w, this.rows, this.awards, this.teams, flags := w, rows, awards, teams, map[];
    }

    function Tables(): Board reads this { Board(rows, awards, teams) }

    method Commit()
      modifies this`rows, this`flags
      ensures Tables() == Stored(old(Tables()), old(flags)) && flags == map[]
      ensures old(flags) == map[] ==> rows == old(rows)
    {
      NoFlags(rows);
      rows := Map(rows, Flagging(flags));
      flags := map[];
    }

    // ---- Queries --------------------------------------------------------------------------

    method SelectRows(p: Row -> bool) returns (out: seq<Row>)
      ensures Selected(out, rows, p)
    {
      out := Filter(rows, p);
    }

    method SelectAwards(p: Award -> bool) returns (out: seq<Award>)
      ensures Selected(out, awards, p)
    {
      out := Filter(awards, p);
    }

    // ---- One team ---------------------------------------------------------------------------

    method CheckpointScoresForTeam(team: int) returns (scores: map<int, real>, orders: map<int, int>, total: real)
      ensures Bucket(scores, orders, total) == BucketOf(w, rows, team)
    {
      var results := SelectRows(OfTeam(team));
      scores, orders, total := map[], map[], 0.0;
      SelectedMembers(results, rows, OfTeam(team));
      for i := 0 to |results|
        invariant Bucket(scores, orders, total) == Tally(w, results[..i], team)
      {
        var r := results[i];
        assert r in results;
        TallySnoc(w, results, i, team);
        if r.completed && r.final.Some? && CheckpointOf(w, r).Some? {
          var c := CheckpointOf(w, r).value;
          scores := scores[c := Get(scores, c) + r.final.value];
          orders := orders[c := OrderOf(w, c)];
          total := total + r.final.value;
        }
      }
      assert results[..|results|] == results;
      TallySelected(w, results, rows, OfTeam(team), team);
    }

    method ActiveAwardPoints(team: int) returns (points: real)
      ensures points == Sum(awards, AwardWorth(team))
    {
      var granted := SelectAwards(ActiveFor(team));
      points := 0.0;
      SelectedMembers(granted, awards, ActiveFor(team));
      for i := 0 to |granted|
        invariant points == Sum(granted[..i], AwardWorth(team))
      {
        assert granted[i] in granted;
        assert granted[..i + 1] == granted[..i] + [granted[i]];
        SumSnoc(granted[..i], granted[i], AwardWorth(team));
        points := points + granted[i].points;
      }
      assert granted[..|granted|] == granted;
      SelectedSum(granted, awards, ActiveFor(team), AwardWorth(team));
    }

    method StoreTeam(t: int, b: Bucket, points: real)
      requires t in teams && b == BucketOf(w, rows, t) && points == Sum(awards, AwardWorth(t))
      modifies this`teams
      ensures Tables() == Recompute(w, old(Tables()), t)
    {
      var visits := teams[t].visits;
      var list := CheckpointLayout(b.scores, b.orders, visits);
      Assembled(w, Tables(), t, b, points, list);
      teams := teams[t := Team(Round(b.raw + points), list, visits)];
    }

    /** False, with nothing changed, for a team that does not exist. */
    method UpdateTeamScores(team: int) returns (found: bool)
      modifies this`teams
      ensures found <==> team in old(teams)
      ensures Tables() == Recompute(w, old(Tables()), team)
    {
      if team !in teams {
        NobodyRecomputed(w, Tables(), team);
        return false;
      }
      var scores, orders, total := CheckpointScoresForTeam(team);
      var points := ActiveAwardPoints(team);
      StoreTeam(team, Bucket(scores, orders, total), points);
      return true;
    }

    // ---- Many teams at once --------------------------------------------------------------------

    method BatchResults(ids: seq<int>) returns (perTeam: map<int, Bucket>)
      ensures forall t | t in ids :: t in perTeam && perTeam[t] == BucketOf(w, rows, t)
    {
      var results := SelectRows(Among(ids));
      perTeam := map t | t in ids :: Bucket(map[], map[], 0.0);
      for i := 0 to |results|
        invariant perTeam.Keys == Members(ids)
        invariant forall t | t in ids :: perTeam[t] == Tally(w, results[..i], t)
      {
        var r := results[i];
        forall t | t in ids
          ensures Tally(w, results[..i + 1], t) ==
                  if r.entry.team == t && Counts(w, r) then
                    Credited(Tally(w, results[..i], t), CheckpointOf(w, r).value,
                             OrderOf(w, CheckpointOf(w, r).value), r.final.value)
                  else Tally(w, results[..i], t)
        {
          TallySnoc(w, results, i, t);
        }
        if r.completed && r.final.Some? && CheckpointOf(w, r).Some? && r.entry.team in perTeam {
          var c, b := CheckpointOf(w, r).value, perTeam[r.entry.team];
          perTeam := perTeam[r.entry.team := Bucket(b.scores[c := Get(b.scores, c) + r.final.value],
                                                    b.orders[c := OrderOf(w, c)], b.raw + r.final.value)];
        }
      }
      assert results[..|results|] == results;
      forall t | t in ids ensures Tally(w, results, t) == BucketOf(w, rows, t) {
        TallySelected(w, results, rows, Among(ids), t);
      }
    }

    method BatchAwards(ids: seq<int>) returns (points: map<int, real>)
      ensures forall t | t in ids :: Get(points, t) == Sum(awards, AwardWorth(t))
    {
      var granted := SelectAwards(ActiveAmong(ids));
      points := map[];
      SelectedMembers(granted, awards, ActiveAmong(ids));
      for i := 0 to |granted|
        invariant forall t :: Get(points, t) == Sum(granted[..i], AwardWorth(t))
      {
        var a := granted[i];
        assert a in granted;
        assert granted[..i + 1] == granted[..i] + [a];
        forall t ensures Sum(granted[..i + 1], AwardWorth(t)) == Sum(granted[..i], AwardWorth(t)) + AwardWorth(t)(a) {
          SumSnoc(granted[..i], a, AwardWorth(t));
        }
        points := points[a.team := Get(points, a.team) + a.points];
      }
      assert granted[..|granted|] == granted;
      forall t | t in ids ensures Sum(granted, AwardWorth(t)) == Sum(awards, AwardWorth(t)) {
        SelectedSum(granted, awards, ActiveAmong(ids), AwardWorth(t));
      }
    }

    /** The batch leaves the tables exactly as updating the teams one after the other would. */
    method UpdateAllTeamScores(ids: seq<int>)
      requires forall t | t in ids :: t in teams
      modifies this`teams
      ensures Tables() == OneByOne(w, old(Tables()), ids)
    {
      if ids == [] { return; }
      var perTeam := BatchResults(ids);
      var points := BatchAwards(ids);
      for i := 0 to |ids|
        invariant Tables() == OneByOne(w, old(Tables()), ids[..i])
      {
        assert ids[i] in ids;
        OneByOneKeeps(w, old(Tables()), ids[..i]);
        StoreTeam(ids[i], perTeam[ids[i]], Get(points, ids[i]));
        assert ids[..i + 1][..i] == ids[..i];
      }
      assert ids[..|ids|] == ids;
    }

    // ---- Results ------------------------------------------------------------------------------------

    method CompletedTimes(activity: int) returns (times: seq<real>)
      ensures multiset(times) == multiset(Times(rows, activity))
    {
      var results := SelectRows(RescoredIn(activity, None));
      times := Map(Filter(results, HasTime), TimeOf);
      RescoreTimes(results, rows, activity, None);
      RankedButNone(rows, activity);
    }

    /** The times to rank on when everyone but one result is rescored. */
    method TimesBut(all: seq<Row>, activity: int, exclude: Option<int>) returns (times: seq<real>)
      requires Selected(all, rows, RescoredIn(activity, exclude))
      ensures multiset(times) == multiset(TimesFor(rows, activity, exclude))
    {
      times := Map(Filter(all, HasTime), TimeOf);
      RescoreTimes(all, rows, activity, exclude);
      if exclude.Some? {
        var excluded := FirstRow(rows, HasId(exclude.value));
        if excluded.Some? && excluded.value.timeScore.Some? {
          times := times + [excluded.value.timeScore.value];
        }
      }
    }

    method StoreScores(all: seq<Row>, times: seq<real>)
      modifies this`rows
      ensures rows == ScoredInTurn(w, old(rows), all, times)
    {
      for i := 0 to |all|
        invariant rows == ScoredInTurn(w, old(rows), all[..i], times)
      {
        rows := Map(rows, StoringFinal(all[i].id, w.score(all[i].entry, times)));
        assert all[..i + 1][..i] == all[..i];
      }
      assert all[..|all|] == all;
    }

    /** Each team once, in whatever order the set gives them. */
    method RefreshTeams(ids: set<int>)
      modifies this`teams
      ensures Tables() == RecomputeAll(w, old(Tables()), ids)
    {
      var left := ids;
      ghost var done := [];
      while left != {}
        invariant left <= ids && Members(done) == ids - left
        invariant Tables() == OneByOne(w, old(Tables()), done)
        decreases |left|
      {
        ghost var some := SomeMember(left);
        var team :| team in left;
        var found := UpdateTeamScores(team);
        assert (done + [team])[..|done|] == done;
        assert Members(done + [team]) == Members(done) + {team};
        done := done + [team];
        left := left - {team};
      }
      OneByOneIsAll(w, old(Tables()), done);
    }

    /** Left with its flags pending only when there is nothing to rescore: no commit is made then. */
    method RecalculateAll(activity: int, exclude: Option<int>)
      requires Lawful(w) && IdsDistinct(rows)
      modifies this`rows, this`teams, this`flags
      ensures Stored(Tables(), flags) == Reranked(w, old(Tables()), activity, exclude, old(flags))
    {
      if activity !in w.activities || !w.activities[activity].timed { return; }
      var all := SelectRows(RescoredIn(activity, exclude));
      if all == [] {
        NothingToRescore(w, Tables(), activity, exclude, flags);
        return;
      }
      SelectedMembers(all, rows, RescoredIn(activity, exclude));
      var times := TimesBut(all, activity, exclude);
      AllScored(w, rows, all, activity, exclude, times);
      TeamsOfSelected(all, rows, activity, exclude);
      StoreScores(all, times);
      Commit();
      RefreshTeams(TeamIds(all));
      NoFlags(rows);
    }

    /** One stored result scored again on the completed times, its own included. */
    method RecalculateResultScore(r: Row)
      requires Lawful(w) && IdsDistinct(rows) && r in rows
      modifies this`rows
      ensures rows == Map(old(rows), ScoringOne(w, r.id, Times(old(rows), r.entry.activity)))
    {
      ghost var spec := ScoringOne(w, r.id, Times(rows, r.entry.activity));
      forall x | x in rows && x.id == r.id ensures x == r { IdNamesRow(rows, x, r); }
      if r.entry.activity !in w.activities {
        MapSame(rows, spec, (x: Row) => x);
        assert Map(rows, (x: Row) => x) == rows;
        return;
      }
      var times := [];
      if w.activities[r.entry.activity].timed { times := CompletedTimes(r.entry.activity); }
      var points := w.score(r.entry, times);
      assert points == w.score(r.entry, Times(rows, r.entry.activity));
      MapSame(rows, StoringFinal(r.id, points), spec);
      rows := Map(rows, StoringFinal(r.id, points));
    }

    /** The row to store, scored on the completed times and its own. */
    method BuildResult(e: Entry) returns (r: Row)
      requires Lawful(w) && e.activity in w.activities
      ensures r == NewRow(w, rows, e)
    {
      var timed, times := w.activities[e.activity].timed, [];
      if timed {
        times := CompletedTimes(e.activity);
        if e.data.time.Some? { times := times + [e.data.time.value]; }
      }
      assert timed ==> multiset(times) == multiset(Times(rows, e.activity) + OwnTime(e));
      assert w.score(e, times) == w.score(e, Times(rows, e.activity) + OwnTime(e));
      r := Row(NextId(rows), e, if timed then e.data.time else None, Some(w.score(e, times)), true);
    }

    method Rerank(activity: int, exclude: Option<int>, team: int)
      requires Lawful(w) && IdsDistinct(rows)
      modifies this`rows, this`teams, this`flags
      ensures Tables() == Recompute(w, Reranked(w, old(Tables()), activity, exclude, old(flags)), team) && flags == map[]
    {
      RecalculateAll(activity, exclude);
      Commit();
      var ok := UpdateTeamScores(team);
    }

    /** False, with nothing stored: no such activity, a bad form, no such team, or a second result. */
    method CreateResult(e: Entry) returns (ok: bool)
      requires Lawful(w) && Keyed(Tables()) && flags == map[]
      modifies this`rows, this`teams, this`flags
      ensures ok <==> && e.activity in w.activities && w.valid(e) && e.team in old(teams)
                      && forall r | r in old(rows) :: !(r.entry.activity == e.activity && r.entry.team == e.team)
      ensures Tables() == Step(w, old(Tables()), Submit(e)) && flags == map[]
    {
      AdmissibleIsFree(Tables(), e);
      if e.activity !in w.activities || !w.valid(e) || e.team !in teams
         || ResultOf(rows, e.activity, e.team).Some? {
        NothingHappens(w, Tables(), Submit(e));
        return false;
      }
      SubmitStep(w, Tables(), e);
      NewIdDistinct(w, rows, e);
      var r := BuildResult(e);
      rows := rows + [r];
      Rerank(e.activity, Some(r.id), e.team);
      return true;
    }

    /** The fields of the edit set on the object; the flag waits for the commit. */
    method SetFields(r: Row, edit: Edit)
      requires IdsDistinct(rows) && r in rows && flags == map[]
      modifies this`rows, this`flags
      ensures rows == EditedRows(w, old(rows), r.id, Unflagged(edit)) && flags == FlagOf(r.id, edit)
      ensures IdsDistinct(rows) && Edited(w, r, Unflagged(edit)) in rows
    {
      EditedMember(w, rows, r, Unflagged(edit));
      KeepsIds(rows, Editing(w, r.id, Unflagged(edit)));
      rows := Map(rows, Editing(w, r.id, Unflagged(edit)));
      if edit.completed.Some? { flags := map[r.id := edit.completed.value]; }
    }

    /** With a form the row is scored, on the stored flags. */
    method EditRow(r: Row, edit: Edit)
      requires Lawful(w) && IdsDistinct(rows) && r in rows && flags == map[]
      modifies this`rows, this`flags
      ensures rows == Held(w, old(rows), r.id, r.entry.activity, edit) && flags == FlagOf(r.id, edit)
      ensures IdsDistinct(rows)
    {
      SetFields(r, edit);
      if edit.data.Some? {
        KeepsIds(rows, ScoringOne(w, r.id, Times(rows, r.entry.activity)));
        RecalculateResultScore(Edited(w, r, Unflagged(edit)));
      }
    }

    method UpdateResult(id: int, edit: Edit) returns (found: bool)
      requires Lawful(w) && Keyed(Tables()) && flags == map[]
      modifies this`rows, this`teams, this`flags
      ensures found <==> exists r :: r in old(rows) && r.id == id
      ensures Tables() == Step(w, old(Tables()), EditResult(id, edit)) && flags == map[]
    {
      FirstRowMeaning(rows, HasId(id));
      var stored := FirstRow(rows, HasId(id));
      if stored == None {
        NothingHappens(w, Tables(), EditResult(id, edit));
        return false;
      }
      EditStep(w, Tables(), id, edit);
      StoreEdit(stored.value, edit);
      return true;
    }

    method StoreEdit(r: Row, edit: Edit)
      requires Lawful(w) && IdsDistinct(rows) && r in rows && flags == map[]
      modifies this`rows, this`teams, this`flags
      ensures var held := old(Tables()).(rows := Held(w, old(rows), r.id, r.entry.activity, edit));
              Tables() == Recompute(w, if edit.data.Some? then Reranked(w, held, r.entry.activity, None, FlagOf(r.id, edit))
                                       else Stored(held, FlagOf(r.id, edit)), r.entry.team)
      ensures flags == map[]
    {
      EditRow(r, edit);
      if edit.data.Some? {
        Rerank(r.entry.activity, None, r.entry.team);
      } else {
        Commit();
        var ok := UpdateTeamScores(r.entry.team);
      }
    }

    /** The owner's total is refreshed; nobody is ranked again. */
    method RemoveResult(id: int) returns (found: bool)
      requires Keyed(Tables())
      modifies this`rows, this`teams
      ensures found <==> exists r :: r in old(rows) && r.id == id
      ensures Tables() == Step(w, old(Tables()), DeleteResult(id))
    {
      FirstRowMeaning(rows, HasId(id));
      var stored := FirstRow(rows, HasId(id));
      if stored == None {
        NothingHappens(w, Tables(), DeleteResult(id));
        return false;
      }
      OneStale(w, Tables(), DeleteResult(id), Tables().(rows := Filter(rows, OtherThan(id))), stored.value.entry.team);
      rows := Filter(rows, OtherThan(id));
      var ok := UpdateTeamScores(stored.value.entry.team);
      return true;
    }

    /** The stored result gets these modifiers and is scored again. */
    method Amend(r: Row, entry: Entry)
      requires Lawful(w) && Keyed(Tables()) && r in rows && SameRace(entry, r.entry)
      modifies this`rows, this`teams
      ensures Tables() == Recompute(w, old(Tables()).(rows := RowsAmended(w, old(rows), r.id, entry)), r.entry.team)
    {
      KeepsIds(rows, Amending(r.id, entry));
      AmendedMember(rows, r, entry);
      rows := Map(rows, Amending(r.id, entry));
      RecalculateResultScore(r.(entry := entry));
      var ok := UpdateTeamScores(r.entry.team);
    }

    method ApplyPenalty(team: int, activity: int, kind: string, amount: int) returns (ok: bool)
      requires Lawful(w) && Keyed(Tables())
      modifies this`rows, this`teams
      ensures ok <==> exists r :: r in old(rows) && r.entry.activity == activity && r.entry.team == team
      ensures Tables() == Step(w, old(Tables()), ScoreRuns.Op.ApplyPenalty(team, activity, kind, amount))
    {
      ghost var op := ScoreRuns.Op.ApplyPenalty(team, activity, kind, amount);
      FirstRowMeaning(rows, (r: Row) => SameEntry(activity, team, r));
      var stored := ResultOf(rows, activity, team);
      if stored == None {
        NothingHappens(w, Tables(), op);
        return false;
      }
      var r := stored.value;
      var entry := r.entry.(penalties := Charged(r.entry.penalties, kind, amount));
      OneStale(w, Tables(), op, Tables().(rows := RowsAmended(w, rows, r.id, entry)), r.entry.team);
      Amend(r, entry);
      return true;
    }

    method ApplyExtraShots(team: int, activity: int, shots: int) returns (ok: bool)
      requires Lawful(w) && Keyed(Tables())
      modifies this`rows, this`teams
      ensures ok <==> && team in old(teams) && shots <= w.shotLimit(team)
                      && exists r :: r in old(rows) && r.entry.activity == activity && r.entry.team == team
      ensures Tables() == Step(w, old(Tables()), ApplyShots(team, activity, shots))
    {
      FirstRowMeaning(rows, (r: Row) => SameEntry(activity, team, r));
      var stored := ResultOf(rows, activity, team);
      if team !in teams || shots > w.shotLimit(team) || stored == None {
        NothingHappens(w, Tables(), ApplyShots(team, activity, shots));
        return false;
      }
      var r := stored.value;
      var entry := r.entry.(shots := shots);
      OneStale(w, Tables(), ApplyShots(team, activity, shots),
               Tables().(rows := RowsAmended(w, rows, r.id, entry)), r.entry.team);
      Amend(r, entry);
      return true;
    }

    // ---- Awards -----------------------------------------------------------------------------------------

    method CreateAward(team: int, points: real) returns (ok: bool)
      modifies this`awards, this`teams
      ensures ok <==> team in old(teams)
      ensures Tables() == Step(w, old(Tables()), GiveAward(team, points))
    {
      if team !in teams {
        NothingHappens(w, Tables(), GiveAward(team, points));
        return false;
      }
      var award := Award(NextAwardId(awards), team, points, true);
      OneStale(w, Tables(), GiveAward(team, points), Tables().(awards := awards + [award]), team);
      awards := awards + [award];
      ok := UpdateTeamScores(team);
    }

    method DeleteAward(id: int) returns (found: bool)
      modifies this`awards, this`teams
      ensures found <==> AwardById(old(awards), id).Some?
      ensures Tables() == Step(w, old(Tables()), RevokeAward(id))
    {
      var stored := AwardById(awards, id);
      if stored == None {
        NothingHappens(w, Tables(), RevokeAward(id));
        return false;
      }
      OneStale(w, Tables(), RevokeAward(id), Tables().(awards := Map(awards, Revoking(id))), stored.value.team);
      awards := Map(awards, Revoking(id));
      var ok := UpdateTeamScores(stored.value.team);
      return true;
    }
  }
}
