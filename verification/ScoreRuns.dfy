/**
 The scoreboard as a maintained cache: every operation that moves a score recomputes the teams
 it can have moved, so after any run each total is what a recomputation would give, and so is each
 per-checkpoint list but for a team of another edition that has checked in since.
 */
module ScoreRuns {
  import opened Lists
  import opened Rescoring
  import opened Scoring
  import opened Wrappers

  // ---- The operations ---------------------------------------------------------------------

  datatype Op =
    | Submit(entry: Entry)
    | EditResult(id: int, edit: Edit)
    | DeleteResult(id: int)
    | ApplyPenalty(team: int, activity: int, kind: string, amount: int)
    | ApplyShots(team: int, activity: int, shots: int)
    | GiveAward(team: int, points: real)
    | RevokeAward(award: int)
    | BuyHint(team: int, cost: int)
    | CheckIn(team: int)

  predicate SameEntry(activity: int, team: int, r: Row) { r.entry.activity == activity && r.entry.team == team }

  function FirstRow(rows: seq<Row>, p: Row -> bool): Option<Row> {
    var found := Filter(rows, p);
    if found == [] then None else Some(found[0])
  }

  function ResultOf(rows: seq<Row>, activity: int, team: int): Option<Row> {
    FirstRow(rows, (r: Row) => SameEntry(activity, team, r))
  }

  /** penalties[kind] += points, on a dict kept as a list. */
  function Charged(penalties: seq<Penalty>, kind: string, points: int): seq<Penalty> {
    if penalties == [] then [Penalty(kind, points)]
    else if penalties[0].kind == kind then [Penalty(kind, penalties[0].points + points)] + penalties[1..]
    else [penalties[0]] + Charged(penalties[1..], kind, points)
  }

  function Penalising(kind: string, amount: int): Entry -> Entry {
    (e: Entry) => e.(penalties := Charged(e.penalties, kind, amount))
  }

  function Shooting(shots: int): Entry -> Entry { (e: Entry) => e.(shots := shots) }

  function Amending(id: int, entry: Entry): Row -> Row {
    (r: Row) => if r.id == id then r.(entry := entry) else r
  }

  /** One row's modifiers replaced and the row scored again on the completed times. */
  function RowsAmended(w: World, rows: seq<Row>, id: int, entry: Entry): seq<Row> {
    var amended := Map(rows, Amending(id, entry));
    Map(amended, ScoringOne(w, id, Times(amended, entry.activity)))
  }

  function TeamsRanked(rows: seq<Row>, activity: int, exclude: Option<int>): set<int> {
    set r | r in rows && Rescored(activity, exclude, r) :: r.entry.team
  }

  function OtherThan(id: int): Row -> bool { (r: Row) => r.id != id }

  function Revoking(id: int): Award -> Award {
    (a: Award) => if a.id == id then a.(active := false) else a
  }

  function NextAwardId(awards: seq<Award>): int {
    if awards == [] then 1
    else
      var before, last := NextAwardId(awards[..|awards| - 1]), awards[|awards| - 1];
      if last.id < before then before else last.id + 1
  }

  function AwardById(awards: seq<Award>, id: int): Option<Award> {
    var found := Filter(awards, (a: Award) => a.id == id);
    if found == [] then None else Some(found[0])
  }

  /** The board before its totals are refreshed, and the teams to refresh. */
  datatype Change = Change(board: Board, stale: set<int>)

  function Submitted(w: World, b: Board, e: Entry): Change {
    if e.activity !in w.activities || !w.valid(e) || e.team !in b.teams
       || ResultOf(b.rows, e.activity, e.team).Some?
    then Change(b, {})
    else
      var r := NewRow(w, b.rows, e);
      var ranked := if Timed(w, e.activity) then TeamsRanked(b.rows + [r], e.activity, Some(r.id)) else {};
      Change(b.(rows := RowsWithNew(w, b.rows, e)), ranked + {e.team})
  }

  function ResultEdited(w: World, b: Board, id: int, edit: Edit): Change {
    match FirstRow(b.rows, HasId(id))
    case None => Change(b, {})
    case Some(r) =>
      var ranked := if edit.data.Some? && Timed(w, r.entry.activity)
                    then TeamsRanked(b.rows, r.entry.activity, None) else {};
      Change(b.(rows := RowsWithEdit(w, b.rows, id, r.entry.activity, edit)), ranked + {r.entry.team})
  }

  function Amended(w: World, b: Board, found: Option<Row>, entry: Entry -> Entry): Change {
    match found
    case None => Change(b, {})
    case Some(r) => Change(b.(rows := RowsAmended(w, b.rows, r.id, entry(r.entry))), {r.entry.team})
  }

  function WithAward(b: Board, team: int, points: real): Change {
    if team !in b.teams then Change(b, {})
    else Change(b.(awards := b.awards + [Award(NextAwardId(b.awards), team, points, true)]), {team})
  }

  /** One more visit of the team on record. */
  function Visited(teams: map<int, Team>, team: int): (r: map<int, Team>)
    requires team in teams
    ensures r.Keys == teams.Keys
  {
    teams[team := teams[team].(visits := teams[team].visits + 1)]
  }

  function Changed(w: World, b: Board, op: Op): Change {
    match op
    case Submit(e) => Submitted(w, b, e)
    case EditResult(id, edit) => ResultEdited(w, b, id, edit)
    case DeleteResult(id) =>
      (match FirstRow(b.rows, HasId(id))
       case None => Change(b, {})
       case Some(r) => Change(b.(rows := Filter(b.rows, OtherThan(id))), {r.entry.team}))
    case ApplyPenalty(team, activity, kind, amount) =>
      Amended(w, b, ResultOf(b.rows, activity, team),
              Penalising(kind, amount))
    case ApplyShots(team, activity, shots) =>
      if team !in b.teams || shots > w.shotLimit(team) then Change(b, {})
      else Amended(w, b, ResultOf(b.rows, activity, team), Shooting(shots))
    case GiveAward(team, points) => WithAward(b, team, points)
    case RevokeAward(id) =>
      (match AwardById(b.awards, id)
       case None => Change(b, {})
       case Some(a) => Change(b.(awards := Map(b.awards, Revoking(id))), {a.team}))
    case BuyHint(team, cost) => if cost == 0 then Change(b, {}) else WithAward(b, team, cost as real)
    case CheckIn(team) =>
      if team !in b.teams then Change(b, {})
      else Change(b.(teams := Visited(b.teams, team)), b.teams.Keys * w.edition)
  }

  ghost function Step(w: World, b: Board, op: Op): Board {
    var c := Changed(w, b, op);
    RecomputeAll(w, c.board, c.stale)
  }

  ghost function Run(w: World, b: Board, ops: seq<Op>): Board {
    if ops == [] then b else Step(w, Run(w, b, ops[..|ops| - 1]), ops[|ops| - 1])
  }

  // ---- Totals never drift ---------------------------------------------------------------------

  ghost predicate TotalRight(w: World, b: Board, team: int)
    requires team in b.teams
  {
    b.teams[team].total == TotalOf(w, b.rows, b.awards, team)
  }

  /** The team holds exactly what recomputing it now would give: its total, and a list as long as its visits. */
  ghost predicate Right(w: World, b: Board, team: int)
    requires team in b.teams
  {
    b.teams[team] == Recomputed(w, b, team)
  }

  ghost predicate AllRight(w: World, b: Board) { forall t | t in b.teams :: Right(w, b, t) }

  ghost predicate IdsDistinct(rows: seq<Row>) {
    forall i, j | 0 <= i < j < |rows| :: rows[i].id != rows[j].id
  }

  function OfTeam(team: int): Row -> bool { (r: Row) => r.entry.team == team }

  function AwardedTo(team: int): Award -> bool { (a: Award) => a.team == team }

  /** Nothing that concerns the team differs between the two boards. */
  ghost predicate Untouched(b: Board, c: Board, team: int) {
    && Filter(b.rows, OfTeam(team)) == Filter(c.rows, OfTeam(team))
    && Filter(b.awards, AwardedTo(team)) == Filter(c.awards, AwardedTo(team))
  }

  lemma {:induction false} SameResults(w: World, b: seq<Row>, c: seq<Row>, team: int)
    requires Filter(b, OfTeam(team)) == Filter(c, OfTeam(team))
    ensures Sum(b, TeamWorth(w, team)) == Sum(c, TeamWorth(w, team))
    ensures ScoreMap(w, b, team) == ScoreMap(w, c, team) && OrderMap(w, b, team) == OrderMap(w, c, team)
  {
    var mine := Filter(b, OfTeam(team));
    SelectedTells(w, mine, b, OfTeam(team), team);
    SelectedTells(w, mine, c, OfTeam(team), team);
  }

  lemma {:induction false} SameAwards(b: seq<Award>, c: seq<Award>, team: int)
    requires Filter(b, AwardedTo(team)) == Filter(c, AwardedTo(team))
    ensures Sum(b, AwardWorth(team)) == Sum(c, AwardWorth(team))
  {
    var given := Filter(b, AwardedTo(team));
    SelectedSum(given, b, AwardedTo(team), AwardWorth(team));
    SelectedSum(given, c, AwardedTo(team), AwardWorth(team));
  }

  lemma SameTotal(w: World, b: Board, c: Board, team: int)
    requires Untouched(b, c, team)
    ensures TotalOf(w, b.rows, b.awards, team) == TotalOf(w, c.rows, c.awards, team)
  {
    SameResults(w, b.rows, c.rows, team);
    SameAwards(b.awards, c.awards, team);
  }

  /** A team nothing was changed for is as right as it was. */
  lemma UntouchedTeam(w: World, b: Board, c: Board, team: int)
    requires Untouched(b, c, team) && team in b.teams && team in c.teams && b.teams[team] == c.teams[team]
    ensures TotalRight(w, b, team) <==> TotalRight(w, c, team)
    ensures Right(w, b, team) <==> Right(w, c, team)
  {
    SameResults(w, b.rows, c.rows, team);
    SameTotal(w, b, c, team);
  }

  /** g changes no row of the team and hands no row to another team. */
  ghost predicate Spares(g: Row -> Row, rows: seq<Row>, team: int) {
    forall r | r in rows :: g(r).entry.team == r.entry.team && (r.entry.team == team ==> g(r) == r)
  }

  lemma {:induction false} SparedRows(rows: seq<Row>, g: Row -> Row, team: int)
    requires Spares(g, rows, team)
    ensures Filter(Map(rows, g), OfTeam(team)) == Filter(rows, OfTeam(team))
  {
    if rows != [] {
      var front, r := rows[..|rows| - 1], rows[|rows| - 1];
      assert rows == front + [r];
      assert r in rows;
      SparedRows(front, g, team);
      FilterSnoc(Map(front, g), g(r), OfTeam(team));
    }
  }

  lemma {:induction false} RescoreSpares(w: World, rows: seq<Row>, activity: int, exclude: Option<int>, team: int)
    requires team !in TeamsRanked(rows, activity, exclude)
    ensures Filter(Rescore(w, rows, activity, exclude), OfTeam(team)) == Filter(rows, OfTeam(team))
  {
    var g := RescoreRow(w, activity, exclude, TimesFor(rows, activity, exclude));
    assert Spares(g, rows, team);
    SparedRows(rows, g, team);
  }

  lemma {:induction false} FirstRowMeaning(rows: seq<Row>, p: Row -> bool)
    ensures FirstRow(rows, p) == None <==> forall r | r in rows :: !p(r)
    ensures FirstRow(rows, p).Some? ==> FirstRow(rows, p).value in rows && p(FirstRow(rows, p).value)
  {
    FilterMembers(rows, p);
    var found := Filter(rows, p);
    if found != [] {
      assert found[0] in found;
    } else {
      forall r | r in rows ensures !p(r) { assert p(r) ==> r in found; }
    }
  }

  lemma FirstHasId(rows: seq<Row>, id: int)
    ensures FirstRow(rows, HasId(id)).Some? ==>
              FirstRow(rows, HasId(id)).value in rows && FirstRow(rows, HasId(id)).value.id == id
  {
    FirstRowMeaning(rows, HasId(id));
  }

  lemma IdNamesRow(rows: seq<Row>, a: Row, b: Row)
    requires IdsDistinct(rows) && a in rows && b in rows && a.id == b.id
    ensures a == b
  {
    var i :| 0 <= i < |rows| && rows[i] == a;
    var j :| 0 <= j < |rows| && rows[j] == b;
  }

  /** A change confined to one row spares every other team. */
  lemma {:induction false} OneRowSpares(rows: seq<Row>, g: Row -> Row, row: Row, team: int)
    requires IdsDistinct(rows) && row in rows && row.entry.team != team
    requires forall r | r in rows :: g(r).entry.team == r.entry.team && (r.id != row.id ==> g(r) == r)
    ensures Filter(Map(rows, g), OfTeam(team)) == Filter(rows, OfTeam(team))
  {
    forall r | r in rows && r.entry.team == team ensures g(r) == r {
      if r.id == row.id { IdNamesRow(rows, r, row); }
    }
    assert Spares(g, rows, team);
    SparedRows(rows, g, team);
  }

  lemma SubmittedSpares(w: World, b: Board, e: Entry, team: int)
    requires team in b.teams && team !in Submitted(w, b, e).stale
    ensures Untouched(b, Submitted(w, b, e).board, team)
  {
    var r := NewRow(w, b.rows, e);
    if e.team != team {
      FilterSnoc(b.rows, r, OfTeam(team));
      assert Filter(b.rows + [r], OfTeam(team)) == Filter(b.rows, OfTeam(team));
      if Timed(w, e.activity) && Submitted(w, b, e).board != b {
        RescoreSpares(w, b.rows + [r], e.activity, Some(r.id), team);
      }
    }
  }

  lemma {:induction false} KeepsIds(rows: seq<Row>, g: Row -> Row)
    requires IdsDistinct(rows) && forall r | r in rows :: g(r).id == r.id
    ensures IdsDistinct(Map(rows, g))
  {
    var after := Map(rows, g);
    forall i, j | 0 <= i < j < |after| ensures after[i].id != after[j].id {
      assert rows[i] in rows && rows[j] in rows;
    }
  }

  ghost predicate OnlyRow(g: Row -> Row, id: int, rows: seq<Row>) {
    forall r | r in rows ::
      g(r).id == r.id && g(r).entry.team == r.entry.team && (r.id != id ==> g(r) == r)
  }

  /** Two changes to the same row, one after the other, spare every other team. */
  lemma {:induction false} TwiceOneRowSpares(rows: seq<Row>, g: Row -> Row, h: Row -> Row, row: Row, team: int)
    requires IdsDistinct(rows) && row in rows && row.entry.team != team
    requires OnlyRow(g, row.id, rows) && OnlyRow(h, row.id, Map(rows, g))
    ensures Filter(Map(Map(rows, g), h), OfTeam(team)) == Filter(rows, OfTeam(team))
  {
    var once := Map(rows, g);
    OneRowSpares(rows, g, row, team);
    KeepsIds(rows, g);
    var i :| 0 <= i < |rows| && rows[i] == row;
    var image := once[i];
    assert image in once && image == g(row);
    OneRowSpares(once, h, image, team);
  }

  lemma EditedSpares(w: World, b: Board, id: int, edit: Edit, team: int)
    requires IdsDistinct(b.rows) && team in b.teams && team !in ResultEdited(w, b, id, edit).stale
    ensures Untouched(b, ResultEdited(w, b, id, edit).board, team)
  {
    FirstRowMeaning(b.rows, HasId(id));
    match FirstRow(b.rows, HasId(id))
    case None =>
    case Some(r) => RowEditedSpares(w, b.rows, r, edit, team);
  }

  /** g keeps what decides whether a row is ranked, and for whom. */
  ghost predicate KeepsRanked(g: Row -> Row, rows: seq<Row>) {
    forall r | r in rows ::
      g(r).entry.activity == r.entry.activity && g(r).entry.team == r.entry.team && g(r).completed == r.completed
  }

  lemma {:induction false} SameRanked(rows: seq<Row>, g: Row -> Row, activity: int)
    requires KeepsRanked(g, rows)
    ensures TeamsRanked(Map(rows, g), activity, None) == TeamsRanked(rows, activity, None)
  {
    var after := Map(rows, g);
    forall t | t in TeamsRanked(rows, activity, None) ensures t in TeamsRanked(after, activity, None) {
      var r :| r in rows && Rescored(activity, None, r) && r.entry.team == t;
      var i :| 0 <= i < |rows| && rows[i] == r;
      assert after[i] in after && after[i] == g(r);
    }
    forall t | t in TeamsRanked(after, activity, None) ensures t in TeamsRanked(rows, activity, None) {
      var r :| r in after && Rescored(activity, None, r) && r.entry.team == t;
      var i :| 0 <= i < |after| && after[i] == r;
      assert rows[i] in rows && r == g(rows[i]);
    }
  }

  lemma {:induction false} IdKeepsTeam(rows: seq<Row>, after: seq<Row>, r: Row)
    requires IdsDistinct(rows) && r in rows && |after| == |rows|
    requires forall i | 0 <= i < |rows| :: after[i].id == rows[i].id && after[i].entry.team == rows[i].entry.team
    ensures forall x | x in after && x.id == r.id :: x.entry.team == r.entry.team
  {
    forall x | x in after && x.id == r.id ensures x.entry.team == r.entry.team {
      var i :| 0 <= i < |after| && after[i] == x;
      IdNamesRow(rows, rows[i], r);
    }
  }

  lemma {:induction false} RowEditedSpares(w: World, rows: seq<Row>, r: Row, edit: Edit, team: int)
    requires IdsDistinct(rows) && r in rows && r.entry.team != team
    requires edit.data.Some? && Timed(w, r.entry.activity) ==> team !in TeamsRanked(rows, r.entry.activity, None)
    ensures Filter(RowsWithEdit(w, rows, r.id, r.entry.activity, edit), OfTeam(team)) == Filter(rows, OfTeam(team))
  {
    if edit.data == None {
      OneRowSpares(rows, Editing(w, r.id, edit), r, team);
    } else {
      FormEditedSpares(w, rows, r, edit, team);
    }
  }

  /** An edit with a form up to its commit: two changes to the row and a rescore of its activity. */
  function FormScored(w: World, rows: seq<Row>, id: int, activity: int, edit: Edit): seq<Row> {
    Rescore(w, ScoredOnce(w, EditedRows(w, rows, id, Unflagged(edit)), id, activity), activity, None)
  }

  lemma {:induction false} FormKeepsNames(w: World, rows: seq<Row>, id: int, activity: int, edit: Edit)
    ensures var out := FormScored(w, rows, id, activity, edit);
            |out| == |rows| && forall i | 0 <= i < |rows| :: out[i].id == rows[i].id && out[i].entry.team == rows[i].entry.team
  {
    var held := EditedRows(w, rows, id, Unflagged(edit));
    var scored := ScoredOnce(w, held, id, activity);
    forall i | 0 <= i < |rows| ensures scored[i].id == rows[i].id && scored[i].entry.team == rows[i].entry.team {
      assert held[i].id == rows[i].id && held[i].entry.team == rows[i].entry.team;
    }
  }

  lemma {:induction false} FormScoredSpares(w: World, rows: seq<Row>, r: Row, edit: Edit, team: int)
    requires IdsDistinct(rows) && r in rows && r.entry.team != team
    requires Timed(w, r.entry.activity) ==> team !in TeamsRanked(rows, r.entry.activity, None)
    ensures Filter(FormScored(w, rows, r.id, r.entry.activity, edit), OfTeam(team)) == Filter(rows, OfTeam(team))
  {
    var activity := r.entry.activity;
    var g := Editing(w, r.id, Unflagged(edit));
    var held := EditedRows(w, rows, r.id, Unflagged(edit));
    var h := ScoringOne(w, r.id, Times(held, activity));
    assert OnlyRow(g, r.id, rows) && OnlyRow(h, r.id, held);
    TwiceOneRowSpares(rows, g, h, r, team);
    SameRanked(rows, g, activity);
    SameRanked(held, h, activity);
    if Timed(w, activity) { RescoreSpares(w, ScoredOnce(w, held, r.id, activity), activity, None, team); }
  }

  lemma {:induction false} FlaggingSpares(rows: seq<Row>, flags: map<int, bool>, team: int)
    requires forall x | x in rows && x.id in flags :: x.entry.team != team
    ensures Filter(Map(rows, Flagging(flags)), OfTeam(team)) == Filter(rows, OfTeam(team))
  {
    assert Spares(Flagging(flags), rows, team);
    SparedRows(rows, Flagging(flags), team);
  }

  lemma {:induction false} FormEditedSpares(w: World, rows: seq<Row>, r: Row, edit: Edit, team: int)
    requires IdsDistinct(rows) && r in rows && r.entry.team != team && edit.data.Some?
    requires Timed(w, r.entry.activity) ==> team !in TeamsRanked(rows, r.entry.activity, None)
    ensures Filter(RowsWithEdit(w, rows, r.id, r.entry.activity, edit), OfTeam(team)) == Filter(rows, OfTeam(team))
  {
    var out := FormScored(w, rows, r.id, r.entry.activity, edit);
    FormKeepsNames(w, rows, r.id, r.entry.activity, edit);
    IdKeepsTeam(rows, out, r);
    FormScoredSpares(w, rows, r, edit, team);
    FlaggingSpares(out, FlagOf(r.id, edit), team);
  }

  lemma {:induction false} RowAmendedSpares(w: World, rows: seq<Row>, r: Row, entry: Entry, team: int)
    requires IdsDistinct(rows) && r in rows && r.entry.team != team
    requires entry.team == r.entry.team
    ensures Filter(RowsAmended(w, rows, r.id, entry), OfTeam(team)) == Filter(rows, OfTeam(team))
  {
    var g := Amending(r.id, entry);
    var amended := Map(rows, g);
    var h := ScoringOne(w, r.id, Times(amended, entry.activity));
    forall x | x in rows ensures g(x).entry.team == x.entry.team {
      if x.id == r.id { IdNamesRow(rows, x, r); }
    }
    assert OnlyRow(g, r.id, rows) && OnlyRow(h, r.id, amended);
    TwiceOneRowSpares(rows, g, h, r, team);
  }

  lemma AmendedSpares(w: World, b: Board, found: Option<Row>, entry: Entry -> Entry, team: int)
    requires IdsDistinct(b.rows) && (found.Some? ==> found.value in b.rows)
    requires forall e :: entry(e).team == e.team
    requires team in b.teams && team !in Amended(w, b, found, entry).stale
    ensures Untouched(b, Amended(w, b, found, entry).board, team)
  {
    if found.Some? { RowAmendedSpares(w, b.rows, found.value, entry(found.value.entry), team); }
  }

  lemma {:induction false} DeletedSpares(rows: seq<Row>, id: int, team: int)
    requires forall r | r in rows && r.id == id :: r.entry.team != team
    ensures Filter(Filter(rows, OtherThan(id)), OfTeam(team)) == Filter(rows, OfTeam(team))
  {
    if rows != [] {
      var front, r := rows[..|rows| - 1], rows[|rows| - 1];
      assert rows == front + [r];
      assert r in rows;
      DeletedSpares(front, id, team);
      FilterSnoc(front, r, OfTeam(team));
      if r.id != id {
        FilterSnoc(Filter(front, OtherThan(id)), r, OfTeam(team));
      } else {
        assert Filter(rows, OtherThan(id)) == Filter(front, OtherThan(id));
        assert Filter(rows, OfTeam(team)) == Filter(front, OfTeam(team));
      }
    }
  }

  lemma {:induction false} RevokedSpares(awards: seq<Award>, id: int, team: int)
    requires forall a | a in awards && a.id == id :: a.team != team
    ensures Filter(Map(awards, Revoking(id)), AwardedTo(team)) == Filter(awards, AwardedTo(team))
  {
    if awards != [] {
      var front, a := awards[..|awards| - 1], awards[|awards| - 1];
      assert awards == front + [a];
      assert a in awards;
      RevokedSpares(front, id, team);
      FilterSnoc(Map(front, Revoking(id)), Revoking(id)(a), AwardedTo(team));
      FilterSnoc(front, a, AwardedTo(team));
      assert a.team == team ==> Revoking(id)(a) == a;
    }
  }

  lemma AwardSpares(b: Board, team: int, points: real, other: int)
    requires other !in WithAward(b, team, points).stale
    ensures Untouched(b, WithAward(b, team, points).board, other)
  {
    FilterSnoc(b.awards, Award(NextAwardId(b.awards), team, points, true), AwardedTo(other));
  }

  // ---- Ids stay ids ----------------------------------------------------------------------------------

  ghost predicate AwardIdsDistinct(awards: seq<Award>) {
    forall i, j | 0 <= i < j < |awards| :: awards[i].id != awards[j].id
  }

  /** Row and award ids name one row each. */
  ghost predicate Keyed(b: Board) {
    IdsDistinct(b.rows) && AwardIdsDistinct(b.awards)
  }

  lemma {:induction false} FilterKeepsIds(rows: seq<Row>, p: Row -> bool)
    requires IdsDistinct(rows)
    ensures IdsDistinct(Filter(rows, p))
  {
    if rows != [] {
      var front, r := rows[..|rows| - 1], rows[|rows| - 1];
      assert rows == front + [r];
      FilterKeepsIds(front, p);
      FilterMembers(front, p);
      forall x | x in front ensures x.id != r.id {
        var i :| 0 <= i < |front| && front[i] == x;
        assert rows[i] == x;
      }
      var kept := Filter(front, p);
      forall i | 0 <= i < |kept| ensures kept[i].id != r.id { assert kept[i] in kept; }
    }
  }

  lemma NewIdDistinct(w: World, rows: seq<Row>, e: Entry)
    requires IdsDistinct(rows)
    ensures IdsDistinct(rows + [NewRow(w, rows, e)])
  {
    forall i | 0 <= i < |rows| ensures rows[i].id != NextId(rows) { assert rows[i] in rows; }
  }

  lemma {:induction false} NextAwardIdFresh(awards: seq<Award>)
    ensures forall a | a in awards :: a.id < NextAwardId(awards)
  {
    if awards != [] {
      NextAwardIdFresh(awards[..|awards| - 1]);
      assert awards == awards[..|awards| - 1] + [awards[|awards| - 1]];
    }
  }

  // ---- Steps and runs --------------------------------------------------------------------------------

  lemma {:induction false} AwardByIdMeaning(awards: seq<Award>, id: int)
    ensures AwardById(awards, id).Some? ==>
              AwardById(awards, id).value in awards && AwardById(awards, id).value.id == id
  {
    var p := (a: Award) => a.id == id;
    FilterMembers(awards, p);
    var found := Filter(awards, p);
    if found != [] { assert found[0] in found; }
  }

  lemma AwardIdNames(awards: seq<Award>, a: Award, b: Award)
    requires AwardIdsDistinct(awards) && a in awards && b in awards && a.id == b.id
    ensures a == b
  {
    var i :| 0 <= i < |awards| && awards[i] == a;
    var j :| 0 <= j < |awards| && awards[j] == b;
  }

  lemma DeleteSpares(w: World, b: Board, id: int, team: int)
    requires IdsDistinct(b.rows) && team !in Changed(w, b, DeleteResult(id)).stale
    ensures Untouched(b, Changed(w, b, DeleteResult(id)).board, team)
  {
    FirstRowMeaning(b.rows, HasId(id));
    match FirstRow(b.rows, HasId(id))
    case None =>
    case Some(r) =>
      forall x | x in b.rows && x.id == id ensures x.entry.team != team { IdNamesRow(b.rows, x, r); }
      DeletedSpares(b.rows, id, team);
  }

  lemma RevokeSpares(w: World, b: Board, id: int, team: int)
    requires AwardIdsDistinct(b.awards) && team !in Changed(w, b, RevokeAward(id)).stale
    ensures Untouched(b, Changed(w, b, RevokeAward(id)).board, team)
  {
    AwardByIdMeaning(b.awards, id);
    match AwardById(b.awards, id)
    case None =>
    case Some(a) =>
      forall x | x in b.awards && x.id == id ensures x.team != team { AwardIdNames(b.awards, x, a); }
      RevokedSpares(b.awards, id, team);
  }

  lemma ResultOfMeaning(rows: seq<Row>, activity: int, team: int)
    ensures ResultOf(rows, activity, team).Some? ==>
              ResultOf(rows, activity, team).value in rows && SameEntry(activity, team, ResultOf(rows, activity, team).value)
  {
    FirstRowMeaning(rows, (r: Row) => SameEntry(activity, team, r));
  }

  lemma PenaltySpares(w: World, b: Board, t: int, activity: int, kind: string, amount: int, team: int)
    requires Keyed(b) && team in b.teams && team !in Changed(w, b, ApplyPenalty(t, activity, kind, amount)).stale
    ensures Untouched(b, Changed(w, b, ApplyPenalty(t, activity, kind, amount)).board, team)
  {
    var found := ResultOf(b.rows, activity, t);
    ResultOfMeaning(b.rows, activity, t);
    assert Changed(w, b, ApplyPenalty(t, activity, kind, amount)) == Amended(w, b, found, Penalising(kind, amount));
    AmendedSpares(w, b, found, Penalising(kind, amount), team);
  }

  lemma ShotsSpares(w: World, b: Board, t: int, activity: int, shots: int, team: int)
    requires Keyed(b) && team in b.teams && team !in Changed(w, b, ApplyShots(t, activity, shots)).stale
    ensures Untouched(b, Changed(w, b, ApplyShots(t, activity, shots)).board, team)
  {
    ResultOfMeaning(b.rows, activity, t);
    if t in b.teams && shots <= w.shotLimit(t) {
      AmendedSpares(w, b, ResultOf(b.rows, activity, t), Shooting(shots), team);
    }
  }

  lemma SameTeams(w: World, b: Board, op: Op)
    ensures Changed(w, b, op).board.teams.Keys == b.teams.Keys
    ensures forall t | t in b.teams && op != CheckIn(t) :: Changed(w, b, op).board.teams[t] == b.teams[t]
  {
  }

  /** An operation leaves alone every team it does not refresh. */
  lemma OperationSpares(w: World, b: Board, op: Op, team: int)
    requires Keyed(b) && team in b.teams && team !in Changed(w, b, op).stale
    ensures Untouched(b, Changed(w, b, op).board, team)
  {
    match op
    case Submit(e) => SubmittedSpares(w, b, e, team);
    case EditResult(id, edit) => EditedSpares(w, b, id, edit, team);
    case DeleteResult(id) => DeleteSpares(w, b, id, team);
    case ApplyPenalty(t, activity, kind, amount) => PenaltySpares(w, b, t, activity, kind, amount, team);
    case ApplyShots(t, activity, shots) => ShotsSpares(w, b, t, activity, shots, team);
    case GiveAward(t, points) => AwardSpares(b, t, points, team);
    case RevokeAward(id) => RevokeSpares(w, b, id, team);
    case BuyHint(t, cost) => if cost != 0 { AwardSpares(b, t, cost as real, team); }
    case CheckIn(t) =>
  }

  lemma RowsKeepIds(w: World, b: Board, op: Op)
    requires Keyed(b)
    ensures Keyed(Changed(w, b, op).board)
  {
    var after := Changed(w, b, op).board;
    match op
    case Submit(e) =>
      NewIdDistinct(w, b.rows, e);
      var r := NewRow(w, b.rows, e);
      KeepsIds(b.rows + [r], RescoreRow(w, e.activity, Some(r.id), TimesFor(b.rows + [r], e.activity, Some(r.id))));
    case EditResult(id, edit) =>
      if FirstRow(b.rows, HasId(id)).Some? {
        EditKeepsIds(w, b.rows, id, FirstRow(b.rows, HasId(id)).value.entry.activity, edit);
      }
    case DeleteResult(id) => FilterKeepsIds(b.rows, OtherThan(id));
    case ApplyPenalty(t, activity, kind, amount) =>
      if ResultOf(b.rows, activity, t).Some? {
        var r := ResultOf(b.rows, activity, t).value;
        AmendKeepsIds(w, b.rows, r.id, r.entry.(penalties := Charged(r.entry.penalties, kind, amount)));
      }
    case ApplyShots(t, activity, shots) =>
      if ResultOf(b.rows, activity, t).Some? {
        var r := ResultOf(b.rows, activity, t).value;
        AmendKeepsIds(w, b.rows, r.id, r.entry.(shots := shots));
      }
    case GiveAward(t, points) => NewAwardKeepsIds(b.awards, t, points);
    case RevokeAward(id) => RevokeKeepsIds(b.awards, id);
    case BuyHint(t, cost) => NewAwardKeepsIds(b.awards, t, cost as real);
    case CheckIn(t) =>
  }

  lemma EditKeepsIds(w: World, rows: seq<Row>, id: int, activity: int, edit: Edit)
    requires IdsDistinct(rows)
    ensures IdsDistinct(RowsWithEdit(w, rows, id, activity, edit))
  {
    if edit.data == None {
      KeepsIds(rows, Editing(w, id, edit));
    } else {
      FormKeepsNames(w, rows, id, activity, edit);
      KeepsIds(FormScored(w, rows, id, activity, edit), Flagging(FlagOf(id, edit)));
    }
  }

  lemma AmendKeepsIds(w: World, rows: seq<Row>, id: int, entry: Entry)
    requires IdsDistinct(rows)
    ensures IdsDistinct(RowsAmended(w, rows, id, entry))
  {
    var amended := Map(rows, Amending(id, entry));
    KeepsIds(rows, Amending(id, entry));
    KeepsIds(amended, ScoringOne(w, id, Times(amended, entry.activity)));
  }

  lemma {:induction false} NewAwardKeepsIds(awards: seq<Award>, team: int, points: real)
    requires AwardIdsDistinct(awards)
    ensures AwardIdsDistinct(awards + [Award(NextAwardId(awards), team, points, true)])
  {
    NextAwardIdFresh(awards);
    forall i | 0 <= i < |awards| ensures awards[i].id != NextAwardId(awards) { assert awards[i] in awards; }
  }

  lemma {:induction false} RevokeKeepsIds(awards: seq<Award>, id: int)
    requires AwardIdsDistinct(awards)
    ensures AwardIdsDistinct(Map(awards, Revoking(id)))
  {
    var after := Map(awards, Revoking(id));
    assert forall i | 0 <= i < |after| :: after[i].id == awards[i].id;
  }

  /** Checks in outside of the edition: the visit is stored and the team is not recomputed. */
  predicate ChecksInOutside(w: World, op: Op, team: int) { op == CheckIn(team) && team !in w.edition }

  /** A visit on record makes the list due one slot longer, and leaves the total as it was. */
  lemma VisitOutside(w: World, b: Board, team: int)
    requires team in b.teams && team !in w.edition
    ensures var after := Step(w, b, CheckIn(team));
            && team in after.teams && after.teams[team] == b.teams[team].(visits := b.teams[team].visits + 1)
            && (TotalRight(w, after, team) <==> TotalRight(w, b, team))
            && (|b.teams[team].scores| <= b.teams[team].visits ==> |after.teams[team].scores| < after.teams[team].visits)
            && (|after.teams[team].scores| < after.teams[team].visits ==> !Right(w, after, team))
  {
    assert Changed(w, b, CheckIn(team)) == Change(b.(teams := Visited(b.teams, team)), b.teams.Keys * w.edition);
    SameTotal(w, b, Step(w, b, CheckIn(team)), team);
  }

  /** What one operation, accepted or refused, does to a team: it is refreshed, or left as right as it was. */
  lemma TeamAfterStep(w: World, b: Board, op: Op, team: int)
    requires Keyed(b) && team in b.teams && !ChecksInOutside(w, op, team)
    ensures var stale, after := Changed(w, b, op).stale, Step(w, b, op);
            && team in after.teams
            && (team in stale ==> Right(w, after, team))
            && (team !in stale ==> after.teams[team] == b.teams[team]
                                   && (TotalRight(w, after, team) <==> TotalRight(w, b, team))
                                   && (Right(w, after, team) <==> Right(w, b, team)))
  {
    var c := Changed(w, b, op);
    SameTeams(w, b, op);
    if team !in c.stale {
      OperationSpares(w, b, op, team);
      UntouchedTeam(w, b, Step(w, b, op), team);
    }
  }

  lemma StepKeepsKeys(w: World, b: Board, op: Op)
    requires Keyed(b)
    ensures Keyed(Step(w, b, op)) && Step(w, b, op).teams.Keys == b.teams.Keys
  {
    RowsKeepIds(w, b, op);
    SameTeams(w, b, op);
  }

  lemma {:induction false} RunKeepsKeys(w: World, b: Board, ops: seq<Op>)
    requires Keyed(b)
    ensures Keyed(Run(w, b, ops)) && Run(w, b, ops).teams.Keys == b.teams.Keys
  {
    if ops != [] {
      RunKeepsKeys(w, b, ops[..|ops| - 1]);
      StepKeepsKeys(w, Run(w, b, ops[..|ops| - 1]), ops[|ops| - 1]);
    }
  }

  /** One operation on a right board leaves every team right, unless it checks in a team of another edition. */
  lemma StepRightIff(w: World, b: Board, op: Op, team: int)
    requires Keyed(b) && team in b.teams && Right(w, b, team)
    ensures team in Step(w, b, op).teams && TotalRight(w, Step(w, b, op), team)
    ensures Right(w, Step(w, b, op), team) <==> !ChecksInOutside(w, op, team)
  {
    if ChecksInOutside(w, op, team) {
      VisitOutside(w, b, team);
    } else {
      TeamAfterStep(w, b, op, team);
    }
  }

  /** The team has checked in outside of its edition since it was last recomputed. */
  ghost predicate Behind(w: World, b: Board, ops: seq<Op>, team: int) {
    ops != [] &&
    var front, last := ops[..|ops| - 1], ops[|ops| - 1];
    team !in Changed(w, Run(w, b, front), last).stale && (ChecksInOutside(w, last, team) || Behind(w, b, front, team))
  }

  /** Where a run leaves a team: its total right; its list right too, or too short. */
  ghost predicate Kept(w: World, b: Board, team: int, behind: bool) {
    && team in b.teams && TotalRight(w, b, team) && |b.teams[team].scores| <= b.teams[team].visits
    && (!behind ==> Right(w, b, team))
    && (behind ==> |b.teams[team].scores| < b.teams[team].visits)
  }

  lemma StepKept(w: World, b: Board, op: Op, team: int, behind: bool)
    requires Keyed(b) && Kept(w, b, team, behind)
    ensures Kept(w, Step(w, b, op), team,
                 team !in Changed(w, b, op).stale && (ChecksInOutside(w, op, team) || behind))
  {
    if ChecksInOutside(w, op, team) {
      VisitOutside(w, b, team);
    } else {
      TeamAfterStep(w, b, op, team);
    }
  }

  lemma {:induction false} RunKept(w: World, b: Board, ops: seq<Op>, team: int)
    requires Keyed(b) && team in b.teams && Right(w, b, team)
    ensures Kept(w, Run(w, b, ops), team, Behind(w, b, ops, team))
  {
    if ops != [] {
      var front := ops[..|ops| - 1];
      RunKept(w, b, front, team);
      RunKeepsKeys(w, b, front);
      StepKept(w, Run(w, b, front), ops[|ops| - 1], team, Behind(w, b, front, team));
    }
  }

  /**
   Totals never drift: after any run every total is what a recomputation gives, and a team's list is
   too, exactly when the team is not behind.
   */
  lemma {:induction false} RunKeepsTotals(w: World, b: Board, ops: seq<Op>, team: int)
    requires Keyed(b) && team in b.teams && Right(w, b, team)
    ensures team in Run(w, b, ops).teams && TotalRight(w, Run(w, b, ops), team)
    ensures Right(w, Run(w, b, ops), team) <==> !Behind(w, b, ops, team)
  {
    RunKept(w, b, ops, team);
  }

  /** In particular a run that checks in teams of the edition only leaves every team right. */
  lemma {:induction false} EditionStaysRight(w: World, b: Board, ops: seq<Op>)
    requires Keyed(b) && AllRight(w, b)
    requires forall t | CheckIn(t) in ops && t in b.teams :: t in w.edition
    ensures AllRight(w, Run(w, b, ops))
  {
    RunKeepsKeys(w, b, ops);
    forall t | t in b.teams ensures Right(w, Run(w, b, ops), t) {
      RunKeepsTotals(w, b, ops, t);
      NeverBehind(w, b, ops, t);
    }
  }

  lemma {:induction false} NeverBehind(w: World, b: Board, ops: seq<Op>, team: int)
    requires CheckIn(team) in ops ==> team in w.edition
    ensures !Behind(w, b, ops, team)
  {
    if ops != [] {
      var front, last := ops[..|ops| - 1], ops[|ops| - 1];
      assert last in ops && forall op | op in front :: op in ops;
      NeverBehind(w, b, front, team);
    }
  }
}
