/**
 What each operation does to the tables, row by row: which fields it stores, what every score is then
 computed from, and what it leaves alone.
 */
module BoardLaws {
  import opened Lists
  import opened Rescoring
  import opened ScoreFormula
  import opened ScoreRuns
  import opened Scoring
  import opened Wrappers

  predicate IsTimed(w: World, activity: int) { activity in w.activities && w.activities[activity].timed }

  lemma StepRows(w: World, b: Board, op: Op)
    ensures Step(w, b, op).rows == Changed(w, b, op).board.rows && Step(w, b, op).awards == Changed(w, b, op).board.awards
  {
  }

  lemma NothingHappens(w: World, b: Board, op: Op)
    requires Changed(w, b, op) == Change(b, {})
    ensures Step(w, b, op) == b
  {
  }

  // ---- Submissions -----------------------------------------------------------------------------

  /** The activity and the team exist, the form is valid, and the team has no result for it yet. */
  predicate Admissible(w: World, b: Board, e: Entry) {
    && e.activity in w.activities && w.valid(e) && e.team in b.teams
    && forall r | r in b.rows :: !(r.entry.activity == e.activity && r.entry.team == e.team)
  }

  lemma AdmissibleIsFree(b: Board, e: Entry)
    ensures ResultOf(b.rows, e.activity, e.team) == None <==>
            forall r | r in b.rows :: !(r.entry.activity == e.activity && r.entry.team == e.team)
  {
    FirstRowMeaning(b.rows, (r: Row) => SameEntry(e.activity, e.team, r));
  }

  lemma RefusedSubmission(w: World, b: Board, e: Entry)
    requires !Admissible(w, b, e)
    ensures Step(w, b, Submit(e)) == b
  {
    AdmissibleIsFree(b, e);
    NothingHappens(w, b, Submit(e));
  }

  /** The times after a submission are the stored ones and the new one. */
  lemma {:induction false} TimesAfterSubmission(w: World, rows: seq<Row>, e: Entry)
    requires Timed(w, e.activity)
    ensures Times(RowsWithNew(w, rows, e), e.activity) == Times(rows, e.activity) + OwnTime(e)
  {
    var r := NewRow(w, rows, e);
    var g := RescoreRow(w, e.activity, Some(r.id), TimesFor(rows + [r], e.activity, Some(r.id)));
    TimesWithNew(w, rows, e);
    assert KeepsTimes(g, rows + [r], e.activity);
    TimesKept(rows + [r], g, e.activity);
  }

  lemma ExcludedIsLeft(w: World, x: Row, activity: int, times: seq<real>)
    ensures RescoreRow(w, activity, Some(x.id), times)(x) == x
  {
    var excluded: Option<int> := Some(x.id);
    assert !Rescored(activity, excluded, x);
  }

  /** The rescore passes the new row over. */
  lemma {:induction false} NewRowLast(w: World, rows: seq<Row>, e: Entry)
    ensures |RowsWithNew(w, rows, e)| == |rows| + 1 && RowsWithNew(w, rows, e)[|rows|] == NewRow(w, rows, e)
  {
    var r := NewRow(w, rows, e);
    var times := TimesFor(rows + [r], e.activity, Some(r.id));
    ExcludedIsLeft(w, r, e.activity, times);
    assert (rows + [r])[|rows|] == r;
  }

  /** One more row, completed and worth its score, whatever the activity's type. */
  lemma {:induction false} SubmissionStored(w: World, b: Board, e: Entry)
    requires Lawful(w) && Admissible(w, b, e)
    ensures var n, after := |b.rows|, Step(w, b, Submit(e)).rows;
            && |after| == n + 1
            && after[n].entry == e && after[n].completed
            && after[n].timeScore == (if IsTimed(w, e.activity) then e.data.time else None)
            && after[n].final == Some(w.score(e, Times(after, e.activity)))
            && forall r | r in b.rows :: r.id != after[n].id
  {
    AdmissibleIsFree(b, e);
    StepRows(w, b, Submit(e));
    NewRowLast(w, b.rows, e);
    if Timed(w, e.activity) { TimesAfterSubmission(w, b.rows, e); }
  }

  lemma RescoredBut(w: World, x: Row, activity: int, id: int, times: seq<real>)
    requires x.id != id
    ensures RescoreRow(w, activity, Some(id), times)(x) ==
            if x.entry.activity == activity && x.completed then x.(final := Some(w.score(x.entry, times))) else x
  {
    var excluded: Option<int> := Some(id);
    assert excluded != Some(x.id);
    assert Rescored(activity, excluded, x) <==> x.entry.activity == activity && x.completed;
  }

  lemma {:induction false} OthersScored(w: World, rows: seq<Row>, e: Entry, i: nat)
    requires Timed(w, e.activity) && i < |rows|
    ensures var x, after := rows[i], RowsWithNew(w, rows, e);
            after[i] == if x.entry.activity == e.activity && x.completed
                        then x.(final := Some(w.score(x.entry, Times(after, e.activity)))) else x
  {
    var r, times := NewRow(w, rows, e), Times(rows, e.activity) + OwnTime(e);
    TimesForNew(w, rows, e);
    TimesAfterSubmission(w, rows, e);
    assert rows[i] in rows;
    RescoredBut(w, rows[i], e.activity, r.id, times);
    assert (rows + [r])[i] == rows[i];
    assert RowsWithNew(w, rows, e) == Map(rows + [r], RescoreRow(w, e.activity, Some(r.id), times));
  }

  /** The others keep all but their scores; completed ones of a timed activity are scored on the new population. */
  lemma {:induction false} OthersAfterSubmission(w: World, b: Board, e: Entry, i: nat)
    requires Admissible(w, b, e) && i < |b.rows|
    ensures var x, after := b.rows[i], Step(w, b, Submit(e)).rows;
            && i < |after| && after[i].(final := x.final) == x
            && after[i].final ==
               if IsTimed(w, e.activity) && x.entry.activity == e.activity && x.completed
               then Some(w.score(x.entry, Times(after, e.activity))) else x.final
  {
    AdmissibleIsFree(b, e);
    StepRows(w, b, Submit(e));
    if Timed(w, e.activity) { OthersScored(w, b.rows, e, i); }
  }

  // ---- Edits -------------------------------------------------------------------------------------

  /** The field as sent, or as it was. */
  function Sent<T>(field: Option<T>, was: T): T { if field.Some? then field.value else was }

  ghost predicate FieldsStored(w: World, x: Row, y: Row, edit: Edit) {
    && y.id == x.id && y.entry.activity == x.entry.activity && y.entry.team == x.entry.team
    && y.entry.data == Sent(edit.data, x.entry.data) && y.entry.shots == Sent(edit.shots, x.entry.shots)
    && y.entry.penalties == Sent(edit.penalties, x.entry.penalties)
    && y.completed == Sent(edit.completed, x.completed)
    && y.timeScore == if edit.data.Some? && IsTimed(w, x.entry.activity) then edit.data.value.time else x.timeScore
  }

  /** The rows with the completion flags of others: the population an edit with a form is scored on. */
  function WithFlags(rows: seq<Row>, flags: seq<Row>): seq<Row>
    requires |rows| == |flags|
  {
    seq(|rows|, i requires 0 <= i < |rows| => rows[i].(completed := flags[i].completed))
  }

  lemma {:induction false} TimesIgnoreScores(a: seq<Row>, b: seq<Row>, activity: int)
    requires |a| == |b| && forall i | 0 <= i < |a| :: a[i].(final := None) == b[i].(final := None)
    ensures Times(a, activity) == Times(b, activity)
  {
    if a != [] {
      var n := |a| - 1;
      assert a == a[..n] + [a[n]] && b == b[..n] + [b[n]];
      TimesIgnoreScores(a[..n], b[..n], activity);
      assert a[n].(final := None) == b[n].(final := None);
      assert Ranks(activity, a[n]) == Ranks(activity, a[n].(final := None)) && TimeOf(a[n]) == TimeOf(a[n].(final := None));
      assert Ranks(activity, b[n]) == Ranks(activity, b[n].(final := None)) && TimeOf(b[n]) == TimeOf(b[n].(final := None));
      TimesSnoc(a[..n], a[n], activity);
      TimesSnoc(b[..n], b[n], activity);
    }
  }

  lemma FoundRow(b: Board, id: int, x: Row)
    requires Keyed(b) && x in b.rows && x.id == id
    ensures FirstRow(b.rows, HasId(id)) == Some(x)
  {
    FirstRowMeaning(b.rows, HasId(id));
    if FirstRow(b.rows, HasId(id)).Some? { IdNamesRow(b.rows, FirstRow(b.rows, HasId(id)).value, x); }
  }

  lemma NothingToChange(w: World, b: Board, id: int, edit: Edit)
    requires forall r | r in b.rows :: r.id != id
    ensures Step(w, b, EditResult(id, edit)) == b && Step(w, b, DeleteResult(id)) == b
  {
    FirstRowMeaning(b.rows, HasId(id));
    NothingHappens(w, b, EditResult(id, edit));
    NothingHappens(w, b, DeleteResult(id));
  }

  /** One row through an edit with a form, on these times. */
  function FormRow(w: World, activity: int, id: int, edit: Edit, times: seq<real>, x: Row): Row {
    var once := ScoringOne(w, id, times)(Editing(w, id, Unflagged(edit))(x));
    Flagging(FlagOf(id, edit))(if Timed(w, activity) then RescoreRow(w, activity, None, times)(once) else once)
  }

  lemma {:induction false} FormRows(w: World, rows: seq<Row>, id: int, activity: int, edit: Edit)
    requires edit.data.Some?
    ensures var times, after := Times(EditedRows(w, rows, id, Unflagged(edit)), activity), RowsWithEdit(w, rows, id, activity, edit);
            |after| == |rows| && forall i | 0 <= i < |rows| :: after[i] == FormRow(w, activity, id, edit, times, rows[i])
  {
    var held := EditedRows(w, rows, id, Unflagged(edit));
    var times := Times(held, activity);
    var scored := ScoredOnce(w, held, id, activity);
    var rescored := Rescore(w, scored, activity, None);
    TimesOnceScored(w, held, id, activity);
    forall i | 0 <= i < |rows|
      ensures RowsWithEdit(w, rows, id, activity, edit)[i] == FormRow(w, activity, id, edit, times, rows[i])
    {
      var once := ScoringOne(w, id, times)(Editing(w, id, Unflagged(edit))(rows[i]));
      assert scored[i] == once;
      assert rescored[i] == if Timed(w, activity) then RescoreRow(w, activity, None, times)(once) else once;
    }
  }

  lemma {:induction false} TimesOnceScored(w: World, held: seq<Row>, id: int, activity: int)
    ensures TimesFor(ScoredOnce(w, held, id, activity), activity, None) == Times(held, activity)
  {
    var g := ScoringOne(w, id, Times(held, activity));
    assert KeepsTimes(g, held, activity);
    TimesKept(held, g, activity);
    TimesForAll(ScoredOnce(w, held, id, activity), activity);
  }

  lemma FormRowStores(w: World, activity: int, id: int, edit: Edit, times: seq<real>, x: Row)
    requires edit.data.Some? && (x.id == id ==> x.entry.activity == activity)
    ensures var y := FormRow(w, activity, id, edit, times, x);
            && (if x.id == id then FieldsStored(w, x, y, edit) else y.(final := x.final) == x)
            && y.final == if (x.id == id && activity in w.activities)
                             || (IsTimed(w, activity) && x.entry.activity == activity && x.completed)
                          then Some(w.score(y.entry, times)) else x.final
  {
    var edited := Editing(w, id, Unflagged(edit))(x);
    var once := ScoringOne(w, id, times)(edited);
    var rescored := if Timed(w, activity) then RescoreRow(w, activity, None, times)(once) else once;
    var y := FormRow(w, activity, id, edit, times, x);
    assert y == Flagging(FlagOf(id, edit))(rescored);
    assert y.entry == edited.entry && y.final == rescored.final;
    assert edited.completed == x.completed && edited.entry.activity == x.entry.activity;
    assert once.completed == x.completed && once.entry == edited.entry;
    assert Rescored(activity, None, once) <==> x.entry.activity == activity && x.completed;
  }

  lemma {:induction false} FormTimes(w: World, rows: seq<Row>, id: int, activity: int, edit: Edit)
    requires edit.data.Some? && forall x | x in rows && x.id == id :: x.entry.activity == activity
    ensures var after := RowsWithEdit(w, rows, id, activity, edit);
            |after| == |rows| && Times(WithFlags(after, rows), activity) == Times(EditedRows(w, rows, id, Unflagged(edit)), activity)
  {
    var after, held := RowsWithEdit(w, rows, id, activity, edit), EditedRows(w, rows, id, Unflagged(edit));
    FormRows(w, rows, id, activity, edit);
    forall i | 0 <= i < |rows| ensures WithFlags(after, rows)[i].(final := None) == held[i].(final := None) {
      assert rows[i] in rows;
      FormRowStores(w, activity, id, edit, Times(held, activity), rows[i]);
    }
    TimesIgnoreScores(WithFlags(after, rows), held, activity);
  }

  /**
   An edit stores the fields it carries in the row it names, and leaves all else of every row alone
   but the scores. With a form, that row, if its activity is known, and every row of a timed activity
   that was completed get their score on the times of the activity, as the old flags select them.
   */
  lemma {:induction false} EditStored(w: World, b: Board, r: Row, edit: Edit, i: nat)
    requires Keyed(b) && r in b.rows && i < |b.rows|
    ensures var activity, x, after := r.entry.activity, b.rows[i], Step(w, b, EditResult(r.id, edit)).rows;
            && |after| == |b.rows|
            && (if x.id == r.id then FieldsStored(w, x, after[i], edit) else after[i].(final := x.final) == x)
            && after[i].final ==
               if edit.data.Some?
                  && ((x.id == r.id && activity in w.activities) || (IsTimed(w, activity) && x.entry.activity == activity && x.completed))
               then Some(w.score(after[i].entry, Times(WithFlags(after, b.rows), activity))) else x.final
  {
    var activity := r.entry.activity;
    FoundRow(b, r.id, r);
    StepRows(w, b, EditResult(r.id, edit));
    assert b.rows[i] in b.rows;
    forall x | x in b.rows && x.id == r.id ensures x == r { IdNamesRow(b.rows, x, r); }
    if edit.data.Some? {
      FormRows(w, b.rows, r.id, activity, edit);
      FormTimes(w, b.rows, r.id, activity, edit);
      FormRowStores(w, activity, r.id, edit, Times(EditedRows(w, b.rows, r.id, Unflagged(edit)), activity), b.rows[i]);
    }
  }

  /** A deletion takes the row out and leaves the others as they are. */
  lemma {:induction false} DeletionStored(w: World, b: Board, k: nat)
    requires Keyed(b) && k < |b.rows|
    ensures Step(w, b, DeleteResult(b.rows[k].id)).rows == b.rows[..k] + b.rows[k + 1..]
  {
    var r := b.rows[k];
    FoundRow(b, r.id, r);
    StepRows(w, b, DeleteResult(r.id));
    RemovedAt(b.rows, k);
  }

  lemma {:induction false} RemovedAt(rows: seq<Row>, k: nat)
    requires IdsDistinct(rows) && k < |rows|
    ensures Filter(rows, OtherThan(rows[k].id)) == rows[..k] + rows[k + 1..]
  {
    var p := OtherThan(rows[k].id);
    assert rows == rows[..k] + [rows[k]] + rows[k + 1..];
    FilterConcat(rows[..k] + [rows[k]], rows[k + 1..], p);
    FilterSnoc(rows[..k], rows[k], p);
    FilterAll(rows[..k], p);
    FilterAll(rows[k + 1..], p);
    assert rows[..k] + [] == rows[..k];
  }

  // ---- Penalties and shots ------------------------------------------------------------------------

  /** The k-th row is the first result of the team for the activity. */
  predicate FirstResult(rows: seq<Row>, activity: int, team: int, k: nat) {
    && k < |rows| && rows[k].entry.activity == activity && rows[k].entry.team == team
    && forall i | 0 <= i < k :: !(rows[i].entry.activity == activity && rows[i].entry.team == team)
  }

  lemma {:induction false} FirstResultFound(rows: seq<Row>, activity: int, team: int, k: nat)
    requires FirstResult(rows, activity, team, k)
    ensures ResultOf(rows, activity, team) == Some(rows[k])
  {
    var p := (r: Row) => SameEntry(activity, team, r);
    assert rows == rows[..k] + ([rows[k]] + rows[k + 1..]);
    FilterConcat(rows[..k], [rows[k]] + rows[k + 1..], p);
    FilterNone(rows[..k], p);
    FilterConcat([rows[k]], rows[k + 1..], p);
    assert Filter([rows[k]], p) == [rows[k]] by { FilterAll([rows[k]], p); }
  }

  /** The points charged under one kind. */
  function PointsOf(penalties: seq<Penalty>, kind: string): int {
    if penalties == [] then 0
    else (if penalties[0].kind == kind then penalties[0].points else 0) + PointsOf(penalties[1..], kind)
  }

  lemma {:induction false} ChargedByKind(penalties: seq<Penalty>, kind: string, points: int, other: string)
    ensures PointsOf(Charged(penalties, kind, points), other) ==
            PointsOf(penalties, other) + (if other == kind then points else 0)
  {
    if penalties == [] {
      assert [Penalty(kind, points)][1..] == [];
    } else if penalties[0].kind == kind {
      assert ([Penalty(kind, penalties[0].points + points)] + penalties[1..])[1..] == penalties[1..];
    } else {
      ChargedByKind(penalties[1..], kind, points, other);
      assert ([penalties[0]] + Charged(penalties[1..], kind, points))[1..] == Charged(penalties[1..], kind, points);
    }
  }

  /** One row has a new entry and is scored on it; every other row is as it was. */
  ghost predicate OneRescored(w: World, rows: seq<Row>, after: seq<Row>, k: nat, entry: Entry) {
    && k < |rows| == |after| && (forall i | 0 <= i < |rows| && i != k :: after[i] == rows[i])
    && after[k] == rows[k].(entry := entry, final := after[k].final)
    && after[k].final == if entry.activity in w.activities then Some(w.score(entry, Times(after, entry.activity))) else rows[k].final
  }

  lemma {:induction false} TimesAmended(w: World, rows: seq<Row>, id: int, entry: Entry)
    ensures Times(RowsAmended(w, rows, id, entry), entry.activity) == Times(Map(rows, Amending(id, entry)), entry.activity)
  {
    var amended := Map(rows, Amending(id, entry));
    var g := ScoringOne(w, id, Times(amended, entry.activity));
    assert KeepsTimes(g, amended, entry.activity);
    TimesKept(amended, g, entry.activity);
  }

  lemma {:induction false} AmendedRow(w: World, rows: seq<Row>, id: int, entry: Entry, i: nat)
    requires i < |rows|
    ensures var x, after := rows[i], RowsAmended(w, rows, id, entry);
            && i < |after| && (x.id != id ==> after[i] == x)
            && (x.id == id ==>
                  && after[i] == x.(entry := entry, final := after[i].final)
                  && after[i].final == if entry.activity in w.activities
                                       then Some(w.score(entry, Times(Map(rows, Amending(id, entry)), entry.activity))) else x.final)
  {
    var amended := Map(rows, Amending(id, entry));
    assert amended[i] == Amending(id, entry)(rows[i]);
    assert RowsAmended(w, rows, id, entry)[i] == ScoringOne(w, id, Times(amended, entry.activity))(amended[i]);
  }

  lemma {:induction false} AmendedRows(w: World, rows: seq<Row>, k: nat, entry: Entry)
    requires IdsDistinct(rows) && k < |rows| && entry.activity == rows[k].entry.activity
    ensures OneRescored(w, rows, RowsAmended(w, rows, rows[k].id, entry), k, entry)
  {
    var id, after := rows[k].id, RowsAmended(w, rows, rows[k].id, entry);
    TimesAmended(w, rows, id, entry);
    AmendedRow(w, rows, id, entry, k);
    forall i | 0 <= i < |rows| && i != k ensures after[i] == rows[i] {
      AmendedRow(w, rows, id, entry, i);
      assert rows[i].id != id by { if i < k {} else {} }
    }
  }

  lemma {:induction false} PenaltyRows(w: World, b: Board, team: int, activity: int, kind: string, amount: int, x: Row)
    requires ResultOf(b.rows, activity, team) == Some(x)
    ensures Step(w, b, ApplyPenalty(team, activity, kind, amount)).rows ==
            RowsAmended(w, b.rows, x.id, x.entry.(penalties := Charged(x.entry.penalties, kind, amount)))
  {
    StepRows(w, b, ApplyPenalty(team, activity, kind, amount));
  }

  lemma {:induction false} ShotsRows(w: World, b: Board, team: int, activity: int, shots: int, x: Row)
    requires ResultOf(b.rows, activity, team) == Some(x) && team in b.teams && shots <= w.shotLimit(team)
    ensures Step(w, b, ApplyShots(team, activity, shots)).rows == RowsAmended(w, b.rows, x.id, x.entry.(shots := shots))
  {
    StepRows(w, b, ApplyShots(team, activity, shots));
  }

  /** A penalty adds its amount to its kind and to no other, and the row is scored again on the times. */
  lemma {:induction false} PenaltyStored(w: World, b: Board, team: int, activity: int, kind: string, amount: int, k: nat)
    requires Keyed(b) && FirstResult(b.rows, activity, team, k)
    ensures var x, after := b.rows[k], Step(w, b, ApplyPenalty(team, activity, kind, amount)).rows;
            && k < |after|
            && OneRescored(w, b.rows, after, k, x.entry.(penalties := after[k].entry.penalties))
            && forall other :: PointsOf(after[k].entry.penalties, other) ==
                               PointsOf(x.entry.penalties, other) + (if other == kind then amount else 0)
  {
    var x := b.rows[k];
    FirstResultFound(b.rows, activity, team, k);
    PenaltyRows(w, b, team, activity, kind, amount, x);
    AmendedRows(w, b.rows, k, x.entry.(penalties := Charged(x.entry.penalties, kind, amount)));
    forall other ensures PointsOf(Charged(x.entry.penalties, kind, amount), other) ==
                         PointsOf(x.entry.penalties, other) + (if other == kind then amount else 0) {
      ChargedByKind(x.entry.penalties, kind, amount, other);
    }
  }

  /** Extra shots replace the number on the row, and the row is scored again on the times. */
  lemma {:induction false} ShotsStored(w: World, b: Board, team: int, activity: int, shots: int, k: nat)
    requires Keyed(b) && FirstResult(b.rows, activity, team, k) && team in b.teams && shots <= w.shotLimit(team)
    ensures OneRescored(w, b.rows, Step(w, b, ApplyShots(team, activity, shots)).rows, k, b.rows[k].entry.(shots := shots))
  {
    FirstResultFound(b.rows, activity, team, k);
    ShotsRows(w, b, team, activity, shots, b.rows[k]);
    AmendedRows(w, b.rows, k, b.rows[k].entry.(shots := shots));
  }

  /** Neither does anything without a result, nor shots past the limit or for a missing team. */
  lemma NoResultToModify(w: World, b: Board, team: int, activity: int, kind: string, amount: int, shots: int)
    ensures (forall r | r in b.rows :: !(r.entry.activity == activity && r.entry.team == team)) ==>
              && Step(w, b, ApplyPenalty(team, activity, kind, amount)) == b
              && Step(w, b, ApplyShots(team, activity, shots)) == b
    ensures team !in b.teams || shots > w.shotLimit(team) ==> Step(w, b, ApplyShots(team, activity, shots)) == b
  {
    FirstRowMeaning(b.rows, (r: Row) => SameEntry(activity, team, r));
    if forall r | r in b.rows :: !(r.entry.activity == activity && r.entry.team == team) {
      NothingHappens(w, b, ApplyPenalty(team, activity, kind, amount));
      NothingHappens(w, b, ApplyShots(team, activity, shots));
    }
    if team !in b.teams || shots > w.shotLimit(team) { NothingHappens(w, b, ApplyShots(team, activity, shots)); }
  }
}
