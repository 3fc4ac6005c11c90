/**
 Relative ranking over whole runs: exactly which operations leave every timed activity as a
 from-scratch rescore would.
 */
module SettledRuns {
  import opened Lists
  import opened Rescoring
  import opened ScoreFormula
  import opened ScoreRuns
  import opened Scoring
  import opened Wrappers

  /** No timed activity has a stale score: rescoring any of them from scratch changes nothing. */
  ghost predicate AllSettled(w: World, rows: seq<Row>) {
    forall a | Timed(w, a) :: Settled(w, rows, a)
  }

  /** Settled, as a statement about the members of the table. */
  ghost predicate ScoredRight(w: World, rows: seq<Row>, a: int) {
    ScoredOn(w, rows, a, Times(rows, a))
  }

  lemma SettledIsScoredRight(w: World, rows: seq<Row>, a: int)
    requires Timed(w, a)
    ensures Settled(w, rows, a) <==> ScoredRight(w, rows, a)
  {
    SettledMeaning(w, rows, a);
    if Settled(w, rows, a) {
      forall r | r in rows && Rescored(a, None, r) ensures r.final == Some(w.score(r.entry, Times(rows, a))) {
        var i :| 0 <= i < |rows| && rows[i] == r;
      }
    }
    if ScoredRight(w, rows, a) {
      forall i | 0 <= i < |rows| && Rescored(a, None, rows[i])
        ensures rows[i].final == Some(w.score(rows[i].entry, Times(rows, a)))
      {
        assert rows[i] in rows;
      }
    }
  }

  /** g leaves a row of the activity alone, or gives it its score on the present times. */
  ghost predicate Rescores(w: World, g: Row -> Row, rows: seq<Row>, a: int) {
    forall r | r in rows && Rescored(a, None, g(r)) ::
      (g(r) == r) || g(r).final == Some(w.score(g(r).entry, Times(rows, a)))
  }

  lemma {:induction false} MapKeepsRight(w: World, rows: seq<Row>, g: Row -> Row, a: int)
    requires ScoredRight(w, rows, a) && KeepsTimes(g, rows, a) && Rescores(w, g, rows, a)
    ensures ScoredRight(w, Map(rows, g), a)
  {
    var after := Map(rows, g);
    TimesKept(rows, g, a);
    forall r | r in after && Rescored(a, None, r) ensures r.final == Some(w.score(r.entry, Times(after, a))) {
      var i :| 0 <= i < |after| && after[i] == r;
      assert rows[i] in rows && r == g(rows[i]);
    }
  }

  lemma OtherRescoreKeepsRight(w: World, rows: seq<Row>, changed: int, exclude: Option<int>, a: int)
    requires a != changed && ScoredRight(w, rows, a)
    ensures ScoredRight(w, Rescore(w, rows, changed, exclude), a)
  {
    var g := RescoreRow(w, changed, exclude, TimesFor(rows, changed, exclude));
    forall r | r in rows && Rescored(a, None, g(r)) ensures g(r) == r { assert !Rescored(changed, exclude, r); }
    assert KeepsTimes(g, rows, a) && Rescores(w, g, rows, a);
    MapKeepsRight(w, rows, g, a);
  }

  // ---- New results ---------------------------------------------------------------------------

  lemma NewResultKeepsOthers(w: World, rows: seq<Row>, e: Entry, a: int)
    requires a != e.activity && ScoredRight(w, rows, a)
    ensures ScoredRight(w, RowsWithNew(w, rows, e), a)
  {
    var r := NewRow(w, rows, e);
    TimesSnoc(rows, r, a);
    assert Times(rows + [r], a) == Times(rows, a);
    OtherRescoreKeepsRight(w, rows + [r], e.activity, Some(r.id), a);
  }

  // ---- Edits and modifiers ---------------------------------------------------------------------

  /** g touches only the row with this id, which belongs to another activity. */
  lemma {:induction false} OtherRowKeepsRight(w: World, rows: seq<Row>, g: Row -> Row, id: int, a: int)
    requires ScoredRight(w, rows, a)
    requires forall r | r in rows && r.id != id :: g(r) == r
    requires forall r | r in rows && r.id == id :: r.entry.activity != a && g(r).entry.activity != a
    ensures ScoredRight(w, Map(rows, g), a)
  {
    forall r | r in rows && Rescored(a, None, g(r)) ensures g(r) == r { assert r.id != id; }
    assert KeepsTimes(g, rows, a) && Rescores(w, g, rows, a);
    MapKeepsRight(w, rows, g, a);
  }

  ghost predicate IdIsIn(rows: seq<Row>, id: int, activity: int) {
    forall r | r in rows && r.id == id :: r.entry.activity == activity
  }

  lemma {:induction false} IdInMapped(rows: seq<Row>, g: Row -> Row, id: int, activity: int)
    requires IdIsIn(rows, id, activity)
    requires forall r | r in rows :: g(r).id == r.id && g(r).entry.activity == r.entry.activity
    ensures IdIsIn(Map(rows, g), id, activity)
  {
    var after := Map(rows, g);
    forall r | r in after && r.id == id ensures r.entry.activity == activity {
      var i :| 0 <= i < |after| && after[i] == r;
      assert rows[i] in rows && r == g(rows[i]);
    }
  }

  lemma HeldKeepsOthers(w: World, rows: seq<Row>, id: int, activity: int, e: Edit, a: int)
    requires a != activity && IdIsIn(rows, id, activity) && ScoredRight(w, rows, a)
    ensures var scored := ScoredOnce(w, EditedRows(w, rows, id, e), id, activity);
            ScoredRight(w, scored, a) && IdIsIn(scored, id, activity)
  {
    var g, held := Editing(w, id, e), EditedRows(w, rows, id, e);
    OtherRowKeepsRight(w, rows, g, id, a);
    IdInMapped(rows, g, id, activity);
    OtherRowKeepsRight(w, held, ScoringOne(w, id, Times(held, activity)), id, a);
    IdInMapped(held, ScoringOne(w, id, Times(held, activity)), id, activity);
  }

  /** Two changes to a row of another activity, and a rescore of that activity. */
  lemma FormKeepsOthers(w: World, rows: seq<Row>, id: int, activity: int, e: Edit, a: int)
    requires a != activity && IdIsIn(rows, id, activity) && ScoredRight(w, rows, a)
    ensures ScoredRight(w, FormScored(w, rows, id, activity, e), a) && IdIsIn(FormScored(w, rows, id, activity, e), id, activity)
  {
    var scored := ScoredOnce(w, EditedRows(w, rows, id, Unflagged(e)), id, activity);
    HeldKeepsOthers(w, rows, id, activity, Unflagged(e), a);
    OtherRescoreKeepsRight(w, scored, activity, None, a);
    IdInMapped(scored, RescoreRow(w, activity, None, TimesFor(scored, activity, None)), id, activity);
  }

  lemma EditKeepsOthers(w: World, rows: seq<Row>, id: int, activity: int, e: Edit, a: int)
    requires a != activity && IdIsIn(rows, id, activity) && ScoredRight(w, rows, a)
    ensures ScoredRight(w, RowsWithEdit(w, rows, id, activity, e), a)
  {
    if e.data == None {
      OtherRowKeepsRight(w, rows, Editing(w, id, e), id, a);
    } else {
      FormKeepsOthers(w, rows, id, activity, e, a);
      OtherRowKeepsRight(w, FormScored(w, rows, id, activity, e), Flagging(FlagOf(id, e)), id, a);
    }
  }

  /** Only the modifiers of the row differ. */
  ghost predicate SameButModifiers(x: Entry, y: Entry) {
    x.activity == y.activity && x.team == y.team && x.data == y.data
  }

  /** The row amended, and scored again on these times. */
  function AmendScored(w: World, id: int, entry: Entry, times: seq<real>): Row -> Row {
    (r: Row) =>
      if r.id != id then r
      else if entry.activity in w.activities then r.(entry := entry, final := Some(w.score(entry, times)))
      else r.(entry := entry)
  }

  lemma AmendScoredRescores(w: World, rows: seq<Row>, r: Row, entry: Entry)
    requires IdsDistinct(rows) && r in rows && SameButModifiers(entry, r.entry) && Timed(w, entry.activity)
    ensures var g := AmendScored(w, r.id, entry, Times(rows, entry.activity));
            KeepsTimes(g, rows, entry.activity) && Rescores(w, g, rows, entry.activity)
  {
    forall x | x in rows && x.id == r.id ensures x == r { IdNamesRow(rows, x, r); }
  }

  lemma {:induction false} AmendKeepsTimes(rows: seq<Row>, r: Row, entry: Entry)
    requires IdsDistinct(rows) && r in rows && SameButModifiers(entry, r.entry)
    ensures Times(Map(rows, Amending(r.id, entry)), entry.activity) == Times(rows, entry.activity)
  {
    var g := Amending(r.id, entry);
    forall x | x in rows && x.id == r.id ensures x == r { IdNamesRow(rows, x, r); }
    assert KeepsTimes(g, rows, entry.activity);
    TimesKept(rows, g, entry.activity);
  }

  lemma AmendKeepsOwn(w: World, rows: seq<Row>, r: Row, entry: Entry)
    requires IdsDistinct(rows) && r in rows && SameButModifiers(entry, r.entry)
    requires Timed(w, entry.activity) && ScoredRight(w, rows, entry.activity)
    ensures ScoredRight(w, RowsAmended(w, rows, r.id, entry), entry.activity)
  {
    var times := Times(rows, entry.activity);
    var both := AmendScored(w, r.id, entry, times);
    AmendKeepsTimes(rows, r, entry);
    AmendScoredRescores(w, rows, r, entry);
    MapKeepsRight(w, rows, both, entry.activity);
    MapMap(rows, Amending(r.id, entry), ScoringOne(w, r.id, times), both);
  }

  lemma AmendKeepsOthers(w: World, rows: seq<Row>, r: Row, entry: Entry, a: int)
    requires IdsDistinct(rows) && r in rows && SameButModifiers(entry, r.entry)
    requires a != entry.activity && ScoredRight(w, rows, a)
    ensures ScoredRight(w, RowsAmended(w, rows, r.id, entry), a)
  {
    var g := Amending(r.id, entry);
    var amended := Map(rows, g);
    forall x | x in rows && x.id == r.id ensures x == r { IdNamesRow(rows, x, r); }
    OtherRowKeepsRight(w, rows, g, r.id, a);
    assert IdIsIn(rows, r.id, entry.activity);
    IdInMapped(rows, g, r.id, entry.activity);
    OtherRowKeepsRight(w, amended, ScoringOne(w, r.id, Times(amended, entry.activity)), r.id, a);
  }

  lemma AmendKeepsSettled(w: World, rows: seq<Row>, r: Row, entry: Entry)
    requires IdsDistinct(rows) && r in rows && SameButModifiers(entry, r.entry) && AllSettled(w, rows)
    ensures AllSettled(w, RowsAmended(w, rows, r.id, entry))
  {
    forall a | Timed(w, a) ensures Settled(w, RowsAmended(w, rows, r.id, entry), a) {
      SettledIsScoredRight(w, rows, a);
      if a == entry.activity {
        AmendKeepsOwn(w, rows, r, entry);
      } else {
        AmendKeepsOthers(w, rows, r, entry, a);
      }
      SettledIsScoredRight(w, RowsAmended(w, rows, r.id, entry), a);
    }
  }

  // ---- Deletions ---------------------------------------------------------------------------------

  lemma {:induction false} TimesWithout(rows: seq<Row>, id: int, a: int)
    requires forall r | r in rows && r.id == id :: !Ranks(a, r)
    ensures Times(Filter(rows, OtherThan(id)), a) == Times(rows, a)
  {
    if rows != [] {
      var front, r := rows[..|rows| - 1], rows[|rows| - 1];
      assert rows == front + [r];
      assert r in rows;
      TimesWithout(front, id, a);
      TimesSnoc(front, r, a);
      FilterSnoc(front, r, OtherThan(id));
      if r.id != id {
        TimesSnoc(Filter(front, OtherThan(id)), r, a);
      } else {
        assert Filter(rows, OtherThan(id)) == Filter(front, OtherThan(id));
      }
    }
  }

  lemma {:induction false} DeleteKeepsRight(w: World, rows: seq<Row>, id: int, a: int)
    requires ScoredRight(w, rows, a) && forall r | r in rows && r.id == id :: !Ranks(a, r)
    ensures ScoredRight(w, Filter(rows, OtherThan(id)), a)
  {
    TimesWithout(rows, id, a);
    FilterMembers(rows, OtherThan(id));
  }

  /** A deletion leaves the activity settled exactly when the others are worth the same without the removed time. */
  lemma {:induction false} DeletionSettlesIff(w: World, rows: seq<Row>, id: int, a: int)
    requires Timed(w, a) && Settled(w, rows, a)
    ensures var rest := Filter(rows, OtherThan(id));
            Settled(w, rest, a) <==> SameWorth(w, rest, a, Times(rows, a), Times(rest, a))
  {
    var rest := Filter(rows, OtherThan(id));
    SettledIsScoredRight(w, rows, a);
    FilterMembers(rows, OtherThan(id));
    ScoredOnSettlesIff(w, rest, a, Times(rows, a));
  }

  // ---- Steps -----------------------------------------------------------------------------------------

  /**
   Whether a settled board stays settled, told from the board and the operation: a removed or
   turned result must leave the others worth what they were, an edited one must store its worth.
   */
  ghost predicate StaysSettled(w: World, b: Board, op: Op) {
    match op
    case DeleteResult(id) =>
      (match FirstRow(b.rows, HasId(id))
       case None => true
       case Some(r) =>
         var a, rest := r.entry.activity, Filter(b.rows, OtherThan(id));
         Timed(w, a) ==> SameWorth(w, rest, a, Times(b.rows, a), Times(rest, a)))
    case EditResult(id, edit) =>
      (match FirstRow(b.rows, HasId(id))
       case None => true
       case Some(r) => Timed(w, r.entry.activity) ==> EditStays(w, b.rows, id, r.entry.activity, edit))
    case _ => true
  }

  ghost predicate EditStays(w: World, rows: seq<Row>, id: int, a: int, edit: Edit) {
    if edit.data == None then StillRight(w, rows, id, a, edit)
    else
      var held, after := EditedRows(w, rows, id, Unflagged(edit)), EditedRows(w, rows, id, edit);
      SameWorth(w, after, a, Times(held, a), Times(after, a))
  }

  lemma SubmitKeepsSettled(w: World, rows: seq<Row>, e: Entry)
    requires AllSettled(w, rows)
    ensures AllSettled(w, RowsWithNew(w, rows, e))
  {
    forall a | Timed(w, a) ensures Settled(w, RowsWithNew(w, rows, e), a) {
      if a == e.activity {
        NewResultSettles(w, rows, e);
      } else {
        SettledIsScoredRight(w, rows, a);
        NewResultKeepsOthers(w, rows, e, a);
        SettledIsScoredRight(w, RowsWithNew(w, rows, e), a);
      }
    }
  }

  lemma OthersStayOnEdit(w: World, rows: seq<Row>, id: int, activity: int, edit: Edit, a: int)
    requires IdIsIn(rows, id, activity) && a != activity && Timed(w, a) && Settled(w, rows, a)
    ensures Settled(w, RowsWithEdit(w, rows, id, activity, edit), a)
  {
    SettledIsScoredRight(w, rows, a);
    EditKeepsOthers(w, rows, id, activity, edit, a);
    SettledIsScoredRight(w, RowsWithEdit(w, rows, id, activity, edit), a);
  }

  lemma {:induction false} OthersStayOnDelete(w: World, rows: seq<Row>, id: int, activity: int, a: int)
    requires IdIsIn(rows, id, activity) && a != activity && Timed(w, a) && Settled(w, rows, a)
    ensures Settled(w, Filter(rows, OtherThan(id)), a)
  {
    SettledIsScoredRight(w, rows, a);
    DeleteKeepsRight(w, rows, id, a);
    SettledIsScoredRight(w, Filter(rows, OtherThan(id)), a);
  }

  lemma FoundRow(rows: seq<Row>, id: int)
    requires IdsDistinct(rows)
    ensures FirstRow(rows, HasId(id)).Some? ==> IdIsIn(rows, id, FirstRow(rows, HasId(id)).value.entry.activity)
  {
    FirstRowMeaning(rows, HasId(id));
    if FirstRow(rows, HasId(id)).Some? {
      forall x | x in rows && x.id == id ensures x == FirstRow(rows, HasId(id)).value {
        IdNamesRow(rows, x, FirstRow(rows, HasId(id)).value);
      }
    }
  }

  lemma EditSettlesAllIff(w: World, b: Board, id: int, edit: Edit)
    requires Keyed(b) && AllSettled(w, b.rows)
    ensures AllSettled(w, ResultEdited(w, b, id, edit).board.rows) <==> StaysSettled(w, b, EditResult(id, edit))
  {
    FoundRow(b.rows, id);
    if FirstRow(b.rows, HasId(id)).Some? {
      var activity := FirstRow(b.rows, HasId(id)).value.entry.activity;
      if Timed(w, activity) {
        if edit.data == None { BareEditSettlesIff(w, b.rows, id, activity, edit); }
        else { EditSettlesIff(w, b.rows, id, activity, edit); }
      }
      forall a | Timed(w, a) && a != activity ensures Settled(w, RowsWithEdit(w, b.rows, id, activity, edit), a) {
        OthersStayOnEdit(w, b.rows, id, activity, edit, a);
      }
    }
  }

  lemma DeletionSettlesAllIff(w: World, b: Board, id: int)
    requires Keyed(b) && AllSettled(w, b.rows)
    ensures AllSettled(w, Changed(w, b, DeleteResult(id)).board.rows) <==> StaysSettled(w, b, DeleteResult(id))
  {
    FoundRow(b.rows, id);
    if FirstRow(b.rows, HasId(id)).Some? {
      var activity := FirstRow(b.rows, HasId(id)).value.entry.activity;
      if Timed(w, activity) { DeletionSettlesIff(w, b.rows, id, activity); }
      forall a | Timed(w, a) && a != activity ensures Settled(w, Filter(b.rows, OtherThan(id)), a) {
        OthersStayOnDelete(w, b.rows, id, activity, a);
      }
    }
  }

  lemma FoundAmendKeepsSettled(w: World, b: Board, activity: int, team: int, entry: Entry -> Entry)
    requires Keyed(b) && AllSettled(w, b.rows) && forall e :: SameButModifiers(entry(e), e)
    ensures AllSettled(w, Amended(w, b, ResultOf(b.rows, activity, team), entry).board.rows)
  {
    ResultOfMeaning(b.rows, activity, team);
    if ResultOf(b.rows, activity, team).Some? {
      var r := ResultOf(b.rows, activity, team).value;
      AmendKeepsSettled(w, b.rows, r, entry(r.entry));
    }
  }

  lemma ModifyingRows(w: World, b: Board, op: Op, found: Option<Row>, entry: Entry -> Entry)
    requires match op
             case ApplyPenalty(t, a, kind, amount) => found == ResultOf(b.rows, a, t) && entry == Penalising(kind, amount)
             case ApplyShots(t, a, shots) => found == ResultOf(b.rows, a, t) && entry == Shooting(shots)
             case _ => false
    ensures Changed(w, b, op).board.rows in {b.rows, Amended(w, b, found, entry).board.rows}
    ensures forall e :: SameButModifiers(entry(e), e)
  {
  }

  lemma PenaltyKeepsSettled(w: World, b: Board, t: int, activity: int, kind: string, amount: int)
    requires Keyed(b) && AllSettled(w, b.rows)
    ensures AllSettled(w, Changed(w, b, ApplyPenalty(t, activity, kind, amount)).board.rows)
  {
    ModifyingRows(w, b, ApplyPenalty(t, activity, kind, amount), ResultOf(b.rows, activity, t), Penalising(kind, amount));
    FoundAmendKeepsSettled(w, b, activity, t, Penalising(kind, amount));
  }

  lemma ShotsKeepSettled(w: World, b: Board, t: int, activity: int, shots: int)
    requires Keyed(b) && AllSettled(w, b.rows)
    ensures AllSettled(w, Changed(w, b, ApplyShots(t, activity, shots)).board.rows)
  {
    ModifyingRows(w, b, ApplyShots(t, activity, shots), ResultOf(b.rows, activity, t), Shooting(shots));
    FoundAmendKeepsSettled(w, b, activity, t, Shooting(shots));
  }

  lemma SameRows(w: World, b: Board, op: Op)
    requires op.GiveAward? || op.RevokeAward? || op.BuyHint? || op.CheckIn?
    ensures Changed(w, b, op).board.rows == b.rows
  {
  }

  /** One operation on a settled board: submissions, modifiers and awards never leave a stale score. */
  lemma StepSettledIff(w: World, b: Board, op: Op)
    requires Keyed(b) && AllSettled(w, b.rows)
    ensures AllSettled(w, Changed(w, b, op).board.rows) <==> StaysSettled(w, b, op)
  {
    match op
    case Submit(e) => SubmitKeepsSettled(w, b.rows, e);
    case EditResult(id, edit) => EditSettlesAllIff(w, b, id, edit);
    case DeleteResult(id) => DeletionSettlesAllIff(w, b, id);
    case ApplyPenalty(t, activity, kind, amount) => PenaltyKeepsSettled(w, b, t, activity, kind, amount);
    case ApplyShots(t, activity, shots) => ShotsKeepSettled(w, b, t, activity, shots);
    case _ => SameRows(w, b, op);
  }

  // ---- Runs -----------------------------------------------------------------------------------------

  /** No score is stale at any point of the run. */
  ghost predicate NeverStale(w: World, b: Board, ops: seq<Op>) {
    AllSettled(w, Run(w, b, ops).rows) && (ops == [] || NeverStale(w, b, ops[..|ops| - 1]))
  }

  ghost predicate StaysSettledThroughout(w: World, b: Board, ops: seq<Op>) {
    ops == [] || (StaysSettledThroughout(w, b, ops[..|ops| - 1])
                  && StaysSettled(w, Run(w, b, ops[..|ops| - 1]), ops[|ops| - 1]))
  }

  /**
   Incremental rescoring is as good as full rescoring at every point of a run exactly when each
   deletion and each edit of the run meets its condition where it happens.
   */
  lemma {:induction false} RunSettledIff(w: World, b: Board, ops: seq<Op>)
    requires Keyed(b) && AllSettled(w, b.rows)
    ensures NeverStale(w, b, ops) <==> StaysSettledThroughout(w, b, ops)
  {
    if ops != [] {
      var front := ops[..|ops| - 1];
      RunSettledIff(w, b, front);
      RunKeepsKeys(w, b, front);
      if NeverStale(w, b, front) { StepSettledIff(w, Run(w, b, front), ops[|ops| - 1]); }
    }
  }

  /**
   Operations no ranking can mind: a deleted row had no ranked time, and an edited row of a timed
   activity carries its form again and keeps its completion.
   */
  ghost predicate Careful(w: World, b: Board, op: Op) {
    match op
    case DeleteResult(id) => forall r, a | r in b.rows && r.id == id && Timed(w, a) :: !Ranks(a, r)
    case EditResult(id, edit) =>
      || (edit.data.Some? && CompletionKept(b.rows, id, edit))
      || forall r | r in b.rows && r.id == id :: !Timed(w, r.entry.activity)
    case _ => true
  }

  ghost predicate CarefulRun(w: World, b: Board, ops: seq<Op>) {
    ops == [] || (CarefulRun(w, b, ops[..|ops| - 1]) && Careful(w, Run(w, b, ops[..|ops| - 1]), ops[|ops| - 1]))
  }

  lemma CarefulStays(w: World, b: Board, op: Op)
    requires Careful(w, b, op)
    ensures StaysSettled(w, b, op)
  {
    match op
    case DeleteResult(id) =>
      FirstRowMeaning(b.rows, HasId(id));
      if FirstRow(b.rows, HasId(id)).Some? && Timed(w, FirstRow(b.rows, HasId(id)).value.entry.activity) {
        TimesWithout(b.rows, id, FirstRow(b.rows, HasId(id)).value.entry.activity);
      }
    case EditResult(id, edit) =>
      FirstRowMeaning(b.rows, HasId(id));
      if edit.data.Some? && CompletionKept(b.rows, id, edit) {
        MapSame(b.rows, Editing(w, id, edit), Editing(w, id, Unflagged(edit)));
      }
    case _ =>
  }

  /** So over a careful run no timed activity is ever left with a stale score. */
  lemma {:induction false} RunKeepsSettled(w: World, b: Board, ops: seq<Op>)
    requires Keyed(b) && AllSettled(w, b.rows) && CarefulRun(w, b, ops)
    ensures NeverStale(w, b, ops)
  {
    if ops != [] {
      var front := ops[..|ops| - 1];
      RunKeepsSettled(w, b, front);
      RunKeepsKeys(w, b, front);
      CarefulStays(w, Run(w, b, front), ops[|ops| - 1]);
      StepSettledIff(w, Run(w, b, front), ops[|ops| - 1]);
    }
  }

  /** Scores are computed by the repository's formula. */
  ghost predicate UsesFormula(rules: Rules, w: World) {
    w.activities == rules.activities && forall e: Entry, times: seq<real> :: w.score(e, times) == FinalScore(rules, e, times)
  }

  /** The repository's formula depends on the times only as a multiset, and only for timed activities. */
  lemma FormulaIsLawful(rules: Rules, w: World)
    requires UsesFormula(rules, w)
    ensures Lawful(w)
  {
    forall e: Entry, s: seq<real>, t: seq<real> | multiset(s) == multiset(t) || !Timed(w, e.activity) ensures w.score(e, s) == w.score(e, t) {
      assert w.score(e, s) == FinalScore(rules, e, s) && w.score(e, t) == FinalScore(rules, e, t);
      if Timed(w, e.activity) { ScorePermutation(rules, e, s, t); }
    }
  }

  /** Adding to one kind of penalty adds that much to their sum, whether or not the kind was there. */
  lemma {:induction false} ChargingAddsUp(penalties: seq<Penalty>, kind: string, amount: int)
    ensures PenaltySum(Charged(penalties, kind, amount)) == PenaltySum(penalties) + amount
  {
    if penalties == [] {
      assert PenaltySum([]) == 0;
      PenaltySumCons(Penalty(kind, amount), []);
      assert [Penalty(kind, amount)] + [] == [Penalty(kind, amount)];
    } else {
      var head, rest := penalties[0], penalties[1..];
      assert penalties == [head] + rest;
      PenaltySumCons(head, rest);
      if head.kind == kind {
        PenaltySumCons(Penalty(kind, head.points + amount), rest);
      } else {
        ChargingAddsUp(rest, kind, amount);
        PenaltySumCons(head, Charged(rest, kind, amount));
      }
    }
  }
}
