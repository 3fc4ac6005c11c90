/**
 Relative ranking over whole runs under the repository's formula: a run leaves no stale score
 exactly when each deletion and each edit of it meets a condition on the rows it finds.
 */
module StaleRuns {
  import opened Lists
  import opened Rescoring
  import opened ScoreFormula
  import opened ScoreRuns
  import opened Scoring
  import opened SettledRuns
  import opened StaleScores
  import opened Wrappers

  /**
   What an edit of a timed row must find. With the completion kept: a form, or modifiers that come
   to the same. With it turned: the others at their ends of the field, and for the row that joins
   them a score that its own arrival does not change, or without a form one it already stores.
   */
  ghost predicate EditIsFresh(rules: Rules, w: World, rows: seq<Row>, r: Row, e: Edit) {
    var a, after := r.entry.activity, Edited(w, r, e);
    var all, rest := Fuller(w, rows, r, a, e), Emptier(w, rows, r, a, e);
    if !Turns(r, e) then
      e.data == None && r.completed ==> ModifiersAlike(rules, r.entry, after.entry, Times(rows, a))
    else
      && (after.timeScore.Some? ==> OthersKept(rules, rows, a, r.id, all, rest))
      && (!r.completed ==>
            if e.data.Some? then OwnKept(rules, w, r, a, e, all, rest)
            else r.final == Some(FinalScore(rules, after.entry, all)))
  }

  ghost predicate DeletionIsFresh(rules: Rules, rows: seq<Row>, r: Row) {
    var a := r.entry.activity;
    Ranks(a, r) ==> OthersKept(rules, rows, a, r.id, Times(rows, a), Times(Filter(rows, OtherThan(r.id)), a))
  }

  ghost predicate IsFresh(rules: Rules, w: World, b: Board, op: Op) {
    match op
    case DeleteResult(id) =>
      (match FirstRow(b.rows, HasId(id))
       case None => true
       case Some(r) => Timed(w, r.entry.activity) ==> DeletionIsFresh(rules, b.rows, r))
    case EditResult(id, edit) =>
      (match FirstRow(b.rows, HasId(id))
       case None => true
       case Some(r) => Timed(w, r.entry.activity) ==> EditIsFresh(rules, w, b.rows, r, edit))
    case _ => true
  }

  // ---- One edit or deletion ------------------------------------------------------------------------

  /** Two versions of the table that differ in one row, which is ranked in neither. */
  lemma {:induction false} UnrankedTimes(rows: seq<Row>, g: Row -> Row, h: Row -> Row, r: Row, a: int)
    requires IdsDistinct(rows) && r in rows && !Ranks(a, g(r)) && !Ranks(a, h(r))
    requires forall y | y in rows && y.id != r.id :: g(y) == h(y)
    ensures Times(Map(rows, g), a) == Times(Map(rows, h), a)
  {
    var left, right := SplitAt(rows, r);
    MappedAround(left, r, right, g);
    MappedAround(left, r, right, h);
    MapSame(left, g, h);
    MapSame(right, g, h);
    TimesAround(Map(left, g), g(r), Map(right, g), a);
    TimesAround(Map(left, g), h(r), Map(right, g), a);
  }

  /** A row that is not ranked either way leaves the population alone. */
  lemma {:induction false} UnrankedTurn(w: World, rows: seq<Row>, r: Row, a: int, e: Edit)
    requires IdsDistinct(rows) && r in rows && Edited(w, r, e).timeScore == None
    ensures Times(EditedRows(w, rows, r.id, e), a) == Times(EditedRows(w, rows, r.id, Unflagged(e)), a)
  {
    UnrankedTimes(rows, Editing(w, r.id, e), Editing(w, r.id, Unflagged(e)), r, a);
  }

  /** An edit with a form that turns the completion of a row without a time moves nobody. */
  lemma {:induction false} TimelessTurn(rules: Rules, w: World, rows: seq<Row>, r: Row, e: Edit)
    requires UsesFormula(rules, w) && IdsDistinct(rows) && r in rows && Turns(r, e)
    requires Timed(w, r.entry.activity) && e.data.Some? && e.data.value.time == None
    ensures Settled(w, RowsWithEdit(w, rows, r.id, r.entry.activity, e), r.entry.activity)
    ensures EditIsFresh(rules, w, rows, r, e)
  {
    var a := r.entry.activity;
    UnrankedTurn(w, rows, r, a, e);
    EditSettlesIff(w, rows, r.id, a, e);
  }

  /** An edit with a form that keeps the completion is always fresh. */
  lemma {:induction false} FormKept(rules: Rules, w: World, rows: seq<Row>, r: Row, e: Edit)
    requires IdsDistinct(rows) && r in rows && Timed(w, r.entry.activity) && e.data.Some? && !Turns(r, e)
    ensures Settled(w, RowsWithEdit(w, rows, r.id, r.entry.activity, e), r.entry.activity)
    ensures EditIsFresh(rules, w, rows, r, e)
  {
    forall x | x in rows && x.id == r.id ensures x == r { IdNamesRow(rows, x, r); }
    EditSettles(w, rows, r.id, r.entry.activity, e);
  }

  lemma {:induction false} FormTurnIff(rules: Rules, w: World, rows: seq<Row>, r: Row, e: Edit)
    requires UsesFormula(rules, w) && Filed(w, rows) && IdsDistinct(rows) && r in rows && Turns(r, e)
    requires Timed(w, r.entry.activity) && e.data.Some? && e.data.value.time.Some?
    ensures Settled(w, RowsWithEdit(w, rows, r.id, r.entry.activity, e), r.entry.activity) <==> EditIsFresh(rules, w, rows, r, e)
  {
    TurnStaleIff(rules, w, rows, r, r.entry.activity, e);
    assert Edited(w, r, e).timeScore == e.data.value.time;
  }

  lemma {:induction false} FormFreshIff(rules: Rules, w: World, rows: seq<Row>, r: Row, e: Edit)
    requires UsesFormula(rules, w) && Filed(w, rows) && IdsDistinct(rows) && r in rows
    requires Timed(w, r.entry.activity) && e.data.Some?
    ensures EditStays(w, rows, r.id, r.entry.activity, e) <==> EditIsFresh(rules, w, rows, r, e)
  {
    EditSettlesIff(w, rows, r.id, r.entry.activity, e);
    if !Turns(r, e) {
      FormKept(rules, w, rows, r, e);
    } else if e.data.value.time.Some? {
      FormTurnIff(rules, w, rows, r, e);
    } else {
      TimelessTurn(rules, w, rows, r, e);
    }
  }

  /** Without a form a row without a time joins or leaves no ranking: only what it stores counts. */
  lemma {:induction false} BareTimelessTurn(rules: Rules, w: World, rows: seq<Row>, r: Row, e: Edit)
    requires UsesFormula(rules, w) && IdsDistinct(rows) && r in rows && Turns(r, e)
    requires Timed(w, r.entry.activity) && e.data == None && r.timeScore == None && Settled(w, rows, r.entry.activity)
    ensures Settled(w, RowsWithEdit(w, rows, r.id, r.entry.activity, e), r.entry.activity) <==> EditIsFresh(rules, w, rows, r, e)
  {
    var a, after := r.entry.activity, Edited(w, r, e).entry;
    UnrankedTurn(w, rows, r, a, e);
    BareEditKeepsTimes(w, rows, r.id, a, Unflagged(e));
    BareEditSettlesIff(w, rows, r.id, a, e);
    OwnStored(w, rows, r, a, e);
    assert w.score(after, Times(rows, a)) == FinalScore(rules, after, Times(rows, a));
  }

  lemma {:induction false} BareTurnIff(rules: Rules, w: World, rows: seq<Row>, r: Row, e: Edit)
    requires UsesFormula(rules, w) && Filed(w, rows) && IdsDistinct(rows) && r in rows && Turns(r, e)
    requires Timed(w, r.entry.activity) && e.data == None && r.timeScore.Some? && Settled(w, rows, r.entry.activity)
    ensures Settled(w, RowsWithEdit(w, rows, r.id, r.entry.activity, e), r.entry.activity) <==> EditIsFresh(rules, w, rows, r, e)
  {
    var a, after := r.entry.activity, Edited(w, r, e).entry;
    BareTurnStaleIff(rules, w, rows, r, a, e);
    var all := Fuller(w, rows, r, a, e);
    assert w.score(after, all) == FinalScore(rules, after, all);
  }

  lemma {:induction false} BareFreshIff(rules: Rules, w: World, rows: seq<Row>, r: Row, e: Edit)
    requires UsesFormula(rules, w) && Filed(w, rows) && IdsDistinct(rows) && r in rows
    requires Timed(w, r.entry.activity) && e.data == None && Settled(w, rows, r.entry.activity)
    ensures EditStays(w, rows, r.id, r.entry.activity, e) <==> EditIsFresh(rules, w, rows, r, e)
  {
    var a := r.entry.activity;
    BareEditSettlesIff(w, rows, r.id, a, e);
    if !Turns(r, e) {
      BareModifiersStaleIff(rules, w, rows, r, a, e);
    } else if r.timeScore.Some? {
      BareTurnIff(rules, w, rows, r, e);
    } else {
      BareTimelessTurn(rules, w, rows, r, e);
    }
  }

  lemma {:induction false} DeletionFreshIff(rules: Rules, w: World, rows: seq<Row>, r: Row)
    requires UsesFormula(rules, w) && Filed(w, rows) && IdsDistinct(rows) && r in rows
    requires Timed(w, r.entry.activity) && Settled(w, rows, r.entry.activity)
    ensures var a, rest := r.entry.activity, Filter(rows, OtherThan(r.id));
            SameWorth(w, rest, a, Times(rows, a), Times(rest, a)) <==> DeletionIsFresh(rules, rows, r)
  {
    var a := r.entry.activity;
    DeletionSettlesIff(w, rows, r.id, a);
    if Ranks(a, r) {
      DeletionStaleIff(rules, w, rows, r, a);
    } else {
      forall x | x in rows && x.id == r.id ensures x == r { IdNamesRow(rows, x, r); }
      TimesWithout(rows, r.id, a);
    }
  }

  // ---- Steps and runs --------------------------------------------------------------------------------

  lemma EditStaysIff(rules: Rules, w: World, b: Board, id: int, edit: Edit)
    requires UsesFormula(rules, w) && Keyed(b) && Filed(w, b.rows) && AllSettled(w, b.rows)
    ensures StaysSettled(w, b, EditResult(id, edit)) <==> IsFresh(rules, w, b, EditResult(id, edit))
  {
    FirstHasId(b.rows, id);
    if FirstRow(b.rows, HasId(id)).Some? {
      var r := FirstRow(b.rows, HasId(id)).value;
      var a := r.entry.activity;
      if Timed(w, a) {
        if edit.data == None {
          BareFreshIff(rules, w, b.rows, r, edit);
        } else {
          FormFreshIff(rules, w, b.rows, r, edit);
        }
      }
    }
  }

  lemma DeletionStaysIff(rules: Rules, w: World, b: Board, id: int)
    requires UsesFormula(rules, w) && Keyed(b) && Filed(w, b.rows) && AllSettled(w, b.rows)
    ensures StaysSettled(w, b, DeleteResult(id)) <==> IsFresh(rules, w, b, DeleteResult(id))
  {
    FirstHasId(b.rows, id);
    if FirstRow(b.rows, HasId(id)).Some? {
      var r := FirstRow(b.rows, HasId(id)).value;
      if Timed(w, r.entry.activity) { DeletionFreshIff(rules, w, b.rows, r); }
    }
  }

  /** One operation leaves no stale score exactly when it is fresh. */
  lemma StepFreshIff(rules: Rules, w: World, b: Board, op: Op)
    requires UsesFormula(rules, w) && Keyed(b) && Filed(w, b.rows) && AllSettled(w, b.rows)
    ensures AllSettled(w, Step(w, b, op).rows) <==> IsFresh(rules, w, b, op)
  {
    StepSettledIff(w, b, op);
    match op
    case DeleteResult(id) => DeletionStaysIff(rules, w, b, id);
    case EditResult(id, edit) => EditStaysIff(rules, w, b, id, edit);
    case _ =>
  }

  ghost predicate FreshThroughout(rules: Rules, w: World, b: Board, ops: seq<Op>) {
    ops == [] || (FreshThroughout(rules, w, b, ops[..|ops| - 1])
                  && IsFresh(rules, w, Run(w, b, ops[..|ops| - 1]), ops[|ops| - 1]))
  }

  /** No score is stale at any point of a run exactly when every operation is fresh where it happens. */
  lemma {:induction false} RunFreshIff(rules: Rules, w: World, b: Board, ops: seq<Op>)
    requires UsesFormula(rules, w) && Keyed(b) && Filed(w, b.rows) && AllSettled(w, b.rows)
    ensures NeverStale(w, b, ops) <==> FreshThroughout(rules, w, b, ops)
  {
    if ops != [] {
      var front := ops[..|ops| - 1];
      RunFreshIff(rules, w, b, front);
      RunKeepsKeys(w, b, front);
      RunKeepsFiled(w, b, front);
      if NeverStale(w, b, front) { StepFreshIff(rules, w, Run(w, b, front), ops[|ops| - 1]); }
    }
  }
}
