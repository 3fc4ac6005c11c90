/**
 Scoring one result, and rescoring a timed activity when its set of times changes. A timed
 result is ranked against every completed time, so one submission can move every team.
 */
module Rescoring {
  import opened Lists
  import opened Scoring
  import opened Wrappers

  predicate Timed(w: World, activity: int) {
    activity in w.activities && w.activities[activity].timed
  }

  /** Scores depend on the times only as a multiset, and only where an activity ranks by time. */
  ghost predicate Lawful(w: World) {
    forall e: Entry, s: seq<real>, t: seq<real> | multiset(s) == multiset(t) || !Timed(w, e.activity) :: w.score(e, s) == w.score(e, t)
  }

  // ---- The times an activity is ranked on --------------------------------------------------------

  predicate Ranks(activity: int, r: Row) {
    r.entry.activity == activity && r.completed && r.timeScore.Some?
  }

  function RanksIn(activity: int): Row -> bool { (r: Row) => Ranks(activity, r) }

  function TimeOf(r: Row): real { if r.timeScore.Some? then r.timeScore.value else 0.0 }

  function Times(rows: seq<Row>, activity: int): seq<real> {
    Map(Filter(rows, RanksIn(activity)), TimeOf)
  }

  predicate Rescored(activity: int, exclude: Option<int>, r: Row) {
    r.entry.activity == activity && r.completed && exclude != Some(r.id)
  }

  function RescoredIn(activity: int, exclude: Option<int>): Row -> bool {
    (r: Row) => Rescored(activity, exclude, r)
  }

  function HasId(id: int): Row -> bool { (r: Row) => r.id == id }

  function RankedBut(activity: int, exclude: Option<int>): Row -> bool {
    (r: Row) => Ranks(activity, r) && exclude != Some(r.id)
  }

  /** The times of the rows to rescore, then the excluded row's own time, if it has one. */
  function TimesFor(rows: seq<Row>, activity: int, exclude: Option<int>): seq<real> {
    var others := Map(Filter(rows, RankedBut(activity, exclude)), TimeOf);
    match exclude
    case None => others
    case Some(id) =>
      var excluded := Filter(rows, HasId(id));
      if excluded != [] && excluded[0].timeScore.Some? then others + [excluded[0].timeScore.value] else others
  }

  function RescoreRow(w: World, activity: int, exclude: Option<int>, times: seq<real>): Row -> Row {
    (r: Row) => if Rescored(activity, exclude, r) then r.(final := Some(w.score(r.entry, times))) else r
  }

  function Rescore(w: World, rows: seq<Row>, activity: int, exclude: Option<int>): seq<Row> {
    if Timed(w, activity) then Map(rows, RescoreRow(w, activity, exclude, TimesFor(rows, activity, exclude)))
    else rows
  }

  /** A from-scratch rescore of the activity would change nothing. */
  ghost predicate Settled(w: World, rows: seq<Row>, activity: int) {
    Rescore(w, rows, activity, None) == rows
  }

  // ---- Rescoring leaves the times alone ----------------------------------------------------------------

  ghost predicate KeepsTimes(g: Row -> Row, rows: seq<Row>, activity: int) {
    forall r | r in rows ::
      Ranks(activity, g(r)) == Ranks(activity, r) && (Ranks(activity, r) ==> TimeOf(g(r)) == TimeOf(r))
  }

  lemma {:induction false} TimesKept(rows: seq<Row>, g: Row -> Row, activity: int)
    requires KeepsTimes(g, rows, activity)
    ensures Times(Map(rows, g), activity) == Times(rows, activity)
  {
    if rows != [] {
      var front, r := rows[..|rows| - 1], rows[|rows| - 1];
      assert rows == front + [r];
      assert r in rows;
      TimesKept(front, g, activity);
      TimesSnoc(Map(front, g), g(r), activity);
      TimesSnoc(front, r, activity);
    }
  }

  lemma TimesSnoc(rows: seq<Row>, r: Row, activity: int)
    ensures Times(rows + [r], activity) == Times(rows, activity) + (if Ranks(activity, r) then [TimeOf(r)] else [])
  {
    FilterSnoc(rows, r, RanksIn(activity));
    if Ranks(activity, r) {
      MapSnoc(Filter(rows, RanksIn(activity)), r, TimeOf);
    } else {
      assert Filter(rows + [r], RanksIn(activity)) == Filter(rows, RanksIn(activity));
    }
  }

  lemma {:induction false} RankedButNone(rows: seq<Row>, activity: int)
    ensures Filter(rows, RankedBut(activity, None)) == Filter(rows, RanksIn(activity))
  {
    if rows != [] { RankedButNone(rows[..|rows| - 1], activity); }
  }

  lemma TimesForAll(rows: seq<Row>, activity: int)
    ensures TimesFor(rows, activity, None) == Times(rows, activity)
  {
    RankedButNone(rows, activity);
  }

  /** Settled, row by row. */
  lemma SettledMeaning(w: World, rows: seq<Row>, activity: int)
    requires Timed(w, activity)
    ensures Settled(w, rows, activity) <==>
            forall i | 0 <= i < |rows| && Rescored(activity, None, rows[i]) ::
              rows[i].final == Some(w.score(rows[i].entry, Times(rows, activity)))
  {
    TimesForAll(rows, activity);
    var g := RescoreRow(w, activity, None, Times(rows, activity));
    var after := Map(rows, g);
    assert Rescore(w, rows, activity, None) == after;
    if after == rows {
      forall i | 0 <= i < |rows| && Rescored(activity, None, rows[i])
        ensures rows[i].final == Some(w.score(rows[i].entry, Times(rows, activity)))
      {
        assert rows[i] == after[i] == g(rows[i]);
      }
    }
    if forall i | 0 <= i < |rows| && Rescored(activity, None, rows[i]) ::
         rows[i].final == Some(w.score(rows[i].entry, Times(rows, activity))) {
      forall i | 0 <= i < |rows| ensures after[i] == rows[i] {
        assert after[i] == g(rows[i]);
      }
    }
  }

  /** Whatever the scores were, a full rescore settles the activity. */
  lemma RescoreSettles(w: World, rows: seq<Row>, activity: int)
    requires Timed(w, activity)
    ensures Settled(w, Rescore(w, rows, activity, None), activity)
  {
    var g := RescoreRow(w, activity, None, Times(rows, activity));
    var after := Rescore(w, rows, activity, None);
    TimesForAll(rows, activity);
    assert KeepsTimes(g, rows, activity);
    TimesKept(rows, g, activity);
    forall i | 0 <= i < |after| && Rescored(activity, None, after[i])
      ensures after[i].final == Some(w.score(after[i].entry, Times(after, activity)))
    {
      assert after[i] == g(rows[i]);
    }
    SettledMeaning(w, after, activity);
  }

  // ---- A new result ---------------------------------------------------------------------------------

  function NextId(rows: seq<Row>): (id: int)
    ensures forall r | r in rows :: r.id < id
  {
    if rows == [] then 1
    else
      var before, last := NextId(rows[..|rows| - 1]), rows[|rows| - 1];
      assert rows == rows[..|rows| - 1] + [last];
      if last.id < before then before else last.id + 1
  }

  function OwnTime(s: Entry): seq<real> {
    if s.data.time.Some? then [s.data.time.value] else []
  }

  /** The row as it is first stored: ranked against the stored times and its own. */
  function NewRow(w: World, rows: seq<Row>, s: Entry): Row {
    var timed := Timed(w, s.activity);
    Row(NextId(rows), s, if timed then s.data.time else None,
        Some(w.score(s, Times(rows, s.activity) + OwnTime(s))), true)
  }

  function RowsWithNew(w: World, rows: seq<Row>, s: Entry): seq<Row> {
    var r := NewRow(w, rows, s);
    Rescore(w, rows + [r], s.activity, Some(r.id))
  }

  lemma {:induction false} NobodyExcluded(rows: seq<Row>, activity: int, id: int)
    requires forall r | r in rows :: r.id != id
    ensures Filter(rows, RankedBut(activity, Some(id))) == Filter(rows, RanksIn(activity))
    ensures Filter(rows, HasId(id)) == []
  {
    if rows != [] {
      var front, r := rows[..|rows| - 1], rows[|rows| - 1];
      assert rows == front + [r];
      assert r in rows;
      NobodyExcluded(front, activity, id);
    }
  }

  lemma TimesWithNew(w: World, rows: seq<Row>, s: Entry)
    requires Timed(w, s.activity)
    ensures Times(rows + [NewRow(w, rows, s)], s.activity) == Times(rows, s.activity) + OwnTime(s)
  {
    TimesSnoc(rows, NewRow(w, rows, s), s.activity);
  }

  /** The rescore that leaves the new row out ranks the others on the stored times and the new one. */
  lemma TimesForNew(w: World, rows: seq<Row>, s: Entry)
    requires Timed(w, s.activity)
    ensures var r := NewRow(w, rows, s);
            TimesFor(rows + [r], s.activity, Some(r.id)) == Times(rows, s.activity) + OwnTime(s)
  {
    var r := NewRow(w, rows, s);
    NobodyExcluded(rows, s.activity, r.id);
    FilterSnoc(rows, r, RankedBut(s.activity, Some(r.id)));
    FilterSnoc(rows, r, HasId(r.id));
    assert Filter(rows + [r], RankedBut(s.activity, Some(r.id))) == Filter(rows, RanksIn(s.activity));
    assert Filter(rows + [r], HasId(r.id)) == [r];
  }

  /** Each row of the activity, the new one included, holds its score on the new set of times. */
  lemma ScoredWithNew(w: World, rows: seq<Row>, s: Entry, i: nat)
    requires Timed(w, s.activity) && i <= |rows|
    ensures var after := RowsWithNew(w, rows, s);
            Rescored(s.activity, None, after[i]) ==>
              after[i].final == Some(w.score(after[i].entry, Times(rows, s.activity) + OwnTime(s)))
  {
    var r := NewRow(w, rows, s);
    TimesForNew(w, rows, s);
    if i < |rows| { assert rows[i] in rows; }
  }

  /** Incremental equals full: after a new timed result a from-scratch rescore changes nothing. */
  lemma NewResultSettles(w: World, rows: seq<Row>, s: Entry)
    requires Timed(w, s.activity)
    ensures Settled(w, RowsWithNew(w, rows, s), s.activity)
  {
    var r := NewRow(w, rows, s);
    var withNew, after := rows + [r], RowsWithNew(w, rows, s);
    var g := RescoreRow(w, s.activity, Some(r.id), TimesFor(withNew, s.activity, Some(r.id)));
    TimesWithNew(w, rows, s);
    assert KeepsTimes(g, withNew, s.activity);
    TimesKept(withNew, g, s.activity);
    forall i | 0 <= i < |after| && Rescored(s.activity, None, after[i])
      ensures after[i].final == Some(w.score(after[i].entry, Times(after, s.activity)))
    {
      ScoredWithNew(w, rows, s, i);
    }
    SettledMeaning(w, after, s.activity);
  }

  // ---- An edited result -------------------------------------------------------------------------------

  datatype Edit = Edit(data: Option<Data>, shots: Option<int>, penalties: Option<seq<Penalty>>, completed: Option<bool>)

  /** The fields of the edit set on the row; a timed row's ranked time follows its form. */
  function Edited(w: World, r: Row, e: Edit): Row {
    var entry := r.entry.(data := Or(e.data, r.entry.data), shots := Or(e.shots, r.entry.shots),
                          penalties := Or(e.penalties, r.entry.penalties));
    r.(entry := entry, completed := Or(e.completed, r.completed),
       timeScore := if e.data.Some? && Timed(w, entry.activity) then entry.data.time else r.timeScore)
  }

  function Editing(w: World, id: int, e: Edit): Row -> Row {
    (r: Row) => if r.id == id then Edited(w, r, e) else r
  }

  function ScoringOne(w: World, id: int, times: seq<real>): Row -> Row {
    (r: Row) => if r.id == id && r.entry.activity in w.activities then r.(final := Some(w.score(r.entry, times))) else r
  }

  // The session does not flush by itself, so a flag set on an object reaches the table only with the
  // commit: until then queries select on the flag as it was stored.

  function Unflagged(e: Edit): Edit { e.(completed := None) }

  /** Completion flags that are set and not yet stored, by row. */
  function FlagOf(id: int, e: Edit): map<int, bool> {
    match e.completed
    case None => map[]
    case Some(flag) => map[id := flag]
  }

  function Flagging(flags: map<int, bool>): Row -> Row {
    (r: Row) => if r.id in flags then r.(completed := flags[r.id]) else r
  }

  /** The rows as an edit leaves them but for their scores. */
  function EditedRows(w: World, rows: seq<Row>, id: int, e: Edit): seq<Row> { Map(rows, Editing(w, id, e)) }

  function ScoredOnce(w: World, rows: seq<Row>, id: int, activity: int): seq<Row> {
    Map(rows, ScoringOne(w, id, Times(rows, activity)))
  }

  /** With a form, the row and then its activity are scored on the stored flags; the commit stores the new one. */
  function RowsWithEdit(w: World, rows: seq<Row>, id: int, activity: int, e: Edit): seq<Row> {
    if e.data == None then EditedRows(w, rows, id, e)
    else
      var scored := ScoredOnce(w, EditedRows(w, rows, id, Unflagged(e)), id, activity);
      Map(Rescore(w, scored, activity, None), Flagging(FlagOf(id, e)))
  }

  /** The completed rows of the activity are worth the same on either list of times. */
  ghost predicate SameWorth(w: World, rows: seq<Row>, activity: int, s: seq<real>, t: seq<real>) {
    forall r | r in rows && Rescored(activity, None, r) :: w.score(r.entry, s) == w.score(r.entry, t)
  }

  /** One row through the steps of an edit with a form, on these times. */
  lemma EditedOne(w: World, r: Row, id: int, activity: int, e: Edit, times: seq<real>)
    requires Timed(w, activity)
    ensures var once := ScoringOne(w, id, times)(Editing(w, id, Unflagged(e))(r)); var after := Editing(w, id, e)(r);
            var out := Flagging(FlagOf(id, e))(RescoreRow(w, activity, None, times)(once));
            && out.(final := None) == after.(final := None)
            && (Rescored(activity, None, after) ==> out.final == Some(w.score(after.entry, times)))
  {
  }

  /** An edit with a form, row by row: what was completed, before or after it, has its score on the stored flags. */
  lemma {:induction false} EditedRow(w: World, rows: seq<Row>, id: int, activity: int, e: Edit, i: nat)
    requires Timed(w, activity) && e.data.Some? && i < |rows|
    ensures var after, out := EditedRows(w, rows, id, e), RowsWithEdit(w, rows, id, activity, e);
            && out[i].(final := None) == after[i].(final := None)
            && (Rescored(activity, None, after[i]) ==>
                  out[i].final == Some(w.score(after[i].entry, Times(EditedRows(w, rows, id, Unflagged(e)), activity))))
  {
    var held := EditedRows(w, rows, id, Unflagged(e));
    var times := Times(held, activity);
    var scored := ScoredOnce(w, held, id, activity);
    assert KeepsTimes(ScoringOne(w, id, times), held, activity);
    TimesKept(held, ScoringOne(w, id, times), activity);
    TimesForAll(scored, activity);
    var rescored := Rescore(w, scored, activity, None);
    assert rescored[i] == RescoreRow(w, activity, None, times)(scored[i]);
    assert scored[i] == ScoringOne(w, id, times)(Editing(w, id, Unflagged(e))(rows[i]));
    EditedOne(w, rows[i], id, activity, e, times);
  }

  lemma {:induction false} TimesOfEdit(w: World, rows: seq<Row>, id: int, activity: int, e: Edit)
    requires Timed(w, activity) && e.data.Some?
    ensures Times(RowsWithEdit(w, rows, id, activity, e), activity) == Times(EditedRows(w, rows, id, e), activity)
  {
    var after, out := EditedRows(w, rows, id, e), RowsWithEdit(w, rows, id, activity, e);
    forall i | 0 <= i < |rows| ensures out[i].(final := None) == after[i].(final := None) {
      EditedRow(w, rows, id, activity, e, i);
    }
    AlikeTimes(out, after, activity);
  }

  lemma {:induction false} AlikeTimes(a: seq<Row>, b: seq<Row>, activity: int)
    requires |a| == |b| && forall i | 0 <= i < |a| :: a[i].(final := None) == b[i].(final := None)
    ensures Times(a, activity) == Times(b, activity)
  {
    if a != [] {
      var n := |a| - 1;
      AlikeTimes(a[..n], b[..n], activity);
      TimesSnoc(a[..n], a[n], activity);
      TimesSnoc(b[..n], b[n], activity);
      assert a == a[..n] + [a[n]] && b == b[..n] + [b[n]];
      assert a[n].entry == b[n].entry && a[n].completed == b[n].completed && a[n].timeScore == b[n].timeScore;
    }
  }

  lemma {:induction false} AlikeWorth(w: World, a: seq<Row>, b: seq<Row>, activity: int, s: seq<real>, t: seq<real>)
    requires |a| == |b| && forall i | 0 <= i < |a| :: a[i].(final := None) == b[i].(final := None)
    requires SameWorth(w, a, activity, s, t)
    ensures SameWorth(w, b, activity, s, t)
  {
    forall r | r in b && Rescored(activity, None, r) ensures w.score(r.entry, s) == w.score(r.entry, t) {
      var i :| 0 <= i < |b| && b[i] == r;
      assert a[i] in a && a[i].entry == a[i].(final := None).entry == r.entry && a[i].(final := None).completed;
    }
  }

  /** Each completed row of the activity holds its score on these times. */
  ghost predicate ScoredOn(w: World, rows: seq<Row>, activity: int, times: seq<real>) {
    forall r | r in rows && Rescored(activity, None, r) :: r.final == Some(w.score(r.entry, times))
  }

  /** Scores computed on some list of times are right exactly when the actual times are worth the same. */
  lemma ScoredOnSettlesIff(w: World, rows: seq<Row>, activity: int, times: seq<real>)
    requires Timed(w, activity) && ScoredOn(w, rows, activity, times)
    ensures Settled(w, rows, activity) <==> SameWorth(w, rows, activity, times, Times(rows, activity))
  {
    SettledMeaning(w, rows, activity);
    forall i | 0 <= i < |rows| ensures rows[i] in rows {}
    if !SameWorth(w, rows, activity, times, Times(rows, activity)) {
      var r :| r in rows && Rescored(activity, None, r)
               && w.score(r.entry, times) != w.score(r.entry, Times(rows, activity));
      var i :| 0 <= i < |rows| && rows[i] == r;
    }
  }

  lemma {:induction false} EditedScoredOn(w: World, rows: seq<Row>, id: int, activity: int, e: Edit)
    requires Timed(w, activity) && e.data.Some?
    ensures ScoredOn(w, RowsWithEdit(w, rows, id, activity, e), activity,
                     Times(EditedRows(w, rows, id, Unflagged(e)), activity))
  {
    var out := RowsWithEdit(w, rows, id, activity, e);
    var times := Times(EditedRows(w, rows, id, Unflagged(e)), activity);
    forall r | r in out && Rescored(activity, None, r) ensures r.final == Some(w.score(r.entry, times)) {
      var i :| 0 <= i < |out| && out[i] == r;
      EditedRow(w, rows, id, activity, e, i);
      assert r.(final := None).entry == r.entry && r.(final := None).completed;
    }
  }

  /**
   An edit with a form leaves its activity settled exactly when the completed rows are worth on the
   new population of times what they are worth on the one the stored flags select.
   */
  lemma EditSettlesIff(w: World, rows: seq<Row>, id: int, activity: int, e: Edit)
    requires Timed(w, activity) && e.data.Some?
    ensures var held, after := EditedRows(w, rows, id, Unflagged(e)), EditedRows(w, rows, id, e);
            Settled(w, RowsWithEdit(w, rows, id, activity, e), activity) <==>
            SameWorth(w, after, activity, Times(held, activity), Times(after, activity))
  {
    var after, out := EditedRows(w, rows, id, e), RowsWithEdit(w, rows, id, activity, e);
    var s, t := Times(EditedRows(w, rows, id, Unflagged(e)), activity), Times(after, activity);
    EditedScoredOn(w, rows, id, activity, e);
    ScoredOnSettlesIff(w, out, activity, s);
    TimesOfEdit(w, rows, id, activity, e);
    EditedWorth(w, rows, id, activity, e, s, t);
  }

  /** Scores aside, the rows are the edited ones. */
  lemma {:induction false} EditedWorth(w: World, rows: seq<Row>, id: int, activity: int, e: Edit, s: seq<real>, t: seq<real>)
    requires Timed(w, activity) && e.data.Some?
    ensures SameWorth(w, RowsWithEdit(w, rows, id, activity, e), activity, s, t) <==>
            SameWorth(w, EditedRows(w, rows, id, e), activity, s, t)
  {
    var after, out := EditedRows(w, rows, id, e), RowsWithEdit(w, rows, id, activity, e);
    forall i | 0 <= i < |rows| ensures out[i].(final := None) == after[i].(final := None) {
      EditedRow(w, rows, id, activity, e, i);
    }
    if SameWorth(w, out, activity, s, t) { AlikeWorth(w, out, after, activity, s, t); }
    if SameWorth(w, after, activity, s, t) { AlikeWorth(w, after, out, activity, s, t); }
  }

  ghost predicate CompletionKept(rows: seq<Row>, id: int, e: Edit) {
    forall r | r in rows && r.id == id :: Or(e.completed, r.completed) == r.completed
  }

  /** In particular an edit that carries a form and does not turn the flag settles its activity. */
  lemma EditSettles(w: World, rows: seq<Row>, id: int, activity: int, e: Edit)
    requires Timed(w, activity) && e.data.Some? && CompletionKept(rows, id, e)
    ensures Settled(w, RowsWithEdit(w, rows, id, activity, e), activity)
  {
    MapSame(rows, Editing(w, id, e), Editing(w, id, Unflagged(e)));
    EditSettlesIff(w, rows, id, activity, e);
  }

  // ---- Edits without a form ---------------------------------------------------------------------------

  /** What a settled activity stores for a row: its score on the times, or for an unfinished row whatever it had. */
  function StoredScore(w: World, rows: seq<Row>, activity: int, r: Row): Option<real> {
    if Rescored(activity, None, r) then Some(w.score(r.entry, Times(rows, activity))) else r.final
  }

  /** Each row that is completed after the edit stores what it is then worth. */
  ghost predicate StillRight(w: World, rows: seq<Row>, id: int, activity: int, e: Edit) {
    var after := EditedRows(w, rows, id, e);
    forall i | 0 <= i < |rows| && Rescored(activity, None, after[i]) ::
      StoredScore(w, rows, activity, rows[i]) == Some(w.score(after[i].entry, Times(after, activity)))
  }

  /**
   Without a form no stored score is recomputed: a settled activity stays settled exactly when
   every row completed now is worth what it was, on the new modifiers and the new population.
   */
  lemma BareEditSettlesIff(w: World, rows: seq<Row>, id: int, activity: int, e: Edit)
    requires Timed(w, activity) && e.data == None && Settled(w, rows, activity)
    ensures Settled(w, RowsWithEdit(w, rows, id, activity, e), activity) <==> StillRight(w, rows, id, activity, e)
  {
    var after := EditedRows(w, rows, id, e);
    SettledMeaning(w, rows, activity);
    SettledMeaning(w, after, activity);
    forall i | 0 <= i < |rows| ensures after[i].final == StoredScore(w, rows, activity, rows[i]) {}
  }

  /** The edited row, if it is a completed row of the activity, is worth what it was before. */
  ghost predicate ModifiersAgree(w: World, rows: seq<Row>, activity: int, id: int, e: Edit) {
    forall i | 0 <= i < |rows| && Rescored(activity, None, rows[i]) ::
      w.score(Editing(w, id, e)(rows[i]).entry, Times(rows, activity)) ==
      w.score(rows[i].entry, Times(rows, activity))
  }

  /** With the flag left alone only the edited shots and penalties matter. */
  lemma BareEditKeepingFlag(w: World, rows: seq<Row>, id: int, activity: int, e: Edit)
    requires Timed(w, activity) && e.data == None && CompletionKept(rows, id, e)
    ensures StillRight(w, rows, id, activity, e) <==> ModifiersAgree(w, rows, activity, id, e)
  {
    var after := EditedRows(w, rows, id, e);
    assert KeepsTimes(Editing(w, id, e), rows, activity);
    TimesKept(rows, Editing(w, id, e), activity);
    forall i | 0 <= i < |rows| ensures Rescored(activity, None, after[i]) <==> Rescored(activity, None, rows[i]) {
      assert rows[i] in rows;
    }
  }
}
