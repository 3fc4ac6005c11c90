/**
 Buying hints under concurrent taps. Each request is a transaction of several steps; the steps of
 any number of requests interleave freely with each other, with crashes and with changes of price
 and switch. A request reads the switch first, and the price once more later; the session may answer
 that second reading with what the first one saw. The unique key on (team, indication) makes a
 second insert wait for the first one's outcome.
 */
module HintLedger {
  import opened Lists
  import opened Sets

  datatype Request = Request(team: int, checkpoint: int)

  /** The requests, and each checkpoint's ladder of indications in order. */
  datatype Config = Config(requests: seq<Request>, ladders: map<int, seq<int>>)

  /** What a request has settled on: the hint, how many were left with it, and when it began. */
  datatype Choice = Choice(indication: int, left: nat, at: nat)

  datatype Phase =
    | Waiting
    | Begun(since: nat)
    | Allowed(since: nat, seen: int)
    | Chosen(choice: Choice, seen: int)
    | Priced(choice: Choice, cost: int)
    | Inserted(choice: Choice, cost: int)
    | Billed(choice: Choice, cost: int)
    | Beaten(choice: Choice)
    | Granted(indication: int, remaining: int, cost: int)
    | Owned(indication: int, remaining: int)
    | Ended

  datatype Reveal = Reveal(team: int, checkpoint: int, indication: int, cost: int, at: nat)

  datatype Charge = Charge(team: int, points: int)

  /** Committed rows, the settings, and how far each request has come; its own rows are pending until it commits. */
  datatype State = State(clock: nat, price: int, enabled: bool, sold: seq<Reveal>, charges: seq<Charge>,
                         phases: seq<Phase>)

  datatype Action =
    | Begin(i: nat)
    | Check(i: nat)
    | Choose(i: nat)
    | Refuse(i: nat)
    | ReadPrice(i: nat, again: bool)
    | Insert(i: nat)
    | Bill(i: nat)
    | Commit(i: nat)
    | Reread(i: nat)
    | Abort(i: nat)
    | SetPrice(price: int)
    | SetEnabled(enabled: bool)

  // ---- What requests read -------------------------------------------------------------------

  function Ladder(c: Config, checkpoint: int): seq<int> {
    if checkpoint in c.ladders then c.ladders[checkpoint] else []
  }

  function At(team: int, checkpoint: int): Reveal -> bool {
    (r: Reveal) => r.team == team && r.checkpoint == checkpoint
  }

  function IndicationOf(r: Reveal): int { r.indication }

  /** The hints a team owns at a checkpoint, in the order they were committed. */
  function Bought(sold: seq<Reveal>, team: int, checkpoint: int): seq<int> {
    Map(Filter(sold, At(team, checkpoint)), IndicationOf)
  }

  function NotIn(owned: seq<int>): int -> bool { (x: int) => x !in owned }

  function Remaining(c: Config, sold: seq<Reveal>, r: Request): seq<int> {
    Filter(Ladder(c, r.checkpoint), NotIn(Bought(sold, r.team, r.checkpoint)))
  }

  predicate Recorded(sold: seq<Reveal>, team: int, indication: int) {
    exists k :: 0 <= k < |sold| && sold[k].team == team && sold[k].indication == indication
  }

  predicate Holds(p: Phase) { p.Inserted? || p.Billed? }

  predicate Choosy(p: Phase) { p.Chosen? || p.Priced? || p.Beaten? || Holds(p) }

  /** Another request has inserted the same key and not yet committed or rolled back. */
  predicate Blocked(c: Config, s: State, i: nat)
    requires i < |s.phases| == |c.requests| && s.phases[i].Priced?
  {
    exists j :: 0 <= j < |s.phases| && j != i && Holds(s.phases[j])
      && c.requests[j].team == c.requests[i].team
      && s.phases[j].choice.indication == s.phases[i].choice.indication
  }

  // ---- Steps -------------------------------------------------------------------------------------

  predicate Finished(p: Phase) { p.Granted? || p.Owned? || p.Ended? }

  predicate Committable(p: Phase) { (p.Inserted? && p.cost == 0) || p.Billed? }

  predicate Sized(c: Config, s: State) { |s.phases| == |c.requests| }

  predicate Enabled(c: Config, s: State, a: Action)
    requires Sized(c, s)
  {
    match a
    case SetPrice(_) => true
    case SetEnabled(_) => true
    case Begin(i) => i < |s.phases| && s.phases[i].Waiting?
    case Check(i) => i < |s.phases| && s.phases[i].Begun? && s.enabled
    case Choose(i) => i < |s.phases| && s.phases[i].Allowed? && Remaining(c, s.sold, c.requests[i]) != []
    case Refuse(i) =>
      && i < |s.phases|
      && ((s.phases[i].Begun? && !s.enabled) || (s.phases[i].Allowed? && Remaining(c, s.sold, c.requests[i]) == []))
    case ReadPrice(i, _) => i < |s.phases| && s.phases[i].Chosen?
    case Insert(i) => i < |s.phases| && s.phases[i].Priced? && !Blocked(c, s, i)
    case Bill(i) => i < |s.phases| && s.phases[i].Inserted? && s.phases[i].cost != 0
    case Commit(i) => i < |s.phases| && Committable(s.phases[i])
    case Reread(i) => i < |s.phases| && s.phases[i].Beaten?
    case Abort(i) => i < |s.phases| && !Finished(s.phases[i])
  }

  function RevealOf(c: Config, s: State, i: nat): Reveal
    requires Sized(c, s) && i < |s.phases| && Holds(s.phases[i])
  {
    var r, p := c.requests[i], s.phases[i];
    Reveal(r.team, r.checkpoint, p.choice.indication, p.cost, p.choice.at)
  }

  function Apply(c: Config, s: State, a: Action): (after: State)
    requires Sized(c, s) && Enabled(c, s, a)
    ensures Sized(c, after)
  {
    match a
    case SetPrice(price) => s.(price := price)
    case SetEnabled(enabled) => s.(enabled := enabled)
    case Begin(i) => s.(phases := s.phases[i := Begun(s.clock)], clock := s.clock + 1)
    case Check(i) => s.(phases := s.phases[i := Allowed(s.phases[i].since, s.price)])
    case Choose(i) =>
      var rest := Remaining(c, s.sold, c.requests[i]);
      s.(phases := s.phases[i := Chosen(Choice(rest[0], |rest|, s.phases[i].since), s.phases[i].seen)])
    case Refuse(i) => s.(phases := s.phases[i := Ended])
    case ReadPrice(i, again) =>
      s.(phases := s.phases[i := Priced(s.phases[i].choice, if again then s.price else s.phases[i].seen)])
    case Insert(i) =>
      var p := s.phases[i];
      if Recorded(s.sold, c.requests[i].team, p.choice.indication)
      then s.(phases := s.phases[i := Beaten(p.choice)])
      else s.(phases := s.phases[i := Inserted(p.choice, p.cost)])
    case Bill(i) => s.(phases := s.phases[i := Billed(s.phases[i].choice, s.phases[i].cost)])
    case Commit(i) =>
      var p := s.phases[i];
      s.(phases := s.phases[i := Granted(p.choice.indication, p.choice.left - 1, p.cost)],
         sold := s.sold + [RevealOf(c, s, i)],
         charges := if p.Billed? then s.charges + [Charge(c.requests[i].team, p.cost)] else s.charges)
    case Reread(i) =>
      s.(phases := s.phases[i := Owned(s.phases[i].choice.indication, |Remaining(c, s.sold, c.requests[i])|)])
    case Abort(i) => s.(phases := s.phases[i := Ended])
  }

  ghost predicate IsRun(c: Config, s: State, run: seq<Action>, t: State) {
    if run == [] then s == t
    else exists mid :: IsRun(c, s, run[..|run| - 1], mid) && Sized(c, mid)
                       && Enabled(c, mid, run[|run| - 1]) && Apply(c, mid, run[|run| - 1]) == t
  }

  ghost predicate Initial(c: Config, s: State) {
    s.sold == [] && s.charges == [] && Sized(c, s) && forall i | 0 <= i < |s.phases| :: s.phases[i] == Waiting
  }

  /** Each indication stands once, on the ladder of the one checkpoint it belongs to. */
  ghost predicate ValidConfig(c: Config) {
    && (forall p | p in c.ladders :: NoDuplicates(c.ladders[p]))
    && (forall p, q, x | p in c.ladders && q in c.ladders && x in c.ladders[p] && x in c.ladders[q] :: p == q)
  }

  // ---- The invariant ----------------------------------------------------------------------------------

  predicate Costs(r: Reveal) { r.cost != 0 }

  function ChargeFor(r: Reveal): Charge { Charge(r.team, r.cost) }

  function ChargesFor(sold: seq<Reveal>): seq<Charge> { Map(Filter(sold, Costs), ChargeFor) }

  lemma ChargesSnoc(front: seq<Reveal>, r: Reveal)
    ensures ChargesFor(front + [r]) == ChargesFor(front) + (if Costs(r) then [ChargeFor(r)] else [])
  {
    FilterSnoc(front, r, Costs);
    if Costs(r) {
      MapSnoc(Filter(front, Costs), r, ChargeFor);
    } else {
      assert Filter(front + [r], Costs) == Filter(front, Costs);
    }
  }

  /** Every non-free reveal was charged its frozen cost, once, and nothing else was. */
  ghost predicate Balanced(s: State) { s.charges == ChargesFor(s.sold) }

  ghost predicate KeysUnique(sold: seq<Reveal>) {
    forall j, k | 0 <= j < k < |sold| ::
      sold[j].team != sold[k].team || sold[j].indication != sold[k].indication
  }

  ghost predicate OwnsPrefix(c: Config, sold: seq<Reveal>, team: int, checkpoint: int) {
    Bought(sold, team, checkpoint) <= Ladder(c, checkpoint)
  }

  /** A choice is the hint after those that were owned when it was made; more may be owned by now. */
  ghost predicate Fits(c: Config, sold: seq<Reveal>, r: Request, x: Choice) {
    var ladder := Ladder(c, r.checkpoint);
    && 0 < x.left <= |ladder| && x.indication == ladder[|ladder| - x.left]
    && |ladder| - x.left <= |Bought(sold, r.team, r.checkpoint)|
  }

  ghost predicate PhaseFits(c: Config, s: State, i: nat)
    requires Sized(c, s) && i < |s.phases|
  {
    && (Choosy(s.phases[i]) ==> Fits(c, s.sold, c.requests[i], s.phases[i].choice))
    && (s.phases[i].Billed? ==> s.phases[i].cost != 0)
    && (Holds(s.phases[i]) ==> !Recorded(s.sold, c.requests[i].team, s.phases[i].choice.indication))
    && (s.phases[i].Beaten? ==> Recorded(s.sold, c.requests[i].team, s.phases[i].choice.indication))
  }

  /** No two requests of a team hold an uncommitted row for the same hint. */
  ghost predicate HeldOnce(c: Config, s: State)
    requires Sized(c, s)
  {
    forall i, j | 0 <= i < |s.phases| && 0 <= j < |s.phases| && i != j
                  && Holds(s.phases[i]) && Holds(s.phases[j]) && c.requests[i].team == c.requests[j].team ::
      s.phases[i].choice.indication != s.phases[j].choice.indication
  }

  ghost predicate Inv(c: Config, s: State) {
    && Sized(c, s) && Balanced(s) && KeysUnique(s.sold)
    && (forall team, checkpoint :: OwnsPrefix(c, s.sold, team, checkpoint))
    && (forall i | 0 <= i < |s.phases| :: PhaseFits(c, s, i))
    && HeldOnce(c, s)
  }

  lemma {:induction false} RestOfLadder(ladder: seq<int>, k: nat)
    requires NoDuplicates(ladder) && k <= |ladder|
    ensures Filter(ladder, NotIn(ladder[..k])) == ladder[k..]
  {
    FilterFrom(ladder, k, |ladder|);
    assert ladder[..|ladder|] == ladder;
  }

  lemma LaterIsNew(ladder: seq<int>, k: nat, i: nat)
    requires NoDuplicates(ladder) && k <= |ladder| && i < |ladder|
    ensures NotIn(ladder[..k])(ladder[i]) <==> k <= i
  {
    if i < k { assert ladder[..k][i] == ladder[i]; }
  }

  lemma OneMoreRung(ladder: seq<int>, n: nat, p: int -> bool)
    requires 0 < n <= |ladder|
    ensures Filter(ladder[..n], p) == Filter(ladder[..n - 1], p) + (if p(ladder[n - 1]) then [ladder[n - 1]] else [])
  {
    assert ladder[..n] == ladder[..n - 1] + [ladder[n - 1]];
    FilterSnoc(ladder[..n - 1], ladder[n - 1], p);
  }

  lemma {:induction false} FilterFrom(ladder: seq<int>, k: nat, n: nat)
    requires NoDuplicates(ladder) && k <= |ladder| && n <= |ladder|
    ensures Filter(ladder[..n], NotIn(ladder[..k])) == if n <= k then [] else ladder[k..n]
  {
    var p := NotIn(ladder[..k]);
    if n > 0 {
      var x := ladder[n - 1];
      FilterFrom(ladder, k, n - 1);
      LaterIsNew(ladder, k, n - 1);
      assert Filter(ladder[..n], p) == Filter(ladder[..n - 1], p) + (if p(x) then [x] else []) by {
        OneMoreRung(ladder, n, p);
      }
      if k < n { assert ladder[k..n] == ladder[k..n - 1] + [x]; }
    }
  }

  /** What a request is offered is the rest of the ladder after the owned prefix. */
  lemma RemainingIsRest(c: Config, sold: seq<Reveal>, r: Request)
    requires ValidConfig(c) && OwnsPrefix(c, sold, r.team, r.checkpoint)
    ensures var owned := |Bought(sold, r.team, r.checkpoint)|;
            Remaining(c, sold, r) == Ladder(c, r.checkpoint)[owned..]
  {
    var ladder, owned := Ladder(c, r.checkpoint), Bought(sold, r.team, r.checkpoint);
    assert owned == ladder[..|owned|];
    RestOfLadder(ladder, |owned|);
  }

  lemma BoughtSnoc(sold: seq<Reveal>, r: Reveal, team: int, checkpoint: int)
    ensures Bought(sold + [r], team, checkpoint) ==
            if r.team == team && r.checkpoint == checkpoint then Bought(sold, team, checkpoint) + [r.indication]
            else Bought(sold, team, checkpoint)
  {
    FilterSnoc(sold, r, At(team, checkpoint));
    if At(team, checkpoint)(r) {
      MapSnoc(Filter(sold, At(team, checkpoint)), r, IndicationOf);
    } else {
      assert Filter(sold + [r], At(team, checkpoint)) == Filter(sold, At(team, checkpoint));
    }
  }

  lemma {:induction false} BoughtRecorded(sold: seq<Reveal>, team: int, checkpoint: int, x: int)
    requires x in Bought(sold, team, checkpoint)
    ensures Recorded(sold, team, x)
  {
    var mine := Filter(sold, At(team, checkpoint));
    FilterMembers(sold, At(team, checkpoint));
    var k :| 0 <= k < |Map(mine, IndicationOf)| && Map(mine, IndicationOf)[k] == x;
    var r := mine[k];
    assert r in mine;
    assert r in sold && At(team, checkpoint)(r);
    var j :| 0 <= j < |sold| && sold[j] == r;
  }

  lemma RecordedSnoc(sold: seq<Reveal>, r: Reveal, team: int, x: int)
    ensures Recorded(sold + [r], team, x) <==> Recorded(sold, team, x) || (r.team == team && r.indication == x)
  {
    var after := sold + [r];
    if Recorded(sold, team, x) {
      var k :| 0 <= k < |sold| && sold[k].team == team && sold[k].indication == x;
      assert after[k] == sold[k];
    }
    if r.team == team && r.indication == x { assert after[|sold|] == r; }
  }

  /** At the moment it commits, a held hint is the very next one of the ladder. */
  lemma HeldIsNext(c: Config, s: State, i: nat)
    requires Inv(c, s) && i < |s.phases| && Holds(s.phases[i])
    ensures var r, x := c.requests[i], s.phases[i].choice;
            |Bought(s.sold, r.team, r.checkpoint)| == |Ladder(c, r.checkpoint)| - x.left
  {
    var r, x := c.requests[i], s.phases[i].choice;
    var ladder, owned := Ladder(c, r.checkpoint), Bought(s.sold, r.team, r.checkpoint);
    assert PhaseFits(c, s, i) && OwnsPrefix(c, s.sold, r.team, r.checkpoint);
    if |ladder| - x.left < |owned| {
      assert owned[|ladder| - x.left] == x.indication;
      assert x.indication in owned;
      BoughtRecorded(s.sold, r.team, r.checkpoint, x.indication);
    }
  }

  // ---- Steps keep it --------------------------------------------------------------------------------------

  /** A step of one request that commits nothing. */
  lemma PhaseStep(c: Config, s: State, i: nat, p: Phase, t: State)
    requires Inv(c, s) && i < |s.phases| && t.sold == s.sold && t.charges == s.charges
    requires t.phases == s.phases[i := p] && PhaseFits(c, t, i)
    requires Holds(p) ==> forall j | 0 <= j < |s.phases| && j != i && Holds(s.phases[j])
                                     && c.requests[j].team == c.requests[i].team ::
                            s.phases[j].choice.indication != p.choice.indication
    ensures Inv(c, t)
  {
    forall j | 0 <= j < |t.phases| ensures PhaseFits(c, t, j) {
      if j != i { assert PhaseFits(c, s, j); }
    }
  }

  lemma FirstFits(c: Config, sold: seq<Reveal>, r: Request, at: nat)
    requires ValidConfig(c) && OwnsPrefix(c, sold, r.team, r.checkpoint) && Remaining(c, sold, r) != []
    ensures var rest := Remaining(c, sold, r); Fits(c, sold, r, Choice(rest[0], |rest|, at))
  {
    RemainingIsRest(c, sold, r);
  }

  lemma ChooseKeeps(c: Config, s: State, i: nat)
    requires Inv(c, s) && ValidConfig(c) && Enabled(c, s, Choose(i))
    ensures Inv(c, Apply(c, s, Choose(i)))
  {
    var r, t := c.requests[i], Apply(c, s, Choose(i));
    assert OwnsPrefix(c, s.sold, r.team, r.checkpoint);
    FirstFits(c, s.sold, r, s.phases[i].since);
    assert !Holds(t.phases[i]);
    PhaseStep(c, s, i, t.phases[i], t);
  }

  lemma InsertKeeps(c: Config, s: State, i: nat)
    requires Inv(c, s) && Enabled(c, s, Insert(i))
    ensures Inv(c, Apply(c, s, Insert(i)))
  {
    var t := Apply(c, s, Insert(i));
    assert PhaseFits(c, s, i);
    PhaseStep(c, s, i, t.phases[i], t);
  }

  lemma SoldOnce(c: Config, s: State, i: nat)
    requires Inv(c, s) && i < |s.phases| && Holds(s.phases[i])
    ensures KeysUnique(s.sold + [RevealOf(c, s, i)])
  {
    assert PhaseFits(c, s, i);
  }

  /** Selling the next hint of a ladder keeps every team on a prefix of every ladder. */
  lemma NextSold(c: Config, sold: seq<Reveal>, r: Reveal, team: int, checkpoint: int)
    requires OwnsPrefix(c, sold, team, checkpoint)
    requires var owned, ladder := Bought(sold, r.team, r.checkpoint), Ladder(c, r.checkpoint);
             |owned| < |ladder| && r.indication == ladder[|owned|]
    ensures OwnsPrefix(c, sold + [r], team, checkpoint)
    ensures |Bought(sold + [r], team, checkpoint)| >= |Bought(sold, team, checkpoint)|
  {
    BoughtSnoc(sold, r, team, checkpoint);
    if r.team == team && r.checkpoint == checkpoint {
      var owned, ladder := Bought(sold, team, checkpoint), Ladder(c, checkpoint);
      assert owned == ladder[..|owned|];
      assert owned + [r.indication] == ladder[..|owned| + 1];
    }
  }

  lemma PrefixGrows(c: Config, s: State, i: nat, team: int, checkpoint: int)
    requires Inv(c, s) && i < |s.phases| && Holds(s.phases[i])
    ensures OwnsPrefix(c, s.sold + [RevealOf(c, s, i)], team, checkpoint)
    ensures |Bought(s.sold + [RevealOf(c, s, i)], team, checkpoint)| >= |Bought(s.sold, team, checkpoint)|
  {
    HeldIsNext(c, s, i);
    assert PhaseFits(c, s, i) && OwnsPrefix(c, s.sold, team, checkpoint);
    NextSold(c, s.sold, RevealOf(c, s, i), team, checkpoint);
  }

  lemma BalanceKept(c: Config, s: State, i: nat)
    requires Inv(c, s) && Enabled(c, s, Commit(i))
    ensures Balanced(Apply(c, s, Commit(i)))
  {
    assert PhaseFits(c, s, i);
    ChargesSnoc(s.sold, RevealOf(c, s, i));
  }

  lemma OthersFit(c: Config, s: State, i: nat, j: nat)
    requires Sized(c, s) && HeldOnce(c, s) && Enabled(c, s, Commit(i)) && j < |s.phases| && PhaseFits(c, s, j)
    requires var team, checkpoint := c.requests[j].team, c.requests[j].checkpoint;
             |Bought(s.sold + [RevealOf(c, s, i)], team, checkpoint)| >= |Bought(s.sold, team, checkpoint)|
    ensures PhaseFits(c, Apply(c, s, Commit(i)), j)
  {
    if j != i && Choosy(s.phases[j]) {
      RecordedSnoc(s.sold, RevealOf(c, s, i), c.requests[j].team, s.phases[j].choice.indication);
    }
  }

  lemma LetGo(c: Config, s: State, i: nat, t: State)
    requires Sized(c, s) && HeldOnce(c, s) && i < |s.phases|
    requires |t.phases| == |s.phases| && t.phases == s.phases[i := t.phases[i]] && !Holds(t.phases[i])
    ensures HeldOnce(c, t)
  {
  }

  lemma CommitKeeps(c: Config, s: State, i: nat)
    requires Inv(c, s) && Enabled(c, s, Commit(i))
    ensures Inv(c, Apply(c, s, Commit(i)))
  {
    var t := Apply(c, s, Commit(i));
    BalanceKept(c, s, i);
    SoldOnce(c, s, i);
    forall team, checkpoint ensures OwnsPrefix(c, t.sold, team, checkpoint) { PrefixGrows(c, s, i, team, checkpoint); }
    forall j | 0 <= j < |t.phases| ensures PhaseFits(c, t, j) {
      PrefixGrows(c, s, i, c.requests[j].team, c.requests[j].checkpoint);
      OthersFit(c, s, i, j);
    }
    LetGo(c, s, i, t);
  }

  lemma SettingKeeps(c: Config, s: State, t: State)
    requires Inv(c, s) && t.sold == s.sold && t.charges == s.charges && t.phases == s.phases
    ensures Inv(c, t)
  {
    forall j | 0 <= j < |t.phases| ensures PhaseFits(c, t, j) { assert PhaseFits(c, s, j); }
  }

  /** A request begins, or ends with nothing. */
  lemma UnchosenKeeps(c: Config, s: State, i: nat, p: Phase, t: State)
    requires Inv(c, s) && i < |s.phases| && !Choosy(p) && t.sold == s.sold && t.charges == s.charges
    requires t.phases == s.phases[i := p]
    ensures Inv(c, t)
  {
    PhaseStep(c, s, i, p, t);
  }

  /** A request goes on with its choice, holding no row it did not hold. */
  lemma ChosenKeeps(c: Config, s: State, i: nat, p: Phase, t: State)
    requires Inv(c, s) && i < |s.phases| && Choosy(s.phases[i]) && Choosy(p) && p.choice == s.phases[i].choice
    requires Holds(p) == Holds(s.phases[i]) && !p.Beaten? && (p.Billed? ==> p.cost != 0)
    requires t.sold == s.sold && t.charges == s.charges && t.phases == s.phases[i := p]
    ensures Inv(c, t)
  {
    assert PhaseFits(c, s, i);
    PhaseStep(c, s, i, p, t);
  }

  lemma BeginKeeps(c: Config, s: State, i: nat)
    requires Inv(c, s) && Enabled(c, s, Begin(i))
    ensures Inv(c, Apply(c, s, Begin(i)))
  {
    var t := Apply(c, s, Begin(i));
    UnchosenKeeps(c, s, i, t.phases[i], t);
  }

  lemma CheckKeeps(c: Config, s: State, i: nat)
    requires Inv(c, s) && Enabled(c, s, Check(i))
    ensures Inv(c, Apply(c, s, Check(i)))
  {
    var t := Apply(c, s, Check(i));
    UnchosenKeeps(c, s, i, t.phases[i], t);
  }

  lemma RefuseKeeps(c: Config, s: State, i: nat)
    requires Inv(c, s) && Enabled(c, s, Refuse(i))
    ensures Inv(c, Apply(c, s, Refuse(i)))
  {
    var t := Apply(c, s, Refuse(i));
    UnchosenKeeps(c, s, i, Ended, t);
  }

  lemma AbortKeeps(c: Config, s: State, i: nat)
    requires Inv(c, s) && Enabled(c, s, Abort(i))
    ensures Inv(c, Apply(c, s, Abort(i)))
  {
    var t := Apply(c, s, Abort(i));
    UnchosenKeeps(c, s, i, Ended, t);
  }

  lemma RereadKeeps(c: Config, s: State, i: nat)
    requires Inv(c, s) && Enabled(c, s, Reread(i))
    ensures Inv(c, Apply(c, s, Reread(i)))
  {
    var t := Apply(c, s, Reread(i));
    UnchosenKeeps(c, s, i, t.phases[i], t);
  }

  lemma ReadPriceKeeps(c: Config, s: State, i: nat, again: bool)
    requires Inv(c, s) && Enabled(c, s, ReadPrice(i, again))
    ensures Inv(c, Apply(c, s, ReadPrice(i, again)))
  {
    var t := Apply(c, s, ReadPrice(i, again));
    ChosenKeeps(c, s, i, t.phases[i], t);
  }

  lemma BillKeeps(c: Config, s: State, i: nat)
    requires Inv(c, s) && Enabled(c, s, Bill(i))
    ensures Inv(c, Apply(c, s, Bill(i)))
  {
    var t := Apply(c, s, Bill(i));
    ChosenKeeps(c, s, i, t.phases[i], t);
  }

  lemma StepKeepsInv(c: Config, s: State, a: Action)
    requires Inv(c, s) && ValidConfig(c) && Enabled(c, s, a)
    ensures Inv(c, Apply(c, s, a))
  {
    match a
    case SetPrice(_) => SettingKeeps(c, s, Apply(c, s, a));
    case SetEnabled(_) => SettingKeeps(c, s, Apply(c, s, a));
    case Check(i) => CheckKeeps(c, s, i);
    case Choose(i) => ChooseKeeps(c, s, i);
    case Insert(i) => InsertKeeps(c, s, i);
    case Commit(i) => CommitKeeps(c, s, i);
    case Begin(i) => BeginKeeps(c, s, i);
    case Refuse(i) => RefuseKeeps(c, s, i);
    case ReadPrice(i, again) => ReadPriceKeeps(c, s, i, again);
    case Bill(i) => BillKeeps(c, s, i);
    case Reread(i) => RereadKeeps(c, s, i);
    case Abort(i) => AbortKeeps(c, s, i);
  }

  lemma InitialInv(c: Config, s: State)
    requires Initial(c, s)
    ensures Inv(c, s)
  {
    assert ChargesFor(s.sold) == [];
    forall team, checkpoint ensures OwnsPrefix(c, s.sold, team, checkpoint) {
      assert Filter(s.sold, At(team, checkpoint)) == [];
      assert Bought(s.sold, team, checkpoint) == [];
    }
  }
}
