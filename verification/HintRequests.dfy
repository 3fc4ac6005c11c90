/**
 What the ledger of hints guarantees to a team: that it is billed once, in order and for what is on
 record, that its requests end, and what it reads back.
 */
module HintRequests {
  import opened HintLedger
  import opened Lists

  // ---- Billing -------------------------------------------------------------------------------

  /** Every interleaving of every number of requests, crashes and price changes keeps the invariant. */
  lemma {:induction false} RunsKeepInv(c: Config, s: State, run: seq<Action>, t: State)
    requires Initial(c, s) && ValidConfig(c) && IsRun(c, s, run, t)
    ensures Inv(c, t)
    decreases |run|
  {
    if run == [] {
      InitialInv(c, s);
    } else {
      var mid :| IsRun(c, s, run[..|run| - 1], mid) && Sized(c, mid)
                 && Enabled(c, mid, run[|run| - 1]) && Apply(c, mid, run[|run| - 1]) == t;
      RunsKeepInv(c, s, run[..|run| - 1], mid);
      StepKeepsInv(c, mid, run[|run| - 1]);
    }
  }

  /** total_spent of summary_for_team. */
  function Spent(sold: seq<Reveal>, team: int): int {
    if sold == [] then 0
    else Spent(sold[..|sold| - 1], team) + (if sold[|sold| - 1].team == team then sold[|sold| - 1].cost else 0)
  }

  function Charged(charges: seq<Charge>, team: int): int {
    if charges == [] then 0
    else
      var last := charges[|charges| - 1];
      Charged(charges[..|charges| - 1], team) + (if last.team == team then last.points else 0)
  }

  lemma {:induction false} ChargedSnoc(charges: seq<Charge>, x: Charge, team: int)
    ensures Charged(charges + [x], team) == Charged(charges, team) + (if x.team == team then x.points else 0)
  {
    Snoc(charges, x);
  }

  lemma {:induction false} ChargesAddUp(sold: seq<Reveal>, team: int)
    ensures Charged(ChargesFor(sold), team) == Spent(sold, team)
  {
    if sold != [] {
      var front, r := sold[..|sold| - 1], sold[|sold| - 1];
      ChargesAddUp(front, team);
      ChargesSnoc(front, r);
      assert sold == front + [r];
      if Costs(r) {
        ChargedSnoc(ChargesFor(front), ChargeFor(r), team);
      } else {
        assert ChargesFor(sold) == ChargesFor(front);
      }
    }
  }

  /**
   After any interleaving: no hint is sold to a team twice, the hints it owns at a checkpoint are
   the first ones of the ladder, and what it was ever charged is the total of the costs on record.
   */
  lemma {:induction false} BilledOnceInOrder(c: Config, s: State, run: seq<Action>, t: State, team: int, checkpoint: int)
    requires Initial(c, s) && ValidConfig(c) && IsRun(c, s, run, t)
    ensures KeysUnique(t.sold)
    ensures Bought(t.sold, team, checkpoint) <= Ladder(c, checkpoint)
    ensures Charged(t.charges, team) == Spent(t.sold, team)
  {
    RunsKeepInv(c, s, run, t);
    assert OwnsPrefix(c, t.sold, team, checkpoint);
    ChargesAddUp(t.sold, team);
  }

  lemma {:induction false} OneLessRemains(c: Config, sold: seq<Reveal>, x: Reveal, r: Request)
    requires ValidConfig(c) && x.team == r.team && x.checkpoint == r.checkpoint
    requires OwnsPrefix(c, sold + [x], r.team, r.checkpoint)
    ensures |Remaining(c, sold + [x], r)| == |Ladder(c, r.checkpoint)| - |Bought(sold, r.team, r.checkpoint)| - 1
  {
    BoughtSnoc(sold, x, r.team, r.checkpoint);
    RemainingIsRest(c, sold + [x], r);
  }

  /** The number of hints left that a buyer is told is exact when its purchase commits. */
  lemma RemainingIsExact(c: Config, s: State, i: nat)
    requires Inv(c, s) && ValidConfig(c) && Enabled(c, s, Commit(i))
    ensures var t := Apply(c, s, Commit(i));
            t.phases[i].remaining == |Remaining(c, t.sold, c.requests[i])|
  {
    var r := c.requests[i];
    HeldIsNext(c, s, i);
    PrefixGrows(c, s, i, r.team, r.checkpoint);
    OneLessRemains(c, s.sold, RevealOf(c, s, i), r);
  }

  /** A hint of the ladder that is on record for the team was bought at that checkpoint. */
  lemma {:induction false} RecordedIsBought(c: Config, sold: seq<Reveal>, r: Request, x: int)
    requires ValidConfig(c) && x in Ladder(c, r.checkpoint) && Recorded(sold, r.team, x)
    requires forall team, checkpoint :: OwnsPrefix(c, sold, team, checkpoint)
    ensures x in Bought(sold, r.team, r.checkpoint)
  {
    var k :| 0 <= k < |sold| && sold[k].team == r.team && sold[k].indication == x;
    var there := sold[k].checkpoint;
    var mine := Filter(sold, At(r.team, there));
    FilterMembers(sold, At(r.team, there));
    assert sold[k] in mine;
    var i :| 0 <= i < |mine| && mine[i] == sold[k];
    assert OwnsPrefix(c, sold, r.team, there) && Bought(sold, r.team, there)[i] == x;
    assert Ladder(c, there)[i] == x;
  }

  /**
   The loser of a race pays nothing and writes nothing. The hint it names is one the team bought at
   this checkpoint, so it is told fewer hints than there were when it chose: those it does not own.
   */
  lemma LoserOwnsTheHint(c: Config, s: State, i: nat)
    requires Inv(c, s) && ValidConfig(c) && Enabled(c, s, Reread(i))
    ensures var r, x, t := c.requests[i], s.phases[i].choice, Apply(c, s, Reread(i));
            && t.sold == s.sold && t.charges == s.charges && t.phases[i].indication == x.indication
            && x.indication in Bought(t.sold, r.team, r.checkpoint) && t.phases[i].remaining < x.left
            && t.phases[i].remaining == |Ladder(c, r.checkpoint)| - |Bought(t.sold, r.team, r.checkpoint)|
  {
    var r, x := c.requests[i], s.phases[i].choice;
    var ladder, owned := Ladder(c, r.checkpoint), Bought(s.sold, r.team, r.checkpoint);
    assert PhaseFits(c, s, i) && OwnsPrefix(c, s.sold, r.team, r.checkpoint);
    RecordedIsBought(c, s.sold, r, x.indication);
    RemainingIsRest(c, s.sold, r);
    var k :| 0 <= k < |owned| && owned[k] == x.indication;
    assert ladder[k] == x.indication;
  }

  // ---- Progress --------------------------------------------------------------------------------------------

  /** A step that some request can take towards its end. */
  function NextOf(c: Config, s: State, i: nat): Action
    requires Sized(c, s) && i < |s.phases| && !Finished(s.phases[i])
  {
    match s.phases[i]
    case Waiting => Begin(i)
    case Begun(_) => if s.enabled then Check(i) else Refuse(i)
    case Allowed(_, _) => if Remaining(c, s.sold, c.requests[i]) != [] then Choose(i) else Refuse(i)
    case Chosen(_, _) => ReadPrice(i, true)
    case Priced(_, _) => Insert(i)
    case Inserted(_, cost) => if cost != 0 then Bill(i) else Commit(i)
    case Billed(_, _) => Commit(i)
    case Beaten(_) => Reread(i)
  }

  lemma HolderMoves(c: Config, s: State, j: nat)
    requires Sized(c, s) && j < |s.phases| && Holds(s.phases[j])
    ensures !Finished(s.phases[j]) && Enabled(c, s, NextOf(c, s, j))
  {
  }

  /** Waiting for another request's row never closes a circle: some unfinished request can move. */
  lemma SomeoneMoves(c: Config, s: State, i: nat) returns (j: nat)
    requires Sized(c, s) && i < |s.phases| && !Finished(s.phases[i])
    ensures j < |s.phases| && !Finished(s.phases[j]) && Enabled(c, s, NextOf(c, s, j))
  {
    j := i;
    if s.phases[i].Priced? && Blocked(c, s, i) {
      j :| 0 <= j < |s.phases| && Holds(s.phases[j]);
      HolderMoves(c, s, j);
    }
  }

  function Rank(p: Phase): nat {
    match p
    case Waiting => 7
    case Begun(_) => 6
    case Allowed(_, _) => 5
    case Chosen(_, _) => 4
    case Priced(_, _) => 3
    case Inserted(_, _) => 2
    case Billed(_, _) => 1
    case Beaten(_) => 1
    case _ => 0
  }

  predicate ByRequest(a: Action) { !a.SetPrice? && !a.SetEnabled? }

  lemma RankFalls(c: Config, s: State, a: Action)
    requires Sized(c, s) && Enabled(c, s, a) && ByRequest(a)
    ensures a.i < |s.phases| && Apply(c, s, a).phases == s.phases[a.i := Apply(c, s, a).phases[a.i]]
    ensures Rank(Apply(c, s, a).phases[a.i]) < Rank(s.phases[a.i])
  {
  }

  /** Every step of a request brings the end nearer, so requests cannot run for ever. */
  lemma StepsRunOut(c: Config, s: State, a: Action)
    requires Sized(c, s) && Enabled(c, s, a) && ByRequest(a)
    ensures Work(Apply(c, s, a).phases, Rank) < Work(s.phases, Rank)
  {
    RankFalls(c, s, a);
    WorkUpdate(s.phases, a.i, Apply(c, s, a).phases[a.i], Rank);
  }

  // ---- What a buyer is told ------------------------------------------------------------------------------

  /** The request's hint is on record at this cost. */
  ghost predicate OnRecord(sold: seq<Reveal>, r: Request, indication: int, cost: int) {
    exists x :: x in sold && x.team == r.team && x.checkpoint == r.checkpoint && x.indication == indication && x.cost == cost
  }

  ghost predicate ToldTrue(c: Config, s: State) {
    Sized(c, s) && forall i | 0 <= i < |s.phases| && s.phases[i].Granted? ::
      OnRecord(s.sold, c.requests[i], s.phases[i].indication, s.phases[i].cost)
  }

  lemma StepTellsTrue(c: Config, s: State, a: Action)
    requires ToldTrue(c, s) && Enabled(c, s, a)
    ensures ToldTrue(c, Apply(c, s, a))
  {
    var t := Apply(c, s, a);
    forall i | 0 <= i < |t.phases| && t.phases[i].Granted?
      ensures OnRecord(t.sold, c.requests[i], t.phases[i].indication, t.phases[i].cost)
    {
      if a.Commit? && a.i == i {
        assert RevealOf(c, s, i) in t.sold;
      } else {
        assert t.phases[i] == s.phases[i];
        var x :| x in s.sold && x.team == c.requests[i].team && x.checkpoint == c.requests[i].checkpoint
                 && x.indication == s.phases[i].indication && x.cost == s.phases[i].cost;
        assert x in t.sold;
      }
    }
  }

  /** Over every run, a buyer is told a hint that is on record for its team and post, at the cost on record. */
  lemma {:induction false} GrantedIsOnRecord(c: Config, s: State, run: seq<Action>, t: State, i: nat)
    requires Initial(c, s) && IsRun(c, s, run, t) && i < |t.phases| && t.phases[i].Granted?
    ensures i < |c.requests| && OnRecord(t.sold, c.requests[i], t.phases[i].indication, t.phases[i].cost)
  {
    RunTellsTrue(c, s, run, t);
  }

  lemma {:induction false} RunTellsTrue(c: Config, s: State, run: seq<Action>, t: State)
    requires Initial(c, s) && IsRun(c, s, run, t)
    ensures ToldTrue(c, t)
    decreases |run|
  {
    if run != [] {
      var mid :| IsRun(c, s, run[..|run| - 1], mid) && Sized(c, mid)
                 && Enabled(c, mid, run[|run| - 1]) && Apply(c, mid, run[|run| - 1]) == t;
      RunTellsTrue(c, s, run[..|run| - 1], mid);
      StepTellsTrue(c, mid, run[|run| - 1]);
    }
  }
}
