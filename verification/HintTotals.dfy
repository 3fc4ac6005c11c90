/**
 From the ledger to the scoreboard: what hints cost a team is in its total, once.
 */
module HintTotals {
  import HintLedger
  import HintRequests
  import opened Lists
  import opened ScoreRuns
  import opened Scoring

  /** The purchases on record, as the operations that enter them on the scoreboard. */
  function Purchases(sold: seq<HintLedger.Reveal>): seq<Op> {
    if sold == [] then []
    else
      var last := sold[|sold| - 1];
      Purchases(sold[..|sold| - 1]) + [BuyHint(last.team, last.cost)]
  }

  lemma {:induction false} NoCheckIns(sold: seq<HintLedger.Reveal>)
    ensures forall op | op in Purchases(sold) :: op.BuyHint?
  {
    if sold != [] { NoCheckIns(sold[..|sold| - 1]); }
  }

  lemma BoughtHint(w: World, b: Board, buyer: int, cost: int, team: int)
    requires buyer in b.teams
    ensures var after := Step(w, b, BuyHint(buyer, cost));
            && after.rows == b.rows && after.teams.Keys == b.teams.Keys
            && Sum(after.awards, AwardWorth(team)) ==
               Sum(b.awards, AwardWorth(team)) + (if buyer == team then cost as real else 0.0)
  {
    if cost != 0 {
      SumSnoc(b.awards, Award(NextAwardId(b.awards), buyer, cost as real, true), AwardWorth(team));
    }
  }

  lemma {:induction false} PurchasesAddUp(w: World, b: Board, sold: seq<HintLedger.Reveal>, team: int)
    requires forall r | r in sold :: r.team in b.teams
    ensures var after := Run(w, b, Purchases(sold));
            && after.rows == b.rows && after.teams.Keys == b.teams.Keys
            && Sum(after.awards, AwardWorth(team)) ==
               Sum(b.awards, AwardWorth(team)) + HintRequests.Spent(sold, team) as real
  {
    if sold != [] {
      var front, last := sold[..|sold| - 1], sold[|sold| - 1];
      assert sold == front + [last];
      assert last in sold;
      PurchasesAddUp(w, b, front, team);
      assert Purchases(sold)[..|Purchases(front)|] == Purchases(front);
      BoughtHint(w, Run(w, b, Purchases(front)), last.team, last.cost, team);
    }
  }

  lemma {:induction false} ChargedIsSpent(c: HintLedger.Config, s: HintLedger.State,
                                        run: seq<HintLedger.Action>, t: HintLedger.State,
                       team: int)
    requires HintLedger.Initial(c, s) && HintLedger.ValidConfig(c) && HintLedger.IsRun(c, s, run, t)
    ensures HintRequests.Charged(t.charges, team) == HintRequests.Spent(t.sold, team)
  {
    HintRequests.BilledOnceInOrder(c, s, run, t, team, 0);
  }

  /**
   Whatever the interleaving, every total is right after the purchases, and the awards in a team's
   total have grown by exactly what the ledger charged it.
   */
  lemma {:induction false} HintsAreInTotals(w: World, b: Board, c: HintLedger.Config, s: HintLedger.State,
                         run: seq<HintLedger.Action>, t: HintLedger.State, team: int)
    requires Keyed(b) && AllRight(w, b) && forall r | r in t.sold :: r.team in b.teams
    requires HintLedger.Initial(c, s) && HintLedger.ValidConfig(c) && HintLedger.IsRun(c, s, run, t)
    ensures AllRight(w, Run(w, b, Purchases(t.sold))) && Run(w, b, Purchases(t.sold)).rows == b.rows
    ensures Sum(Run(w, b, Purchases(t.sold)).awards, AwardWorth(team)) ==
            Sum(b.awards, AwardWorth(team)) + HintRequests.Charged(t.charges, team) as real
  {
    ChargedIsSpent(c, s, run, t, team);
    NoCheckIns(t.sold);
    EditionStaysRight(w, b, Purchases(t.sold));
    PurchasesAddUp(w, b, t.sold, team);
  }
}
