# Rally: a verified model of the route, the scoreboard and their concurrent writes

Rally runs city games. Teams walk a route of posts, check in, are scored by staff, buy hints and are
ranked. This project models the parts of the API service whose rules span several tables or several
requests, and proves what those rules keep. `dafny verify dfyconfig.toml` checks all of it.

| Files | What they model |
|---|---|
| `RouteStages`, `RouteRuns`, `RouteProgress`, `CheckInDecision` | which post a team may check into, with and without stages, and what counts as resolved |
| `Resequence`, `Reordering`, `Renumbering`, `RenumberedRoute` | renumbering the route in place under a unique constraint, and what the stage rules gain from it |
| `Scoring`, `ScoreFormula`, `Rescoring`, `ScoreRuns`, `SettledRuns`, `StaleScores`, `StaleRuns`, `BoardLaws`, `TotalLaws`, `ScoringService` | team totals as a maintained cache, relative ranking of timed results, when a ranking goes stale, and the service that keeps both up to date |
| `Ranking` | competition ranks and the stored classification |
| `HintLedger`, `HintRequests`, `HintReadings`, `HintTotals`, `HintPrices` | buying hints under concurrent taps, crashes and changes of price and switch, and reading them back |
| `CheckinToken`, `Base64`, `Numerals` | minting and verifying check-in tokens |
| `Redaction`, `RouteLists` | which posts a team or the public is listed, and what a list may tell |
| `RowLocks`, `LockPoints`, `Deadlocks`, `Standoffs` | transactions that lock team rows, and exactly which sets of them can deadlock |
| `EventRows`, `EventBootstrap`, `EventRaces`, `SettingsBootstrap`, `SettingsRaces`, `RallyEvents` | the lazy creation of the current event and its settings, and the event CRUD |
| `RoundRobin`, `Versus`, `LegTime` | rotation schedules, head-to-head pairs, points for the legs of a route |
| `Lists`, `Sets`, `Sorting`, `Wrappers` | sums and filters of lists, finite sets, a stable sort, Option and Result |

Tables are sequences or maps. A query gives rows in any order, so everything derived from one is shown
not to depend on it. A service or table that changes fields in place is a class whose methods are
proved against specification functions; lemmas about those functions say what the service promises.
Transactions that race are state machines: a list of small steps, a unique key or a row lock as a
guard, and statements about every interleaving of any number of them. Arithmetic on scores is exact,
with Python's rounding written out. The text codec, the keyed hash, the clock, an activity type's own
scoring of a form and the centre of a search circle are parameters.

## Where the code and its documentation differ

The model follows the code.

- The relaxed counting rule is documented as free order (route_progress.py:36-48). It admits a full tour
  only in the order 1, 2, ..., n, and it lets a team be counted twice at one post.
- Under stages a post with nothing to judge stays open to a second check-in, because the gate is made
  blind to the post's own arrival.
- `is_reachable_in_stages` speaks of a fallback for posts outside every stage; there is none.
- A reorder that asks for a duplicate number is refused after its first pass was committed: the posts stay
  on their negated ids, and the next renumbering has lost their relative order.
- Posts outside every stage are said to follow every staged one (crud_checkpoint.py:15-16). They sort as if their
  stage had order 1,000,000, so a stage of a greater order comes after them.
- An edit of a result that carries no form stores new modifiers and leaves the old score.
- The session does not flush before it commits (db/session.py:41-45), so an edit that carries a form and also
  turns the completion is scored on the old population: the new flag is stored only after the rescore.
- Removing a ranked result ranks nobody again, although every other result was ranked against it.
- A completed post is documented to be revealed (checkpoint_service.py:103-107). With the whole route done
  the last post is not, unless the team has an arrival there.
- `summary_for_team` promises newest last. It and `list_hints` order by the start of the buying transaction, so
  when two requests of a team overlap a hint can be listed before the one it followed.
- Calls of `get_or_create` that resolved different events can take the same legacy row from one another.
- `CRUDTeam.get_multi` says check-in holds a team's row while it reclassifies; it commits first. `CRUDTeam.update`
  does hold one row while it locks the event's, and that can deadlock: with a check-in, a reclassification or an
  update of another team unless its row is the first, and with pairings that reach its row from below.
- A check-in reclassifies the teams of the current event (crud_team.py:94-98) and compares no events itself. The
  visit of a team of another one is stored, and its per-checkpoint list stays one slot short until something
  else recomputes it; its total stays right.
- "Exactly one event is current" holds as "at most one" for single calls. Racing first calls can leave two
  when several events exist and none is current.
- The rotation schedule visits every pair exactly once only when there are no more teams than checkpoints.

## Model

| member | source | states |
|---|---|---|
| RouteStages.BuildStagesWellFormed | api-rally/app/services/route_stages.py:45-59 | for any rows and grouping with each post in one stage, the built list ascends (ties allowed), its stages are sorted and disjoint |
| RouteStages.GateMeaning | api-rally/app/services/route_stages.py:70-111 | the scan with early exit is the gate: unresolved, all stages of smaller order complete, and in an ordered stage all smaller posts resolved; a post in no stage needs only to be unresolved |
| RouteStages.GateInCounts | api-rally/app/services/route_stages.py:30-111 | on well-formed stages that list no post twice: a staged post passes iff it is unresolved, each stage of smaller order has all its posts resolved or as many as its count, clamped to what it has, asks for, and an ordered own stage has every smaller post resolved |
| RouteRuns.ExactStates | api-rally/app/services/route_stages.py:45-111 | a set of posts is reached by check-ins that each pass the gate if and only if ordered stages are filled from the front and every stage before a touched one has met its clamped count |
| RouteRuns.StatesInCounts | api-rally/app/services/route_stages.py:30-111 | the same with numbers: reached iff ordered stages are filled from the front and each stage before one with a resolved post has min(count, size) of its posts resolved, or all without a count |
| RouteRuns.OrderedStagePrefix | api-rally/app/services/route_stages.py:107-111 | filled from the front means: the resolved posts of the stage are its first k, and conversely |
| RouteRuns.NoDeadEnd | api-rally/app/services/route_stages.py:32-111 | in any state, reached or not, with an unresolved staged post, some staged post passes the gate |
| RouteRuns.Persistence | api-rally/app/services/route_stages.py:70-111 | a reachable post stays reachable as others are resolved, until it is resolved itself |
| RouteRuns.Merge | api-rally/app/services/route_stages.py:70-111 | any two gated runs merge into a gated run that extends the first and reaches the union of both |
| RouteRuns.Completion | api-rally/app/services/route_stages.py:32-111 | every gated run extends to a gated run that resolves the whole route |
| RouteRuns.RunLength | api-rally/app/services/route_stages.py:89-90 | a gated run repeats no post, so it is no longer than the route |
| RouteProgress.ResolvedCheckpointOrders | api-rally/app/services/route_progress.py:51-101 | the loop collects exactly the orders of posts skipped, fully judged, or arrived at with nothing to judge |
| RouteProgress.ArrivalInvisible | api-rally/app/services/route_progress.py:63-69 | adding a team's arrival row at the target changes nothing in the set the target's gate reads |
| RouteProgress.TargetResolvedIff | api-rally/app/services/route_progress.py:92-101 | the target's gate sees it resolved iff it was skipped or judged; without the exemption, iff also arrived with nothing to judge |
| RouteProgress.LoadStages | api-rally/app/services/route_progress.py:104-122 | the grouping loop builds the stages of the specification |
| RouteProgress.LoadedStagesWellFormed | api-rally/app/services/route_progress.py:104-122 | the loaded stages are sorted and disjoint and hold exactly the posts assigned to them |
| RouteProgress.DecisionIgnoresOwnArrival | api-rally/app/services/route_progress.py:158-193 | recording the arrival before deciding gives the decision that held before |
| CheckInDecision.StagedDecision | api-rally/app/services/route_progress.py:158-187 | in terms of the tables, for a post of a stage row: admitted iff the door is open where hours count, the team is not done with it, each row of smaller order has as many posts done as it asks for, and an ordered own row has its earlier posts done |
| CheckInDecision.UnstagedDecision | api-rally/app/services/route_stages.py:70-99 | on stages, a post of no stage row is admitted iff the door is open and the team is not done with it |
| CheckInDecision.CountedDecision | api-rally/app/services/route_progress.py:189-193 | without stages: iff the door is open and the post is the next one, or with order off any one past the number of check-ins |
| CheckInDecision.DoorIsNamed | api-rally/app/services/route_progress.py:125-140 | a closed door is named exactly as not open yet before its opening time and as closed otherwise, and never while hours are off |
| RouteProgress.SequentialRuns | api-rally/app/services/route_stages.py:70-111 | with consecutive ordered, fully required stages the gated runs on 1..n are exactly 1, 2, ..., k |
| RouteProgress.StageRuleRefinesCountRule | api-rally/app/services/route_progress.py:36-48 | with the first k posts resolved, the stage gate and the strict counting rule admit the same post |
| RouteProgress.SameRuns | api-rally/app/services/route_progress.py:36-48 | sequential stages and strict counting admit the same runs |
| RouteProgress.CountRunLength | api-rally/app/services/route_progress.py:36-48 | either counting mode admits at most n check-ins on a route of n posts |
| RouteProgress.FreeOrderFullTourIsSequential | api-rally/app/services/route_progress.py:36-48 | a tour of all posts passes the relaxed rule iff it is 1, 2, ..., n |
| RouteProgress.FreeOrderCanRepeatIff | api-rally/app/services/route_progress.py:36-48 | the relaxed rule admits a run that counts a team twice at a post iff the route has two or more posts |
| RouteProgress.UnjudgedPostStaysOpen | api-rally/app/services/route_progress.py:158-187 | under stages a reachable post with nothing to judge is still reachable after the team arrived there |
| Resequence.CheckPointTable.Resequence | api-rally/app/crud/crud_checkpoint.py:106-142 | every single write keeps orders unique; the result gives each row its position by draft state, stage and old order; a table already in place takes no write |
| Renumbering.Contiguous | api-rally/app/crud/crud_checkpoint.py:127-131 | the new numbers are a bijection onto 1..n |
| Renumbering.PublishedFirst | api-rally/app/crud/crud_checkpoint.py:107-108 | a post is a draft iff its number is past the number of published posts |
| Renumbering.StageBlocks | api-rally/app/crud/crud_checkpoint.py:117-127 | whatever is numbered between two posts of one stage and draft state belongs to them |
| Renumbering.GroupsInOrder | api-rally/app/crud/crud_checkpoint.py:117-127 | blocks follow stage order, and inside a group the relative order is the old one, both ways |
| Renumbering.StagesFirst | api-rally/app/crud/crud_checkpoint.py:117-127 | of two posts of one draft state in known stages the one of the smaller stage order is numbered first |
| Renumbering.NumberedInOrder | api-rally/app/crud/crud_checkpoint.py:106-142 | with stage orders below a million, of any two posts the first is: published before draft, then by stage order with posts of no known stage last, then by old number |
| Renumbering.FarStageComesLast | api-rally/app/crud/crud_checkpoint.py:16-127 | a stage of an order above a million is numbered after the posts of no stage |
| Renumbering.SecondCallChangesNothing | api-rally/app/crud/crud_checkpoint.py:130-131 | renumbering a renumbered column gives the same column |
| Resequence.FirstPassUnique | api-rally/app/crud/crud_checkpoint.py:133-137 | with any subset of rows already negated, orders are unique |
| Resequence.SecondPassUnique | api-rally/app/crud/crud_checkpoint.py:138-140 | with any subset of rows already given its target, orders are unique |
| Reordering.PostTable.ReorderCheckpoints | api-rally/app/crud/crud_checkpoint.py:152-179 | for any numbers asked for, of posts of any editions: it succeeds iff the numbering is unique within each edition, no row is given a number a later rival is parked on and every listed row can be parked; refused while parking it changes nothing, refused later it leaves exactly the listed rows on their negated ids |
| Reordering.PositiveReorder | api-rally/app/crud/crud_checkpoint.py:152-179 | with positive numbers only a duplicate can refuse it |
| Renumbering.RefusedReorderForgetsOrder | api-rally/app/crud/crud_checkpoint.py:152-179 | after a refused reorder the next renumbering puts the parked posts of a group in descending id order |
| RenumberedRoute.RenumberedRouteIsSequential | api-rally/app/crud/crud_checkpoint.py:106-142 | renumber, load the stages, and if all are ordered and fully required the gate is the sequential rule on 1..n |
| ScoreFormula.RankingIsFair | api-rally/app/models/activities/time_based.py:32-71 | relative scores lie between the minimum and the maximum, and a faster time never scores less |
| ScoreFormula.RankingEnds | api-rally/app/models/activities/time_based.py:55-67 | the fastest get the maximum and the slowest, if not everybody is, the minimum, ties included |
| ScoreFormula.PenaltyIsFelt | api-rally/app/models/activities/base.py:49-77 | a score is never negative, and while it is positive a penalty costs exactly its points |
| ScoreFormula.ShotsAreFelt | api-rally/app/models/activities/base.py:49-77 | each extra shot adds one bonus, a negative number of them nothing, and what is positive is the base plus the modifiers |
| ScoreFormula.TimedScoring | api-rally/app/services/scoring_service.py:127-169 | a timed result alone gets the maximum, among several its ranking score, and beside times it is not one of nothing, each before modifiers |
| ScoreFormula.OwnScoring | api-rally/app/services/scoring_service.py:127-169 | any other result gets its type's own score of the form for a team of at least one, before modifiers |
| SettledRuns.ChargingAddsUp | api-rally/app/services/scoring_service.py:446-449 | adding to one kind of penalty adds that much to their sum, new kind or old |
| ScoreFormula.ScorePermutation | api-rally/app/services/scoring_service.py:127-169 | a score depends on the other times only as a multiset |
| Scoring.RoundIsNearest | api-rally/app/services/scoring_service.py:274 | totals are rounded to a nearest integer, ties to the even one |
| Scoring.LayoutMeaning | api-rally/app/services/scoring_service.py:289-308 | with distinct orders, slot i of the list holds the truncated score of the i-th scored checkpoint of the route |
| Scoring.LayoutRest | api-rally/app/services/scoring_service.py:304-308 | the slots past the scored checkpoints are zero |
| Scoring.LayoutAnyListing | api-rally/app/services/scoring_service.py:301-308 | the list does not depend on the order the dict gives its items, shared orders included |
| Scoring.Lay | api-rally/app/services/scoring_service.py:304-308 | the list has one slot per visit, cut or padded with zeros |
| Scoring.TruncIsTowardsZero | api-rally/app/services/scoring_service.py:304-308 | the slots of the list are cut towards zero, by less than one point |
| Scoring.SelectedTells | api-rally/app/services/scoring_service.py:210-233 | any query that keeps the team's rows, in any order, gives the sums, checkpoints and orders of the whole table |
| Rescoring.SettledMeaning | api-rally/app/services/scoring_service.py:674-725 | a from-scratch rescore changes nothing iff each completed row holds its score on the completed times |
| Rescoring.RescoreSettles | api-rally/app/services/scoring_service.py:674-725 | whatever the scores were, a full rescore leaves nothing for another one to change |
| Rescoring.NewResultSettles | api-rally/app/services/scoring_service.py:538-566 | own score on the stored times plus the new one, and everyone else rescored leaving the new row out and adding its time back, equals a full rescore |
| Rescoring.EditSettlesIff | api-rally/app/services/scoring_service.py:600-616 | an edit that carries a form, scored on the stored completion flags, leaves nothing to rescore iff the completed rows are worth the same on the new population of times |
| Rescoring.EditSettles | api-rally/app/services/scoring_service.py:600-616 | in particular an edit that carries a form and keeps the completion leaves the activity as a full rescore would |
| Rescoring.BareEditSettlesIff | api-rally/app/services/scoring_service.py:583-616 | an edit without a form keeps a settled activity settled iff every row completed after it stores what it is then worth, new modifiers and a turned completion included |
| Rescoring.BareEditKeepingFlag | api-rally/app/services/scoring_service.py:583-616 | with the completion kept that is so iff the new modifiers are worth what the old ones were |
| StaleScores.BareModifiersStaleIff | api-rally/app/models/activities/base.py:49-77 | under the repository's formula that means: the row is unfinished, or shots bonus less penalties is unchanged, or together with the base it is at most zero before and after |
| ScoreRuns.OperationSpares | api-rally/app/services/scoring_service.py:396-725 | an operation leaves every result and award of the teams it does not refresh as they were |
| ScoreRuns.StepRightIff | api-rally/app/services/scoring_service.py:259-287 | after any single operation, accepted or refused, a team's total is right, and its list too iff the operation is not its own check-in outside of the current event |
| ScoreRuns.RunKeepsTotals | api-rally/app/services/scoring_service.py:259-725 | totals never drift: after any run of submissions, edits, deletions, penalties, shots, awards, revocations, hint purchases and check-ins each total is what recomputing gives, and each list too iff the team has not checked in outside of the current event since it was last recomputed |
| ScoreRuns.EditionStaysRight | api-rally/app/crud/crud_team.py:81-118 | in particular a run that checks in teams of the current event only leaves every team exactly right |
| BoardLaws.SubmissionStored | api-rally/app/services/scoring_service.py:517-581 | for every type of activity, an admissible submission adds one completed row with its entry, its ranked time if timed, and its score on the times the activity then has |
| BoardLaws.OthersAfterSubmission | api-rally/app/services/scoring_service.py:558-566 | every other row keeps all but its score, and that changes only for completed rows of a timed activity, to their score on the new times |
| BoardLaws.RefusedSubmission | api-rally/app/services/scoring_service.py:517-545 | with an unknown activity or team, a bad form or a second result nothing changes |
| BoardLaws.EditStored | api-rally/app/services/scoring_service.py:583-631 | an edit stores the fields it carries in its row and nothing else but scores; with a form, its row, for every known type of activity, and the completed rows of a timed one are scored on the times the old flags select |
| BoardLaws.DeletionStored | api-rally/app/services/scoring_service.py:654-672 | a deletion takes out the one row and leaves the others as they are |
| BoardLaws.NothingToChange | api-rally/app/services/scoring_service.py:583-672 | an edit or a deletion of a missing row changes nothing |
| BoardLaws.PenaltyStored | api-rally/app/services/scoring_service.py:435-458 | the amount is added to its kind and no other, the one row is scored on the new entry and the times of its activity, timed or not, and no other row changes |
| BoardLaws.ShotsStored | api-rally/app/services/scoring_service.py:396-433 | the number of shots is replaced and the one row scored on the new entry and times, timed or not; no other row changes |
| BoardLaws.NoResultToModify | api-rally/app/services/scoring_service.py:396-458 | without a result neither changes anything, nor do shots past the limit or for a missing team |
| TotalLaws.ResultAdds | api-rally/app/services/scoring_service.py:200-233 | wherever it stands, a result adds its score to its team's points iff it is completed, scored, and of an activity at a checkpoint |
| TotalLaws.AwardAdds | api-rally/app/services/scoring_service.py:235-242 | an award adds its points to its team while it is active, and nothing otherwise |
| TotalLaws.TotalIsPoints | api-rally/app/services/scoring_service.py:259-287 | a total is the rounded points, and without rows there are none |
| TotalLaws.ScoredCheckpoints | api-rally/app/services/scoring_service.py:200-233 | a checkpoint is scored iff some result of the team counts there, with its order on the route |
| TotalLaws.ResultAddsAt | api-rally/app/services/scoring_service.py:200-233 | a result adds its score to the checkpoint it counts at and to no other |
| TotalLaws.RefreshedList | api-rally/app/services/scoring_service.py:259-308 | a refreshed team keeps its visits; with distinct orders each scored checkpoint's points, cut to an integer, stand in the slot that counts the scored ones before it, and the rest is zero |
| TotalLaws.GivingAdds | api-rally/app/services/dynamic_scoring_service.py:60-77 | an award raises its team's points by exactly its own and nobody else's, and the stored total follows |
| TotalLaws.BuyingGives | api-rally/app/services/hint_service.py:208-227 | buying a hint is giving an award of its cost, and a free hint changes nothing |
| TotalLaws.RevokingTakesBack | api-rally/app/services/dynamic_scoring_service.py:79-87 | revoking takes exactly an active award's points from its team, the stored total follows, and revoking again takes nothing more |
| TotalLaws.GivenAndRevoked | api-rally/app/services/dynamic_scoring_service.py:60-87 | giving an award and revoking it leaves every team its points |
| SettledRuns.AmendKeepsSettled | api-rally/app/services/scoring_service.py:396-458 | a penalty or extra shots on one row leave every timed activity settled |
| SettledRuns.StepSettledIff | api-rally/app/services/scoring_service.py:396-725 | one operation on a settled board leaves it settled iff, being a deletion or an edit, it meets its own condition; submissions, penalties, shots and awards always do |
| SettledRuns.RunSettledIff | api-rally/app/services/scoring_service.py:517-725 | no score is stale at any point of a run iff each deletion and each edit of the run meets its condition where it happens |
| SettledRuns.RunKeepsSettled | api-rally/app/services/scoring_service.py:517-725 | in particular over any run that deletes no ranked row and edits timed rows only with their form and their completion kept |
| SettledRuns.DeletionSettlesIff | api-rally/app/services/scoring_service.py:654-672 | a deletion leaves the activity settled iff the remaining rows are worth the same without the removed time |
| StaleScores.RankKeptIff | api-rally/app/models/activities/time_based.py:32-71 | when one time comes or goes a ranking score stays the same iff the team is the fastest, or is the slowest with somebody faster in the smaller field, or first and last are worth the same |
| StaleScores.TimesAround | api-rally/app/services/scoring_service.py:475-497 | the times an activity is ranked on are the ranked times of its completed results, row by row |
| StaleScores.WorthKeptIff | api-rally/app/services/scoring_service.py:127-169 | the same for what a result is worth after its modifiers, those aside of which the modifiers leave nothing on either field |
| StaleScores.DeletionStaleIff | api-rally/app/services/scoring_service.py:654-672 | under the repository's formula a deleted ranked result leaves no stale score iff each remaining one keeps its end of the field so, or its modifiers leave nothing of it |
| StaleScores.NewcomerIff | api-rally/app/services/scoring_service.py:127-169 | a result scored on a field it is not yet part of is worth what it is with itself iff: beside one other at most it is the fastest, or first and last are worth the same; with a time somebody has, it keeps its end; with a new time, the maximum, the minimum or its share between them is nothing; or its modifiers leave nothing |
| StaleScores.TurnStaleIff | api-rally/app/services/scoring_service.py:600-616 | an edit with a form that turns the completion leaves none iff every other ranked result keeps its end of the field so and a joining one is worth without itself what it is with itself |
| StaleScores.BareTurnStaleIff | api-rally/app/services/scoring_service.py:583-616 | the same for an edit without a form, where a joining result must also have stored what it is then worth |
| StaleScores.RunKeepsFiled | api-rally/app/services/scoring_service.py:505-515 | in every run a timed result is ranked on the time its form gives, as these conditions take it to be |
| StaleRuns.StepFreshIff | api-rally/app/services/scoring_service.py:396-725 | under the repository's formula one operation on a settled board leaves no stale score iff, being a deletion or an edit with or without a form, turning the completion or not, it meets the condition above that is for it |
| StaleRuns.RunFreshIff | api-rally/app/services/scoring_service.py:517-725 | and no score is stale at any point of a run iff every operation of it meets its condition where it happens |
| StaleScores.UnfinishingLeavesStaleScore | api-rally/app/services/scoring_service.py:600-616 | unfinishing the winner of a race of two, form included, leaves the other on the loser's score |
| StaleScores.FinishingScoresZero | api-rally/app/services/scoring_service.py:600-616 | finishing a third result between two others, form included, gives it nothing where a rescore gives 75 |
| StaleScores.DeletionLeavesStaleScore | api-rally/app/services/scoring_service.py:654-672 | removing the winner of a race of two leaves the other on the loser's score |
| StaleScores.BareEditLeavesStaleScore | api-rally/app/services/scoring_service.py:600-616 | editing only the penalties of a ranked row leaves its score as it was |
| SettledRuns.FormulaIsLawful | api-rally/app/services/scoring_service.py:127-169 | the repository's formula meets the one hypothesis the service methods make about scoring |
| ScoringService.CheckpointLayout | api-rally/app/services/scoring_service.py:289-308 | the list built from the dict's items in any order is the specified layout |
| ScoringService.Service.CheckpointScoresForTeam | api-rally/app/services/scoring_service.py:200-233 | the accumulation loop gives the summed scores and orders per checkpoint and the raw total of the whole table |
| ScoringService.Service.ActiveAwardPoints | api-rally/app/services/scoring_service.py:235-242 | the sum over the active awards returned in any order is the team's award total |
| ScoringService.Service.UpdateTeamScores | api-rally/app/services/scoring_service.py:259-287 | false and no change for a missing team; otherwise that team, and only it, is recomputed |
| ScoringService.Service.BatchResults | api-rally/app/services/scoring_service.py:320-351 | one pass over the rows of many teams gives each team the bucket it has alone |
| ScoringService.Service.UpdateAllTeamScores | api-rally/app/services/scoring_service.py:310-370 | the batch leaves the tables as updating the listed teams one after the other does |
| ScoringService.OneByOneIsAll | api-rally/app/services/scoring_service.py:310-370 | updating teams one after the other, in any order and with repeats, is recomputing the set of them |
| ScoringService.Service.RecalculateAll | api-rally/app/services/scoring_service.py:674-725 | the rescore loop over rows in any order, selected on the stored flags, is the specified rescore; its commit stores the pending flags and exactly the rescored teams are refreshed |
| ScoringService.Service.RecalculateResultScore | api-rally/app/services/scoring_service.py:475-497 | the one row gets its score on the completed times, its own included; no other row changes |
| ScoringService.Service.CreateResult | api-rally/app/services/scoring_service.py:517-581 | refused exactly for a missing activity, a bad form, a missing team or a second result; otherwise the tables take the submission step |
| ScoringService.Service.UpdateResult | api-rally/app/services/scoring_service.py:583-631 | fields set, row and activity scored on the stored flags, flag stored by the commit, teams refreshed: the tables take the edit step of the stored row |
| ScoringService.Service.RemoveResult | api-rally/app/services/scoring_service.py:654-672 | the row goes and its owner is refreshed; nobody is ranked again |
| ScoringService.Service.ApplyPenalty | api-rally/app/services/scoring_service.py:435-458 | false without a result; otherwise the penalty is added to its kind, the row rescored and its team refreshed |
| ScoringService.Service.ApplyExtraShots | api-rally/app/services/scoring_service.py:396-433 | false for a missing team, too many shots or no result; otherwise the row is rescored and its team refreshed |
| ScoringService.Service.CreateAward | api-rally/app/services/dynamic_scoring_service.py:60-77 | an active award is added and the team recomputed |
| ScoringService.Service.DeleteAward | api-rally/app/services/dynamic_scoring_service.py:79-87 | the award is deactivated, not removed, and its team recomputed |
| Ranking.GlobalRanking | api-rally/app/services/scoring_service.py:779-810 | each team is ranked once, best first, with one plus the number of strictly greater totals |
| Ranking.RankCounts | api-rally/app/services/scoring_service.py:801-808 | a rank is one plus the number of entries with a strictly greater total |
| Ranking.StandingAdds | api-rally/app/services/scoring_service.py:779-800 | a team stands on the sum of the scores of its completed results, at a checkpoint or not |
| Ranking.RankMeaning | api-rally/app/services/scoring_service.py:801-808 | equal totals share a rank and a greater total has a strictly smaller one, both ways |
| Ranking.StableSort | api-rally/app/services/team_service.py:124-136 | the sort by total and name keeps teams with equal keys in the order of their ids |
| Ranking.PlacesCompare | api-rally/app/services/team_service.py:136-139 | of two teams the one with the greater total, then the earlier name, then the smaller id is placed first, and no two share a place |
| Ranking.PlacedFirst | api-rally/app/services/team_service.py:136-139 | placed first is who has the greater total, then the name that comes first character by character, then the smaller id |
| Ranking.PlacesAreBijective | api-rally/app/services/team_service.py:138-139 | classifications are exactly 1..n, each taken by one team |
| Ranking.HigherTotalPlacedBetter | api-rally/app/services/team_service.py:136-139 | a strictly higher total has a strictly smaller classification |
| Ranking.OnlyNamesAndTotals | api-rally/app/services/team_service.py:136 | with unique names the place depends only on the names and totals of the field, not on ids |
| Ranking.Classifier.UpdateClassification | api-rally/app/services/team_service.py:124-144 | every team of the current event or of none is recomputed, then placed one behind the number of such teams ahead of it; any other keeps its total and place |
| Ranking.Classifier.AddCheckpoint | api-rally/app/services/team_service.py:181-215 | a visit the window and the route admit is recorded, whatever the team's event, the tables take the check-in step and the current event's teams are rightly placed; a refused one changes nothing |
| HintRequests.RunsKeepInv | api-rally/app/services/hint_service.py:142-194 | every interleaving of requests that read the switch, the ladder and the price one after the other, of crashes and of changes of price and switch keeps the ledger's invariant |
| HintRequests.BilledOnceInOrder | api-rally/app/services/hint_service.py:59-227 | no hint is sold twice to a team, its hints at a post are the first of the ladder in order, and what it was charged equals the frozen costs on record |
| HintPrices.CostsWereSet | api-rally/app/services/hint_service.py:142-194 | over every run each cost on record, and each one a buyer is told, is a price that was set between that request's beginning and its commit, with the mechanic on at some moment of that time |
| HintPrices.FixedPrice | api-rally/app/services/hint_service.py:157-180 | in a run without a change of price every cost is the price at its start |
| HintPrices.NothingSoldOff | api-rally/app/services/hint_service.py:142-146 | while the mechanic stays off nothing is sold |
| HintRequests.LoserOwnsTheHint | api-rally/app/services/hint_service.py:172-207 | the loser of a race writes and pays nothing, names a hint the team did buy at this post, and is told the number of hints it does not own, fewer than there were when it chose |
| HintRequests.GrantedIsOnRecord | api-rally/app/services/hint_service.py:163-194 | over every run a buyer is told a hint that is on record for its team and post, at the cost on record |
| HintLedger.HeldIsNext | api-rally/app/services/hint_service.py:156-180 | a request that holds an uncommitted reveal holds the very next hint of the ladder, however stale its read was |
| HintRequests.RemainingIsExact | api-rally/app/services/hint_service.py:188-194 | the number of hints left that a buyer is told is exact when its purchase commits |
| HintReadings.ListingMeaning | api-rally/app/services/hint_service.py:112-140 | the listing of a post shows each bought hint once and these are the first of the ladder, stays readable with the mechanic off, and the number left is what could still be bought |
| HintReadings.ListedInOrderIff | api-rally/app/services/hint_service.py:48-57 | it shows them in ladder order iff their requests began in the order they bought |
| HintRequests.SomeoneMoves | api-rally/app/services/hint_service.py:172-187 | waiting for another request's key never closes a circle |
| HintRequests.StepsRunOut | api-rally/app/services/hint_service.py:142-194 | every step of a request lowers a measure, so requests end |
| HintTotals.HintsAreInTotals | api-rally/app/services/hint_service.py:180-227 | after any interleaving, entering the recorded purchases on a right scoreboard leaves every total right, with the awards in a team's total grown by exactly what the ledger charged it |
| HintReadings.NewestLastIff | api-rally/app/services/hint_service.py:59-81 | the summary lists a team's purchases in the order they were made iff their requests began in that order |
| HintReadings.OneByOneIsNewestLast | api-rally/app/services/hint_service.py:59-140 | in every run in which no request of the team begins while another of its requests is under way, the summary is newest last and every listing follows the ladder |
| HintReadings.NewestLastFails | api-rally/app/services/hint_service.py:59-81 | a run of two overlapping requests after which the summary and the listing both show the second hint first |
| Numerals.ParsePrinted | api-rally/app/services/checkin_token.py:57-76 | int() reads back every printed integer, and no printed integer contains a dot |
| Numerals.DecimalText | api-rally/app/services/checkin_token.py:57 | an integer is printed digit by digit from the front, behind a sign if it is negative |
| Numerals.KnownIntegers | api-rally/app/services/checkin_token.py:75-76 | int() takes white space around, a sign, leading zeros and single underscores between digits, and refuses other text |
| Base64.DecodeEncode | api-rally/app/services/checkin_token.py:58-73 | the lenient decoder gives back all bytes encoded with base64url (section 5 of RFC 4648) |
| Base64.PaddingRestored | api-rally/app/services/checkin_token.py:58-72 | stripping the padding and adding (-len) mod 4 signs restores the encoding (section 3.2 of RFC 4648), and a payload has no dot |
| Base64.KnownEncodings | api-rally/app/services/checkin_token.py:58 | vectors of section 10 of RFC 4648, and one that tells the URL-safe alphabet |
| Base64.KnownDecodings | api-rally/app/services/checkin_token.py:73 | the decoder reads both alphabets, passes over other characters, and refuses a quad left open |
| CheckinToken.RoundTrip | api-rally/app/services/checkin_token.py:53-92 | for all ids, times, nonces and clocks: the claims come back from 5 seconds before issue to the end of the lifetime, each other moment is rejected with its own error, and a nonce with a dot makes the token malformed |
| CheckinToken.Verdict | api-rally/app/services/checkin_token.py:66-92 | a token of an unreadable text is malformed; otherwise a wrong signature, a time more than 5 seconds ahead and an age over the lifetime are refused in this order, each with its own error, and else the claims are returned |
| CheckinToken.NoDotIsMalformed | api-rally/app/services/checkin_token.py:70-81 | a token without a dot is malformed |
| CheckinToken.MessagesDiffer | api-rally/app/services/checkin_token.py:57 | the signed text determines its claims |
| CheckinToken.AcceptedIsSigned | api-rally/app/services/checkin_token.py:62-92 | whatever is accepted ends in the signature of the very text its claims were read from, inside its window |
| Redaction.ComputeCheckpointProgress | api-rally/app/services/team_service.py:217-274 | the loop with its early exits finds the last post of the done prefix and the current order |
| Redaction.TeamListsEqualIff | api-rally/app/services/checkpoint_service.py:85-299 | two routes of the same structure give a team the same list iff every listed pair agrees on what was reached, on the clues of current posts and on the search circle |
| RouteLists.WholeRouteListed | api-rally/app/services/checkpoint_service.py:237-266 | in complete mode, and in free order without stages, a team is listed every post in route order |
| RouteLists.ListWithoutStages | api-rally/app/services/checkpoint_service.py:207-274 | on a route 1..n a team through with its first k posts is listed exactly the first min(k + 1, n) in focused order, else all; those before the current one and those it found on arrival whole, the current one with its riddle, the others without answer |
| RouteLists.ListOnStages | api-rally/app/services/checkpoint_service.py:252-299 | on stages it is listed exactly, in route order, the posts it is done with and the staged posts that pass the gate, in complete mode all: done and found ones whole, open ones with their riddles, the others without answer |
| RouteLists.PublicList | api-rally/app/services/checkpoint_service.py:301-321 | the public gets nothing with the map off, else the first post in focused mode or all, whole or without answer, riddle and circle |
| Redaction.NothingElseLeaks | api-rally/app/services/checkpoint_service.py:85-299 | without a search circle, agreeing on reached posts and on clues of current ones is enough for identical lists |
| Redaction.OneRiddle | api-rally/app/services/checkpoint_service.py:131-141 | without stages at most one redacted entry carries a clue, and it is the current post |
| Redaction.CompletedRevealedIff | api-rally/app/services/checkpoint_service.py:119-130 | a done post is passed through iff it is not the last of the route or the team arrived there |
| Redaction.PublicListsEqual | api-rally/app/services/checkpoint_service.py:301-321 | two routes of the same structure look the same to the public |
| RowLocks.RunKeeps | api-rally/app/crud/crud_team.py:106-118 | no row is ever locked twice, and whoever locks upwards keeps doing so |
| RowLocks.NeverStuck | api-rally/app/crud/crud_versus.py:32-41 | with any number of check-ins, reclassifications, pairings and updates of a team that no other of the current event comes before under way, while one is unfinished some step is enabled |
| RowLocks.CanFinish | api-rally/app/services/team_service.py:192-213 | every such run can be carried on until all transactions have finished |
| RowLocks.RunIsBounded | api-rally/app/services/team_service.py:192-213 | no run is longer than the work it starts with |
| RowLocks.UpdateTeamClimbsIff | api-rally/app/crud/crud_team.py:188-219 | updating a team locks upwards iff no team of the current event has a smaller id |
| RowLocks.LocksRow | api-rally/app/crud/crud_team.py:81-118 | unless refused at once a transaction locks its own existing teams and, if it is not a pairing, the teams of the current event, and no other row |
| Standoffs.StandoffWithAll | api-rally/app/crud/crud_team.py:188-219 | on every table, among any other transactions, the update of a team of the current event that is not its first and a check-in, a reclassification or the update of another team reach a state in which everybody unfinished waits |
| Standoffs.StandoffFromBelow | api-rally/app/crud/crud_versus.py:32-41 | so do an update and pairings that lead from a row of the current event up to its team |
| Deadlocks.NoneIsFree | api-rally/app/services/team_service.py:124-144 | without such an update somebody can move at every point of every interleaving |
| Standoffs.DeadlockFreeIff | api-rally/app/crud/crud_team.py:188-219 | any transactions on any table are free of deadlock iff none of them updates a team that comes behind another of the current event and is wanted by one that locks them all, or that pairings reach from below |
| Standoffs.DeadlockFreeInOneEvent | api-rally/app/crud/crud_team.py:188-219 | with all teams in the current event: iff no two of them are the update of a team that is not the first and a check-in, a reclassification, the update of another team or a pairing of that team with a smaller one |
| EventRaces.RacersAgree | api-rally/app/crud/crud_activity.py:244-291 | from an empty table or a single event: no second event is inserted, no call fails, and every call returns that one event, which is current |
| EventRaces.CurrentIsLeftAlone | api-rally/app/crud/crud_activity.py:251-253 | with a current event on the table nothing is written and every call returns a current event |
| EventRaces.ReturnedAreCurrent | api-rally/app/crud/crud_activity.py:244-291 | from any table, over every run, each call that returns names a current event; stored events change in nothing but the flag, which is never cleared, and only the default is added |
| EventRaces.TwoCurrents | api-rally/app/crud/crud_activity.py:255-262 | with several events and none current, two racers can leave two current ones |
| EventRaces.SingleCurrentIff | api-rally/app/crud/crud_activity.py:244-291 | two or more racing calls keep at most one current event iff there is at most one event or one is already current |
| EventRaces.SomeoneMoves | api-rally/app/crud/crud_activity.py:264-291 | a call that waits on the slug waits for one that can commit |
| SettingsRaces.CallersConverge | api-rally/app/crud/crud_rally_settings.py:23-143 | with no legacy row, or calls of at most one event without a row, every interleaving gives each call the one row of its event and none fails, adoption and crashes included |
| SettingsRaces.RowsStay | api-rally/app/crud/crud_rally_settings.py:42-143 | while one event lacks its row at most one row is added, for that event, and no row changes the event it had |
| SettingsRaces.LegacyRowTaken | api-rally/app/crud/crud_rally_settings.py:42-63 | on any table with a legacy row, two calls of different events without a row can leave the first on a row of the second |
| SettingsRaces.OwnRowIff | api-rally/app/crud/crud_rally_settings.py:42-143 | every interleaving leaves each call on a row of its own event iff there is no legacy row or no two calls of different events both lack a row |
| RallyEvents.RallyEvents.UniqueSlug | api-rally/app/crud/crud_activity.py:196-203 | the search ends, with the first of base, base-2, base-3, ... that is not taken |
| RallyEvents.RallyEvents.DemoteAll | api-rally/app/crud/crud_activity.py:293-299 | every flag is cleared and nothing else changes |
| RallyEvents.RallyEvents.Create | api-rally/app/crud/crud_activity.py:205-233 | one event is added under a free slug, demoting the others if it is current; at most one stays current |
| RallyEvents.RallyEvents.EnsureCurrent | api-rally/app/crud/crud_activity.py:244-291 | a current event is returned untouched; else one stored event is flagged; else a default is inserted |
| RallyEvents.RallyEvents.SetCurrent | api-rally/app/crud/crud_activity.py:301-311 | the event becomes the only current one, or nothing changes if it does not exist |
| RallyEvents.RallyEvents.Update | api-rally/app/crud/crud_activity.py:320-334 | refused, with nothing changed, iff the slug asked for is another event's or a null is sent for a name, type or flag; otherwise each field sent is stored, a null slug clashing with nothing, and the others are demoted when a non-current event is promoted; at most one stays current |
| RallyEvents.UpdateStores | api-rally/app/crud/crud_activity.py:320-334 | an update stores each field that is sent, clears what is sent as null, keeps the rest, and of the other events changes nothing but the flag, and that only when it promotes |
| RallyEvents.FlagsOnly | api-rally/app/crud/crud_activity.py:293-311 | demoting and promoting touch nothing but flags; after promoting an event it alone is current |
| RallyEvents.CurrentLostIff | api-rally/app/crud/crud_activity.py:320-334 | an update leaves no current event iff it unflags the one that was |
| RallyEvents.RemovalLosesCurrentIff | api-rally/app/crud/crud_activity.py:336-343 | a removal leaves no current event iff it removes the one that was |
| RoundRobin.GenerateSchedule | api-rally/app/utils/round_robin.py:18-43 | the nested loops build the specified schedule, empty when either list is |
| RoundRobin.ScheduleAt | api-rally/app/utils/round_robin.py:18-43 | there are as many rounds as the longer list has entries, and in round r the team at p is at checkpoint (p + r) mod K |
| RoundRobin.OncePerRound | api-rally/app/utils/round_robin.py:36-41 | each team appears in each round exactly once |
| RoundRobin.BalancedLoad | api-rally/app/utils/round_robin.py:38-40 | a round sends N / K teams, rounded down or up, to every checkpoint, and at most one when there are no more teams than checkpoints |
| RoundRobin.EveryPairMeets | api-rally/app/utils/round_robin.py:24-27 | each team meets each checkpoint R / K times, rounded down or up, and at least once |
| RoundRobin.ExactlyOnceIff | api-rally/app/utils/round_robin.py:3-10 | every pair meets exactly once iff there are no more teams than checkpoints |
| Versus.VersusTable.CreateVersusPair | api-rally/app/crud/crud_versus.py:17-60 | the checks in their order decide the error; otherwise both rows, and no others, get the first team's id as group |
| Versus.PairingOutcome | api-rally/app/crud/crud_versus.py:17-60 | it succeeds iff the mode is on and both are different, existing, unpaired teams; otherwise the first failed check names the error |
| Versus.PairingStores | api-rally/app/crud/crud_versus.py:50-60 | on success both rows get the first team's id as group and no other row changes; on an error none does |
| Versus.RunKeepsGroups | api-rally/app/crud/crud_versus.py:17-60 | after any requests from no pairs, every group has two members, one of them named by the group id |
| Versus.OpponentInvolution | api-rally/app/crud/crud_versus.py:62-73 | the opponent of a paired team is another team of its group whose opponent it is; unpaired teams have none; it never finds more than one |
| Versus.OpponentsCounted | api-rally/app/crud/crud_versus.py:62-73 | one other team of the group is the opponent, and more than one is an error |
| Versus.BuildPairList | api-rally/app/services/versus_service.py:12-23 | the pairs listed are exactly the groups of two, each once, whatever order the dict has |
| Versus.PairListComplete | api-rally/app/services/versus_service.py:12-23 | the list names every paired team exactly once and no other team |
| Versus.TeamOpponentMap | api-rally/app/services/event_results_query.py:23-40 | each listed team gets the name of the other member of its group of two, or the empty string |
| Versus.NamesAgree | api-rally/app/services/event_results_query.py:23-40 | those names are the names of the teams get_opponent finds |
| LegTime.FasterIsNoWorse | api-rally/app/services/leg_time_service.py:11-30 | a faster leg is never worth less |
| LegTime.LegWorth | api-rally/app/services/leg_time_service.py:11-30 | a leg from the team's latest other arrival is worth the minutes saved on the target at the rate, cut to the cap either way; nothing while off, unpriced or without time passed |
| LegTime.FirstLegIsFree | api-rally/app/services/checkpoint_arrival_service.py:151-163 | a first arrival ends no leg and is worth nothing |
| LegTime.ArrivalStored | api-rally/app/services/checkpoint_arrival_service.py:98-188 | a new arrival is added to the record with its leg's points as one award if there are any, and a known one changes nothing |
| LegTime.ArrivalTable.InsertArrival | api-rally/app/services/checkpoint_arrival_service.py:98-132 | a row is added iff the pair is not on record, and no other row changes |
| LegTime.ArrivalTable.RecordArrival | api-rally/app/services/checkpoint_arrival_service.py:190-259 | a scan names the first check that refuses it and changes nothing; admitted, a new arrival is recorded and its leg from the team's latest other arrival awarded, and a repeat changes nothing |
| LegTime.RescanAwardsNothing | api-rally/app/services/checkpoint_arrival_service.py:107-116 | scanning a post again at any time changes neither arrivals nor awards |
| LegTime.LegTimesAreBounded | api-rally/app/services/checkpoint_arrival_service.py:134-188 | over any run a team's leg points are at most (arrivals - 1) times the cap in magnitude, and none without a cap or an arrival |
| LegTime.LegTimesTelescope | api-rally/app/services/checkpoint_arrival_service.py:134-188 | with no leg capped, whatever order the times come in, the total is (counted legs * target - elapsed) * rate |
| LegTime.InOrderTelescope | api-rally/app/services/checkpoint_arrival_service.py:134-188 | with increasing times and no leg capped the total is ((arrivals - 1) * target - (latest - earliest)) * rate |

## Left out

- Rounding of floats: scores are exact numbers, so the order in which floats are added is not captured.
- Deferred recompute: with the scoring worker on, penalties and extra shots refresh no total; only the inline mode is modelled.
- create_team_vs_result: its two results enter as submissions of their own; the single commit of the pair is not modelled.
- Switching the current event: which teams belong to it stays fixed over a run of the scoreboard and of row-locking transactions.
- Concurrent recomputes: two requests that recompute the same team at once are not interleaved; the scoreboard is modelled call by call.
- Settings row: the rescore takes it to exist; creating it in the middle of one would flush a pending flag early.
- Start times: two transactions of a team are taken to begin at different instants, so the id never decides a listing.
- Per-activity ranking: `_get_activity_ranking` repeats the rank loop of the global one with unscored rows last.
- get_all_versus_pairs: it fills the same groups as `build_pair_list` and projects them to ids.
- Numerals.ParseInt: digits and white space outside ASCII, and Python's limit on the number of digits, are not modelled; minted tokens have neither.
- CheckinToken.AcceptedIsSigned: says nothing about how hard a signature is to guess; the hash is any function with hexadecimal values.
- Redaction of media and of the single next post: `team_can_view_media` and `next_checkpoint_for_team` are not modelled.
- Redaction.Redact: the centre of a search circle is a parameter, because its trigonometry is floating point.
- SettingsBootstrap.Apply: the defaults of a new row, the normalisation of home fields and the copying of event times are left out; only rows and the events they belong to are kept.
- RowLocks.Script: locks taken by plain updates outside the four transactions are not modelled.
- HintLedger.Enabled: the check that the post is the team's current one is folded into refusals, which may come at any time.
- Opening hours: the two bounds enter the check-in decision; the texts of refusals do not.
- HTTP routes, roles, notifications, storage, exports, migrations and the web client: no rule of the kinds above.
