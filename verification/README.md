# A verified model of NexusBench

NexusBench benchmarks trading engines submitted by contest teams: a fleet of bots sends orders to each
engine, a golden order book computes what the engine should have answered, a worker chains three
volatility profiles per submission, and a leaderboard ranks the scores. This project models the parts of
it that carry state or arithmetic and proves what they promise. `dafny verify dfyconfig.toml` checks all
of it.

## Structure

- `Sorting`, `Orders`: stable sorting by a `less` function, and the order and fill types.
- `PriceTimeBook`: price-time priority as such. Two queues always kept in priority order, no arrival
  numbers, no index, no sorting. The theory of one sweep of a queue: closed form, additivity, fairness,
  optimality.
- `GoldenEngine`, `EngineRefinesBook`, `EngineRuns`, `Cancels`, `Withdrawals`, `Ledger`: the golden book's state as
  values, with lazily sorted slices, an id index and an arrival counter; its refinement to the price-time
  book; whole runs; exactly when cancelling works; orders withdrawn whole; the units ledger.
- `GoldenOrderbook`: the same as a class over shared entry objects consumed in place, every method proved
  against the value machine.
- `Checker`, `Generator`: scoring fills by id, and the bots' order generators, which supply the fresh ids
  that the book needs.
- `ProfileChain`, `Outcomes`, `CrashFreeChain`, `Worker`, `Scoring`: the low, medium, high protocol as a
  state machine in which every store or queue write is one step and a crash may fall between any two; what
  holds under all crashes; what holds without them; what the source promises of one job, said without the
  steps; the worker as a class whose undisturbed processing keeps that promise and is a run of the machine;
  the score formulas.
- `Redelivery`, `Progress`, `RedeliveryRuns`, `ShownScores`: what a crash can cost. Which jobs execute a
  profile a second time, exactly which moves of a run leave a submission behind for good, when the scores
  shown and the scores counted part; each with a run from the initial world.
- `Ingests`: exactly when a team has one submission in progress per contest, ingests running side by side.
- `WebSocketFrames`, `WebSocketTransport`: the hand-written frame codec of RFC 6455 (sections 5.2, 5.3,
  5.5.2 and 5.5.3) and the transport that reads, writes and answers pings.
- `Stats`, `LatencyWindows`, `MetricsConsumer`, `Leaderboard`: fast aggregation against plain
  specifications.

## Where the code and its documentation differ

The model follows the code.

- A limit order that comes to rest under an id still resting makes the index and the slices disagree. In the
  state it leaves, cancels do not work: the first cancel of the id is accepted, an order still rests under
  it, and the next cancel of the id is rejected (`Cancels.ClashLosesCancel`). Later trades may remove all
  entries of the id and with them the disagreement (`Cancels.TradesMendClash`). Cancels work in every state
  of a run if and only if this never happens on it (`Cancels.CancelsWorkIffNoReuse`); it does not happen
  with fresh limit ids (`Cancels.FreshIsClashFree`), so cancels work throughout every fleet run
  (`Generator.FleetCancelsWork`).
- The checker calls a score of 1.0 "all correct". A contestant reaches it if and only if it answers exactly
  the golden ids, each once, and each as the first golden fill of that id says (`Checker.PerfectScore`). A
  cancel is answered under the id of the order it cancels, so an engine that answers both stays below 1.0
  however correct it is (`Checker.CancelCostsPerfectScore`); if the call of the cancel fails, 1.0 is within
  reach again (`Checker.FailedCancelKeepsPerfectScore`).
- A late event of a bucket already closed is dropped from its row without notice
  (`LatencyWindows.LateSampleIsLost`); `LatencyWindows.StreamingIsBatch` gives the exact condition under
  which streaming and batch aggregation agree.
- The frame reader ignores the final bit, the reserved bits and the shortest-length rule that RFC 6455
  section 5.2 puts on senders (`WebSocketFrames.AcceptedIsProduced`).
- The final score takes the first result recorded for a profile, the leaderboard shows the last one. The
  two agree if and only if those results carry the same score (`ShownScores.ShownIffScored`), so always
  without crashes (`ShownScores.CrashFreeShowsScored`); after one crash they can differ
  (`ShownScores.RedeliveryShowsAnother`).
- The queue delivers at least once, and the guard does not make execution at most once. A job picked up
  repeats a recorded profile if and only if its submission is running and has a result for that profile
  (`Redelivery.RepeatsIff`). One crash at the low job's commit leads to a submission with two low and two
  medium results (`RedeliveryRuns.ProfilesRepeat`): the repeated low job enqueues a second medium job, which
  no crash ever touches. The results about exactly three profiles are therefore stated for runs without
  crashes.
- Nor is there progress without conditions. Two things lose a submission for good, and nothing else does
  (`Progress.TerminalUnlessLost`, on every run): a worker that crashes on it while it is deploying or
  benchmarking, because the redelivered job is passed over and committed; and a control plane that dies
  between saving it (`internal/submission/service.go:204`) and enqueueing its first job (line 226), because
  no job of it is ever created (`Progress.DyingIngestOrphans`). Every other submission past its ingest is
  terminal once the queues are drained, whatever crashes elsewhere. A lost submission keeps its status and
  its team never gets past the guard of the contest again (`Progress.LostForever`).
  `RedeliveryRuns.SubmissionIsLost` and `SubmissionIsOrphaned` are runs of the two kinds.
- "One submission in progress per team and contest" needs the guard's answer to hold until the save, which
  is a second step without a lock. The promise is kept on a run if and only if every request is saved while
  its guard still holds (`Ingests.OneActiveIffNoneOvertaken`); mutual exclusion of a team's ingests would be
  enough (`Ingests.ExclusiveIngestsKeepOneActive`). Two ingests that both pass the guard before either saves
  break it (`Ingests.IngestsRace`).

## Model

| member | source | states |
|---|---|---|
| GoldenOrderbook.GoldenOrderbook.Apply | internal/correctness/orderbook.go:116-131 | the object's new state and its answer, or error, are those of the value machine, for every order; no entry stands twice, and every id in the index leads to an entry of that id standing in the slice of its side |
| GoldenOrderbook.GoldenOrderbook.IndexIsExact | internal/correctness/orderbook.go:187-203 | while no id is reused, the index holds exactly the resting ids, and every resting entry is the very object its id leads to |
| GoldenOrderbook.GoldenOrderbook.ApplyLimit | internal/correctness/orderbook.go:136-211 | a limit order matches, rests and reports as the value machine does; rejections leave the book alone |
| GoldenOrderbook.GoldenOrderbook.ApplyMarket | internal/correctness/orderbook.go:215-262 | a market order matches and reports as the value machine does |
| GoldenOrderbook.GoldenOrderbook.ApplyCancel | internal/correctness/orderbook.go:266-281 | a cancel removes the entry from the side the index names, or is rejected |
| GoldenOrderbook.GoldenOrderbook.MatchSellsUpTo | internal/correctness/orderbook.go:151-166 | the in-place loop leaves exactly the swept side, index and totals of the abstract sweep |
| GoldenOrderbook.GoldenOrderbook.MatchBuysDownTo | internal/correctness/orderbook.go:169-184 | the same on the bid side |
| GoldenOrderbook.GoldenOrderbook.MatchAnySells | internal/correctness/orderbook.go:226-238 | the unbounded loop of a market buy leaves what an unbounded sweep leaves |
| GoldenOrderbook.GoldenOrderbook.MatchAnyBuys | internal/correctness/orderbook.go:240-252 | the same for a market sell |
| GoldenOrderbook.GoldenOrderbook.SortBuys | internal/correctness/orderbook.go:284-291 | the bid slice shows its old entries sorted by price, then arrival |
| GoldenOrderbook.GoldenOrderbook.SortSells | internal/correctness/orderbook.go:294-301 | the ask slice shows its old entries sorted by price, then arrival |
| GoldenOrderbook.RemoveById | internal/correctness/orderbook.go:303-310 | exactly the first entry with the id is cut out |
| GoldenOrderbook.DrainIsSweep | internal/correctness/orderbook.go:152-166 | taking the best entry again and again is one sweep of the sorted side, and the ids dropped are those of the emptied entries |
| GoldenEngine.StepKeepsSound | internal/correctness/orderbook.go:136-281 | after every order, reused ids included, the best bid is strictly below the best ask and 0 < remaining ≤ quantity |
| GoldenEngine.ReplayKeepsSound | internal/correctness/orderbook.go:116-281 | the same after every sequence of orders |
| EngineRefinesBook.StepRefines | internal/correctness/orderbook.go:116-281 | one order on the lazily sorted slices is one order on the price-time book: same answer, corresponding state; only cancels need an exact index |
| EngineRefinesBook.StepIndexed | internal/correctness/orderbook.go:187-203 | the ids and sides in the index stay exactly those resting if and only if the order does not come to rest under an id that still rests |
| EngineRefinesBook.SortRemoved | internal/correctness/orderbook.go:266-310 | removing by id and sorting later is sorting first and removing then |
| EngineRuns.ReplayRefines | internal/correctness/orderbook.go:116-310 | with fresh limit ids every sequence of orders is answered as by the price-time book, and the index stays exact |
| EngineRuns.GoldenFillsArePriceTime | internal/correctness/orderbook.go:107-131 | from an empty book the golden fills are those of price-time priority |
| EngineRuns.CancelAcceptedIffResting | internal/correctness/orderbook.go:264-281 | with an exact index a cancel is accepted exactly when its order still rests, and nothing rests under the id afterwards |
| EngineRuns.ReusedIdLosesCancel | internal/correctness/orderbook.go:187-203 | two limits and one cancel under one id: an order still rests and its cancel is rejected |
| Cancels.ClashLosesCancel | internal/correctness/orderbook.go:264-281 | in any state, after an order rests under an id still resting, the first cancel of the id is accepted, an order still rests under it, and the next cancel is rejected |
| Cancels.CancelsWorkIffNoClash | internal/correctness/orderbook.go:187-203 | from an exact index, every cancel after an order is answered by whether its order rests, and leaves nothing under the id, if and only if the order does not rest under an id still resting |
| Cancels.RunCancelsWork | internal/correctness/orderbook.go:116-281 | the same for every state along a run from an exact index |
| Cancels.CancelsWorkIffNoReuse | internal/correctness/orderbook.go:116-281 | the same for every run from the empty book |
| Cancels.TradesMendClash | internal/correctness/orderbook.go:187-262 | two limits under one id and a market order that takes both: cancels fail in between and work again afterwards |
| Cancels.FreshIsClashFree | internal/correctness/orderbook.go:187-203 | from an exact index, no order of a run with fresh limit ids comes to rest under an id still resting |
| Withdrawals.WithdrawnLeavesNoTrace | internal/correctness/orderbook.go:136-281 | a limit that still rests whole when its cancel comes executed nothing and is cancelled, and on every run with fresh ids all other orders, before, between and after the two, are answered as on the run without them |
| Withdrawals.RunAlike | internal/correctness/orderbook.go:116-281 | on any run at whose end a resting order is whole, every answer is that of the same run without it, and the books differ by its quote alone |
| Withdrawals.PlacedAndCancelled | internal/correctness/orderbook.go:187-203 | on the price-time book placing a limit that executes nothing and cancelling it restores the book exactly |
| EngineRuns.LimitClosedForm | internal/correctness/orderbook.go:136-211 | a limit executes min(quantity, units opposing within its price), at a price never worse than its own, and the rest rests last |
| EngineRuns.MarketClosedForm | internal/correctness/orderbook.go:213-262 | a market order executes min(quantity, units opposing) and is accepted exactly when that is positive |
| EngineRuns.ReportExplained | internal/correctness/orderbook.go:136-262 | the reported price is that of the last entry in priority order that lost units; entries at better prices are emptied, those at worse ones untouched |
| EngineRuns.AcceptedIff | internal/correctness/orderbook.go:116-281 | exactly which orders are errors and which are accepted; all others report zeros and leave the book as it was |
| EngineRuns.MatchingIsFair | internal/correctness/orderbook.go:149-185 | if an entry lost units, every entry ahead of it by (price, arrival) is gone |
| PriceTimeBook.SweepExecutes | internal/correctness/orderbook.go:152-166 | a sweep executes the lesser of what is wanted and what is available within the bound |
| PriceTimeBook.SweepsAddUp | internal/correctness/orderbook.go:152-166 | sweeping a units and then b is sweeping a+b: units, book left and last price |
| PriceTimeBook.SweepPrice | internal/correctness/orderbook.go:152-166 | the reported price is that of the last entry touched, within the bound, and separates emptied from untouched entries |
| PriceTimeBook.SweepIsFair | internal/correctness/orderbook.go:152-166 | an entry loses units only if all entries ahead of it in the queue are emptied |
| PriceTimeBook.SweepIsOptimal | internal/correctness/orderbook.go:149-185 | no other way of taking as many units from the queue has a better total price for the taker |
| PriceTimeBook.SweepIsMaximal | internal/correctness/orderbook.go:149-185 | no choice within bound and quantity executes more units |
| PriceTimeBook.SweepExhausts | internal/correctness/orderbook.go:152-156 | if a taker still wants more, all that is left is beyond its price |
| PriceTimeBook.MarketIsUnboundedLimit | internal/correctness/orderbook.go:225-253 | a market order sweeps as a limit order whose price nothing exceeds |
| Ledger.StepBalances | internal/correctness/orderbook.go:136-281 | per order id and per order processed: units placed = executed as taker + executed as maker + withdrawn + change at rest |
| Ledger.FlowByKind | internal/correctness/orderbook.go:136-281 | only limits of a side place and take on it, only orders of the other side make its entries lose units, only cancels withdraw |
| Ledger.RunBalances | internal/correctness/orderbook.go:136-281 | the same summed over whole runs |
| Ledger.OrderLedger | internal/correctness/orderbook.go:136-281 | on every run from the empty book, reused ids included, what the limits of an id issued is what they executed as takers and as makers, plus what cancels withdrew, plus what rests |
| Ledger.LimitLedger | internal/correctness/orderbook.go:136-281 | with fresh ids an accepted limit's quantity is the executed quantity its own fill reports, plus what others executed against it, plus what a cancel withdrew, plus what of it rests |
| Ledger.BoughtIsSold | internal/correctness/orderbook.go:136-262 | units bought equal units sold over every run |
| Checker.Check | internal/correctness/checker.go:59-113 | correct are the ids whose first contestant fill is the first golden one, field by field; the total is the contestant's fills and the distinct golden ids never answered; the score is correct over total |
| Checker.MatchFills | internal/correctness/checker.go:78-92 | the loop counts as correct exactly the ids whose first contestant fill is the first golden one, and every other fill as incorrect |
| Checker.CountUnmatched | internal/correctness/checker.go:94-99 | the map loop counts exactly the golden ids never matched |
| Checker.IndexFirst | internal/correctness/checker.go:65-71 | the lookup maps every golden id to its first fill |
| Checker.FirstIsFirst | internal/correctness/checker.go:65-71 | the fill looked up for an id is the one no earlier fill of that id precedes |
| Checker.OrderIsIrrelevant | internal/correctness/checker.go:56-58 | with unique ids any permutation of either slice gives the same verdict |
| Checker.PerfectEcho | internal/correctness/checker.go:78-105 | echoing the golden fills gets one correct fill per distinct id, the repeats count as incorrect, and the score is 1 if and only if no id repeats |
| Checker.ScoreIsFraction | internal/correctness/checker.go:101-112 | 0 ≤ correct ≤ total, and the score lies in [0,1] |
| Checker.CheckCorrectness | internal/worker/executor.go:720-765 | orders the golden book refuses are skipped, failed sends are left out of the contestant's fills, and the rest is checked |
| Checker.OneMoreOrder | internal/worker/executor.go:733-757 | what one more order adds: a golden fill unless the book refuses the order, a contestant fill unless the book refuses it or the call failed |
| Checker.PerfectScore | internal/correctness/checker.go:78-105 | for any two lists of fills the score is 1 if and only if the contestant answers exactly the golden ids, each once, and each with the very fill that comes first for the id on the golden side |
| Checker.CancelCostsPerfectScore | internal/worker/executor.go:727-757 | on any run, two answered orders whose fills carry one id, an order and its cancel for instance, keep the score below 1, however correct the fills are |
| Checker.FailedCancelKeepsPerfectScore | internal/worker/executor.go:745-748 | with the cancel's call failed instead, the score can be 1 |
| Generator.RandomGenerator.NextOrder | internal/botfleet/generator.go:140-211 | the order carries the next number and what was drawn; a limit is remembered below a thousand pending, a cancel takes the drawn pending id out, or a synthetic one |
| Generator.NextKeepsDiscipline | internal/botfleet/generator.go:147-153 | pending ids stay distinct, issued by this generator, and at most 1000 |
| Generator.IdsNeverRepeat | internal/botfleet/generator.go:97-98 | no two limit or market orders of a generator share an id |
| Generator.CancelledAtMostOnce | internal/botfleet/generator.go:195-211 | no id is cancelled twice |
| Generator.CancelsNameIssuedOrders | internal/botfleet/generator.go:195-211 | a cancel names a pending id, an earlier limit, or a synthetic id |
| Generator.GeneratorDiscipline | internal/botfleet/generator.go:140-211 | for a new generator and every sequence of random choices: the three promises about ids, and pending ids distinct, issued and at most 1000 at every moment |
| Generator.StreamKeepsDiscipline | internal/botfleet/generator.go:147-153 | the pending ids stay so over any stream, from any disciplined state |
| Generator.OrderIdInjective | internal/botfleet/generator.go:142 | an order id determines its bot id and its number, whatever the bot id contains |
| Generator.IdsLookLike | internal/botfleet/fleet.go:214 | the formats of bot and order ids on examples |
| Generator.BotIdInjective | internal/botfleet/fleet.go:214 | a bot id determines its index, padding included |
| Generator.FleetIdsAreFresh | internal/botfleet/fleet.go:190-226 | the results of a fleet of distinct bots, in any order of finishing, never repeat a limit id |
| Generator.FleetFillsArePriceTime | internal/botfleet/fleet.go:190-226 | hence the golden fills of every fleet run are those of price-time priority |
| Generator.FleetCancelsWork | internal/botfleet/generator.go:140-211 | in every state along a fleet run a cancel is answered by whether its order rests, and leaves nothing under the id |
| ProfileChain.NextKeepsInv | internal/worker/worker.go:194-300 | every move, crash and redelivery keeps the invariant; results only grow and terminal submissions never change |
| ProfileChain.AdvanceEvolves | internal/worker/worker.go:232-300 | one worker step touches only its own submission, extends its results, and leaves a terminal one alone |
| ProfileChain.ReachableStates | internal/worker/executor.go:286-302 | under all crashes: every job in the log has results for all earlier profiles; completed means all three labels and a final score of 20, 35 and 45 times the first low, medium and high score |
| ProfileChain.HistoryIsKept | internal/models/models.go:40-42 | between any two moments of a run results only grow and terminal statuses are never left |
| ProfileChain.RedeliveredJob | internal/worker/worker.go:184-230 | after a crash the guard lets the redelivered job through if and only if its submission is pending or running; otherwise the next step is the commit |
| Redelivery.RepeatsIff | internal/worker/worker.go:202-230 | in every reachable world a job picked up records an already recorded profile again if and only if its submission is running and has a result for that profile |
| Progress.LastJobLosesIff | internal/worker/worker.go:202-300 | a job picked up that is its submission's last, worked off undisturbed, leaves the submission without a job and not terminal if and only if it found it in none of pending, running, completed, failed |
| Redelivery.AbandonedForever | internal/worker/worker.go:221-230 | a submission without any job never changes again, whatever crashes, is redelivered or is submitted |
| Redelivery.AbandonedBlocksTeam | internal/submission/service.go:243-267 | if it is not terminal, its team never gets past the guard of the contest again |
| Progress.StrandedStep | internal/worker/worker.go:221-230 | of all moves exactly a crash of the worker at work on a deploying or benchmarking submission strands it; nothing brings a stranded one back or changes it |
| Progress.OrphanedStep | internal/submission/service.go:204-230 | of all moves exactly the death of its ingest between save and enqueue orphans a submission; nothing brings it back |
| Progress.DyingIngestOrphans | internal/submission/service.go:204-230 | a control plane that dies between save and enqueue leaves the submission pending, without a job |
| Progress.TerminalUnlessLost | internal/worker/worker.go:202-300 | on every run, whatever crashes, dies and is redelivered: a submission no job is left for is terminal if and only if no crash struck it while deploying or benchmarking and its ingest did not die; deploying or benchmarking means the former, pending the latter |
| Progress.DrainedUnderCrashes | internal/worker/worker.go:202-300 | while no ingest dies, a drained queue leaves a submission not terminal exactly if it is deploying or benchmarking, and exactly if a crash struck it then |
| Progress.LostForever | internal/submission/service.go:243-267 | once lost, a submission is not terminal, never changes again, and its team never passes the guard of the contest |
| RedeliveryRuns.ProfilesRepeat | internal/worker/worker.go:282-299 | a run with one crash after which a completed submission has two low and two medium results |
| RedeliveryRuns.SubmissionIsLost | internal/worker/worker.go:221-236 | a run with one crash after which the queues are drained and a submission stays in deploying for good |
| RedeliveryRuns.SubmissionIsOrphaned | internal/submission/service.go:204-230 | a run without any worker crash after which the queues are drained and a submission stays pending for good |
| ShownScores.ShownIffScored | internal/models/models.go:162-169 | the leaderboard's score for a profile is the one the final score counts if and only if the profile's first and last results carry the same score |
| ShownScores.CrashFreeShowsScored | internal/api/router.go:628-637 | without crashes the two agree for every submission and profile |
| ShownScores.RedeliveryShowsAnother | internal/api/router.go:628-637 | a run with one crash after which they differ, for any two scores |
| ProfileChain.IngestKeepsInv | internal/submission/service.go:187-206 | the save of an admitted request keeps the protocol's invariant, whatever happened since its guard |
| Ingests.SaveKeepsOneActive | internal/submission/service.go:176-206 | a save keeps one submission in progress per team and contest if and only if the guard's answer still holds at the moment of the save |
| Ingests.NextKeepsOneActive | internal/submission/service.go:176-206 | of all moves, crashes included, only the save of a request whose guard no longer holds breaks it |
| Ingests.OneActiveIffNoneOvertaken | internal/submission/service.go:176-206 | on every run it holds throughout if and only if every request is saved while its guard still holds |
| Ingests.ExclusiveIngestsKeepOneActive | internal/submission/service.go:243-267 | it holds on every run on which no request is let past the guard while another of its team and contest is on its way to the save |
| Ingests.IngestsRace | internal/submission/service.go:176-206 | a run from the initial world on which two ingests both pass the guard before either saves: the team ends with two submissions in progress |
| CrashFreeChain.LabelsSpellTheChain | internal/worker/executor.go:294-302 | without crashes the recorded labels are a prefix of low, medium, high, so no profile is executed twice; completed means all three |
| CrashFreeChain.PickedUpJobIsExact | internal/queue/job.go:82-91 | whenever a job is picked up, recorded labels, its label and its remaining ones spell the chain, and it passes the guard |
| CrashFreeChain.DrainedIsSettled | internal/worker/worker.go:240-299 | once the queues are drained every dispatched submission is terminal |
| CrashFreeChain.WorkDecreasesRank | internal/worker/executor.go:464-499 | every worker step decreases a measure built on 1 + the number of remaining profiles |
| CrashFreeChain.WorkIsBounded | internal/queue/job.go:145-147 | under any interleaving, crashes and redeliveries included, the workers take at most 60 steps per dispatched submission and 60 more per crash |
| CrashFreeChain.RestIsDrained | internal/worker/worker.go:139-168 | when no worker step does anything any more, every queue is drained |
| Worker.Worker.ProcessJob | internal/worker/worker.go:171-300 | whatever the submission's status and the outcome, the method does what the source promises: a rejected, undeployed, unhealthy or failed run ends Failed without a result or a new job, a good one adds exactly its score and enqueues the next profile or closes with the weighted score; and it leaves what the protocol's steps leave |
| Worker.Worker.Execute | internal/worker/executor.go:151-305 | the executor's writes and early exits, as the protocol's steps |
| Worker.Worker.RunPreflight | internal/worker/executor.go:324-412 | the validator gate of low-profile jobs: the verdict is recorded, a rejection marks the submission failed and stops the run, everything else lets it go on |
| Worker.Worker.AppendProfileResult | internal/worker/executor.go:445-462 | the result is appended to a fresh copy, stored, and handed back |
| Worker.Worker.EnqueueNextProfile | internal/worker/executor.go:464-499 | the next job carries the next label and the labels after it; a refusal marks the submission failed |
| Worker.Worker.ComputeAndWriteFinalScore | internal/worker/executor.go:501-550 | 20, 35 and 45 times the score of the first low, medium and high result, 0 for a missing one, is stored |
| Worker.Worker.Drain | internal/worker/worker.go:139-168 | the poll loop ends, and leaves every dispatched submission settled |
| Worker.JobIsHandled | internal/worker/worker.go:171-300 | a job worked off by the protocol's steps does what the source promises, said of the states before and after and the outside world's answers alone |
| Worker.FinishIsWork | internal/worker/worker.go:171-300 | undisturbed processing is a run of the step machine |
| Scoring.RunScoreMonotone | internal/worker/executor.go:693-716 | with non-negative weights of sum 1 the run score lies in [0,1], rises with correctness and throughput, falls with p99, and is 0 at zero correctness |
| Scoring.PerfectRun | internal/worker/executor.go:693-716 | it is 1 exactly at full correctness within both targets |
| Scoring.RunScoreIs | internal/worker/executor.go:693-716 | it is correctness times the weighted sum of the latency score (a straight line from the target to ten times the target), the throughput score (share of the target, at most 1) and the weight of correctness |
| Scoring.NormP99Falls | internal/worker/executor.go:693-701 | the latency score falls from 1 to 0 and is 1 exactly up to the target |
| Scoring.NormTpsRises | internal/worker/executor.go:703-709 | the throughput score rises from 0 to 1 |
| Scoring.FinalScoreInRange | internal/worker/executor.go:526-535 | the final score of run scores in [0,1] lies in [0,100] |
| Scoring.CompletedScoresInRange | internal/worker/executor.go:501-550 | so does every completed submission's, on every run with any crashes |
| WebSocketFrames.RoundTrip | internal/botfleet/websocket.go:275-402 | every frame with a payload under 2^63 bytes, masked or not, decodes to itself and leaves the bytes behind it |
| WebSocketFrames.FrameIsItsBytes | internal/botfleet/websocket.go:347-402 | no shorter piece of a frame decodes, and every longer one decodes to it |
| WebSocketFrames.AcceptedIsProduced | internal/botfleet/websocket.go:347-377 | an accepted frame is one an encoder produces if and only if its final bit is set, its reserved bits are clear and its length is in shortest form |
| WebSocketFrames.DecodedIsOnWire | internal/botfleet/websocket.go:347-402 | what is decoded stands in the bytes consumed as RFC 6455 draws it: opcode, mask bit, length in network byte order, and the payload masked bit by bit with byte i modulo 4 of the key |
| WebSocketFrames.OnWireDecodes | internal/botfleet/websocket.go:347-402 | conversely bytes that draw a frame decode to it and leave what follows |
| WebSocketFrames.LengthRoundTrip | internal/botfleet/websocket.go:291-302 | each of the three length forms reads back, with the mask bit |
| WebSocketFrames.MaskTwice | internal/botfleet/websocket.go:306-310 | masking twice with one key is the identity |
| WebSocketFrames.XorBits | internal/botfleet/websocket.go:309 | the exclusive or of two bytes is the sum of their bits modulo 2, bit by bit |
| WebSocketFrames.BitsOfByte | internal/botfleet/websocket.go:353-361 | the arithmetic forms of the header masks are the bit operations |
| WebSocketTransport.StreamRoundTrip | internal/botfleet/websocket.go:275-402 | any stream of encoded frames decodes to exactly those frames and leaves what follows |
| WebSocketTransport.PingsAnswered | internal/botfleet/websocket.go:322-342 | pings before the data are answered in order with their payloads, the data is returned, and nothing behind it is read |
| WebSocketTransport.PayloadNeedsData | internal/botfleet/websocket.go:322-342 | conversely a payload is returned only for a data frame behind nothing but answered pings |
| WebSocketTransport.EncodedOnWire | internal/botfleet/websocket.go:275-316 | every encoded frame draws itself in the wire format |
| WebSocketTransport.ServeByOpcode | internal/botfleet/websocket.go:322-342 | opcodes 1 and 2 return the payload, 9 is answered by opcode 10 with the same payload, 8 and all others end the wait |
| WebSocketTransport.ExchangeRoundTrip | internal/botfleet/websocket.go:322-342 | for whatever pings and data a peer encoded, the replies decode to the pongs, payload by payload |
| WebSocketTransport.WebSocketTransport.WriteFrame | internal/botfleet/websocket.go:275-316 | a final frame with the mask bit, the length in its shortest form, the key drawn, and every payload bit masked with its bit of key byte i modulo 4; without a key nothing is written |
| WebSocketTransport.WebSocketTransport.ReadFrame | internal/botfleet/websocket.go:347-402 | a frame is returned exactly when the bytes start with one as the wire format draws it, and it is that one; otherwise end of stream, or a panic on a negative length |
| WebSocketTransport.WebSocketTransport.ReadDataFrame | internal/botfleet/websocket.go:322-342 | outcome, bytes left, replies written and keys used, for every input |
| Stats.ComputeMaxTps | internal/botfleet/stats.go:150-174 | ten times the most sends in any closed 100 ms interval, and the left pointer moves fewer times than there are sends |
| Stats.ScanFindsPeak | internal/botfleet/stats.go:157-170 | the best position-ended window is the maximum over all closed intervals |
| Stats.PercentileOfSorted | internal/botfleet/stats.go:129-143 | nearest rank is the least sample with at least pct percent of the samples at or below it |
| Stats.PercentilesAreOrdered | internal/botfleet/stats.go:107-109 | a higher percentile is no smaller |
| Stats.ComputeStats | internal/botfleet/stats.go:58-125 | counts, percentiles and peak of the successful orders, and the rate at which that many take from the first send to the last acknowledgement, zero where there are none |
| Stats.SucceededAre | internal/botfleet/stats.go:76-84 | the samples counted are exactly those that did not fail, each as often as it occurs |
| Stats.TrackedTimes | internal/botfleet/stats.go:86-91 | for times past the epoch the tracked first send and last acknowledgement are the earliest and the latest |
| LatencyWindows.RowsAreFirstRuns | internal/consumer/consumer.go:182-261 | for every stream, one row per submission and bucket, computed from exactly the first maximal run of consecutive events in that bucket |
| LatencyWindows.StreamingIsBatch | internal/consumer/store.go:152-166 | a row equals the batch group-by if and only if the bucket's events are contiguous; otherwise it lacks samples |
| LatencyWindows.OrderedIsBatch | internal/consumer/consumer.go:193-222 | if a submission's timestamps never decrease, all its rows are the batch group-by's |
| LatencyWindows.LateSampleIsLost | internal/consumer/store.go:150-166 | one late event is missing from its row |
| LatencyWindows.StateMirrorsTracks | internal/consumer/consumer.go:195-222 | each submission's window and rows depend on its own events only |
| LatencyWindows.PercentilesAgree | internal/consumer/percentile.go:139-155 | over exact reals the consumer's percentile is the bots' integer nearest rank |
| LatencyWindows.RowIsSound | internal/consumer/percentile.go:107-132 | percentiles are those of the samples and lie between minimum and maximum, which are samples |
| LatencyWindows.RowFigures | internal/consumer/percentile.go:107-167 | a row's mean is the samples' sum over their number, truncated towards zero; its rate is their number over five seconds |
| LatencyWindows.WindowOfTime | internal/consumer/consumer.go:193-200 | a time belongs to the window that starts at the last multiple of five seconds |
| MetricsConsumer.Accumulator.Compute | internal/consumer/percentile.go:107-132 | the row of the samples added, which are left sorted |
| MetricsConsumer.Mean | internal/consumer/percentile.go:158-167 | the sum divided by the count, truncated towards zero |
| MetricsConsumer.Consumer.HandleRecord | internal/consumer/consumer.go:182-222 | windows and rows after any record, malformed ones and heartbeats included |
| MetricsConsumer.Consumer.FlushWindow | internal/consumer/consumer.go:227-249 | the window is written and removed |
| MetricsConsumer.Consumer.FlushAll | internal/consumer/consumer.go:252-261 | in whatever order the map is visited, the table ends the same |
| MetricsConsumer.Consume | internal/consumer/consumer.go:131-179 | a whole stream and a shutdown leave exactly the rows of the first maximal runs |
| Leaderboard.BuildDedupedLeaderboard | internal/api/router.go:559-603 | each team with a completed submission once, showing one of its best submissions under its final score or else its legacy score, in descending order of score and correctness, ranks 1..n |
| Leaderboard.PickBest | internal/api/router.go:567-587 | the map holds a best entry for exactly the teams with a completed submission |
| Leaderboard.BuildEntry | internal/api/router.go:607-654 | every field from the submission: legacy figures, last score per profile, least positive p99, greatest rate, mean correctness |
| Leaderboard.GatheredExtremes | internal/api/router.go:638-643 | best p99 is the least positive one and peak rate the greatest |
| Leaderboard.GatheredScores | internal/api/router.go:630-637 | the score shown for a profile is that of its last recorded run |
| Leaderboard.OrderIsIrrelevant | internal/api/router.go:559-603 | every permutation of the submissions gives the same multiset of (team, score, correctness) |
| Leaderboard.RanksAreDetermined | internal/api/router.go:591-602 | and the same score and correctness at every rank |
| Sorting.SortedIsUnique | internal/botfleet/stats.go:155 | without ties any sorting routine, stable or not, gives the same result |

## Left out

- Floating point: scores, rates and percentiles of the consumer are exact reals; rounding is not modelled.
- Integer width: quantities, prices and times are unbounded integers, so int64 overflow of running totals is not modelled.
- Sorting calls: `sort.Slice` and `sort.SliceStable` are library calls, modelled by one stable sort; where the source's sort is not stable the results do not depend on ties, except for the relative order of leaderboard entries equal in both keys, about which nothing is claimed.
- Loop bodies of the book: one turn of the four matching loops is factored into `MatchBestSell` and `MatchBestBuy`.
- Unlabelled single-run jobs of earlier phases, `StopContainer` and local in-process deployment: side paths that add cases to the protocol and no new obligations.
- The zero value of the golden book, whose index is a nil map: not modelled.
- Store and queue failures: the store never fails and a commit always succeeds; only the queue's refusal of an enqueue is modelled. A worker that cannot read its submission leaves the job uncommitted, as in the code.
- Concurrent workers on one submission: each submission's jobs live in one partition with one consumer, as the queue contract and the partition key give it.
- RedpandaQueue's fetch loop: the contract of the queue interface is modelled instead.
- Contest weights and profiles: the worker wires no contest store, so the weights are 0.20, 0.35 and 0.45; profile parameters are arbitrary in `Scoring`.
- Benchmark outcomes: deployment, health, validator verdict and fleet score are arbitrary inputs of each job.
- Legacy composite score of unlabelled runs: easy arithmetic beside the labelled one.
- WebSocket handshake, deadlines, JSON bodies and write errors: the connection accepts every write, and delivers a finite sequence of bytes followed by its end; mask keys come from a finite random source.
- Allocation limits: a payload length below 2^63 that exceeds memory is read as an ordinary short read.
- Randomness: every draw of a generator is an arbitrary choice; its distribution is not modelled.
- Kafka polling, offset commits of the metrics consumer and restarts: one consumer process reads one finite stream and shuts down; the table it writes to starts empty.
- Leaderboard fields that are only copied (language, protocol, status, completion time): not represented.
- HTTP, SSE, PostgreSQL, Docker, Prometheus, the frontend, contest life cycle, rate limiting and wall-clock behaviour: plumbing around the parts modelled here.
