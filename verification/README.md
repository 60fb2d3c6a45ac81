# Proceed: a verified model

Proceed runs graphs durably. A YAML definition is compiled to a typed graph; a run of it is an
append-only event log; every table the program reads is a projection of that log. This project models
the parts of Proceed whose correctness is not visible in any single function, and proves them. Run
`dafny verify dfyconfig.toml` here to check all of it.

## What is modelled

- **Cycle analysis** (`Graphs`, `Tarjan`, `CycleSearch`, `Documents`, `CyclePass`): the iterative
  strongly-connected-components algorithm over arrays and explicit stacks, the three-colour search that
  extracts a cycle, and the compiler pass that combines them, proved against reachability and walks.
- **The event log and its projections** (`Events`, `Projection`, `ProjectionRules`, `Replay`, `RowHistory`,
  `AttemptHistory`, `RunHistory`, `RecordHistory`, `Artifacts`): every projection handler, the append discipline,
  rebuilding the tables by reading the log run by run, what the rows of every table say about the events behind
  them, and when an event or an artifact is refused.
- **Garbage collection** (`Gc`, `LiveKeys`): which runs may go, the dry run, the cascading deletion, and the
  foreign keys it relies on.
- **The run engine** (`OperationKeys`, `RunEngine`, `RunSteps`, `RunSafety`, `RunRecovery`, `RunTheorems`,
  `RunMoves`, `RunRetries`, `RunOutcomes`, `RunDecisions`, `RunEnding`, `RunStranded`, `RunStuck`, `RunBudget`,
  `RunRouting`, `RunDeadEnds`, `RunCompletion`, `RunOrder`, `ResearchLoop`, `RunTables`, `RunController`): one run
  as a state machine whose steps are its transactions and its driver's moves, in every order. `RunController` is
  the imperative form: loops over rows and edges that append events, each proved to be the step. `RunTables`
  ties the engine's rows to the projection's.
- **Approvals and external waits** (`Approvals`, `ApprovalReplies`, `Conditions`, `Waits`, `WaitReplies`,
  `WaitExamples`): calls in any order on the shared event keys, and the exact condition of each reply.
- **Scheduling** (`Calendar`, `Decimal`, `Texts`, `Cron`, `CronGrammar`, `CronSearch`, `Scheduling`): cron expressions
  in the five-field format of the crontab utility of IEEE Std 1003.1 with a step extension, the bounded
  search for the next minute, and firing or skipping ticks.
- **Canonical encoding** (`Canonical`, `Decoding`, `Meaning`, `Refusals`): the encoder with the string escapes of
  section 7 of RFC 8259, a decoder for it, what equal bytes say about two definitions, and which
  definitions are refused.
- **Restore** (`Restore`): moving a staged backup in, with an undo log and a failure at any move.
- **Rate limiting** (`RateLimit`): the token bucket of a trigger.

`Options` and `Collections` hold two shared helpers.

## How to read the model

- A database transaction is one atomic step on maps of rows. In `Projection` all projected tables are one
  map from table and key to row; a handler yields the rows it writes, or fails, also when
  a row it writes would refer to a row that is not there.
- Row ids are generated values; an id names the run that made it, which is how the source's ids behave
  (an event refers to rows of its own run).
- An executor is any outcome: success with a route, failure, timeout, uncertain, cancelled, a wait. A lost
  lease, a store error and a crash of the driver are steps too.
- The operation key of an attempt is the text that the program hashes, without the definition's digest,
  which the run determines; a hash without collisions is as good.
- `Next` in `RunEngine` gives the state after one step; a step whose guard does not hold changes nothing,
  as the source returns without writing. Theorems about "every run" are about every sequence of steps.
- A node definition keeps what the engine looks at: the contract and attempts of a task, whether a gate names
  both an event type and a correlation key (then it listens), and the contract of the executor that a router
  may name, which only recovery looks at.
- A driver checks that the run is running (`BeginStep`) and lists the eligible nodes later (`ListNodes`);
  anything may happen in between, also that waits expire or the run is abandoned.
- Recovery is a pass (`BeginScan`, then `Recover` for each visit): it reads the candidates in one fixed but
  arbitrary order, leaves out tasks whose lease runs, acts on the status it read, and ends at the first
  candidate that gives an error. The executor's answer about an effect is a step of its own (`Reconcile`).
- One driver acts on a run, and a recovery not beside it: the command line recovers a run before it drives it.
- Integers are unbounded, times are milliseconds (minutes in the cron search, nanoseconds in the rate
  limiter), tokens are reals. Cron bits are sets of numbers. Bytes are characters.
- The fields `acts` and `rounds` of the run state are history: the events and reconcile answers so far, and
  how often the driver had something to start.

## What the proofs found

The code is modelled as it is. These expectations do not hold of it; each is shown by an example or a
lemma, together with the exact condition where there is one.

- Rebuilding the projections can fail on a log the store accepted: runs that used one event type and
  correlation key one after the other can be pending at once when the log is read run by run, and the
  unique index refuses the second (`Replay.RebuildCanFail`). `Replay.RebuildTheorem` says exactly when.
- The 4 * 366 day bound of the cron search is too short across a century that is no leap year
  (`CronSearch.BoundCanFail`). `CronSearch.FindsExactlyWhen` says exactly when it suffices.
- After a run was abandoned nodes can still be started: those listed before, because claims do not look at
  the run's status, and those listed afterwards by a driver that checked it before
  (`RunEnding.AbandonedRunCanStart`). `RunEnding.AbandonedRunStartsExactlyIfListed` says exactly when.
- A gate, or a router without an executor, whose execution is lost is never recovered: its visit is an error,
  which ends the recovery, so that no candidate read after it is recovered either, on any pass
  (`RunStranded.StrandedForever`, `RunStranded.StrandedBlocks`).
- A cancelled run can hang: recovery answers `cancel_requested` nodes of idempotent and non-replayable
  contracts with a transition that is then dropped, so once their execution has ended without an answer, by
  a crash or just by a failure, they never become cancelled (`RunStuck.StuckForever`,
  `RunStuck.StuckIsReachable`). Nodes of the other contracts are not cancelled either if a stranded gate or
  router is read before them (`RunStuck.GateKeepsTaskStuck`). `RunStuck.CancelledExactlyIfCancellable` says
  exactly which nodes still can be.
- A node that waits with no wait or approval open on it waits for good: a gate that does not listen, a lost
  execution that must not be replayed, an effect about which the executor knows nothing
  (`RunStranded.LeavesOrphan`, `RunStranded.OrphanForever`). So a run completes only if all gates that do not
  listen are skipped (`RunCompletion.CompletedRunSkipsDeafGates`).
- The row of a cancelled attempt does not stay cancelled: a later start of the attempt or the report of a failed
  attempt overwrites it (`AttemptHistory.AttemptRowTells`), although the end of an attempt does not.
- A run accepts an artifact of a node, with its name and content, only once. If an attempt fails after it has
  published one, a retry that produces the same content can never commit its result
  (`Artifacts.RefusedExactlyIfPublished`, `Artifacts.RetryNeverCommits`).
- The compiler accepts loops whose edges are bounded, but no run goes round one: a node waits for every
  route into it, so the nodes of a loop wait for each other and, unless a node outside the loop can skip one
  of them, the run never completes (`RunDeadEnds.KnotNeverCompletes`). The definition
  `internal/compiler/testdata/customer-research.yaml` has such a loop
  (`ResearchLoop.CompilerAccepts`, `ResearchLoop.NeverCompletes`). For graphs without routes
  `RunCompletion.CompletesExactlyWithoutKnot` says exactly when some run completes; for graphs with
  routes `RunCompletion.PlanCompletes` gives a sufficient condition.
- A route that was left out is left out for good, also one out of a skipped node, so a run whose target was
  not skipped with it stays open (`RunDeadEnds.UntakenRouteIsFinal`). A blocked target is skipped only if it
  has no row yet, and it gets one when its dependencies are done; so the order in which two independent
  nodes finish can decide whether a run completes (`RunDeadEnds.BlockedTargetNeedsNoRow`,
  `RunOrder.OrderDecides`). `RunDeadEnds.RestCompletesNowOrNever` and `RunDeadEnds.RestIsExplained` say
  exactly when a run at rest completes, and why not.
- A client may choose `approval_expired:<id>` as a decision key; the approval of that id can then never be
  decided or expire (`Approvals.NamesakeKeyBlocks`).
- A comment says that every delivery that does not resolve its wait may be retried
  (`internal/controller/external_wait.go:54-55`). A delivery that does not match its wait uses up its
  provider event id, even if its status is not terminal, and a retry is refused
  (`Waits.MismatchConsumesTheKey`, `WaitExamples.MistypedDeliverySpoilsTheRetry`).
  `Waits.RetryWorksUnlessConsumed` says exactly which deliveries leave the id usable.
- A registration with a wait id of its own is refused if the wait of that id asks for something else; one without an
  id is given a pending wait of its node, event type and key even if that has another condition
  (`WaitReplies.ReusesExactlyWhen`, `WaitReplies.UnnamedReusesExactlyWhen`).
- A delivery that satisfies its wait's condition takes the route "success" even if its status says failure
  (`Waits.RouteIsStatusOrSuccess`, `WaitExamples.FailureIsRoutedAsSuccess`), and waits of ended runs still
  expire (`Waits.ExpiryIgnoresTheRun`, `WaitExamples.WaitOutlivesItsRun`).
- A failed restore puts every file outside the staging directory back, but the staged copies that had been
  moved are lost, so all of them are still there exactly if the first move failed
  (`Restore.Disk.CommitRestore`); the import deletes the staging directory in any case.

## Model

| member | source | states |
|---|---|---|
| Tarjan.IterativeScc | internal/compiler/validate.go:722-787 | For every graph the search ends, and two nodes get the same number exactly when each reaches the other; an arc between components goes to the smaller number |
| Tarjan.SearchFrom | internal/compiler/validate.go:732-785 | The search below one root keeps the whole invariant of the algorithm (numbering, open calls, stack segments, low links, finished components) and numbers the root |
| Tarjan.ScanArcs | internal/compiler/validate.go:749-765 | Looking along the arcs of the top node stops at the first unseen target or takes the low link over all of them |
| Tarjan.Retire | internal/compiler/validate.go:766-783 | A finished node hands its low link to its caller, or closes exactly its component |
| Tarjan.PopComponent | internal/compiler/validate.go:773-783 | Popping takes off the stack the nodes from the component's root upwards, and gives those and no others the component number |
| CycleSearch.FindCycle | internal/compiler/validate.go:789-842 | A returned list is a simple cycle of the graph below the given members; nothing is returned only if no cycle can be reached from them |
| CycleSearch.ExploreFrom | internal/compiler/validate.go:795-838 | The three-colour search below one root finds a cycle through a node on its path, or leaves everything it reached black |
| CycleSearch.BlackIsAcyclic | internal/compiler/validate.go:795-842 | A graph whose finished nodes were finished after all their successors has no cycle among them |
| CyclePass.Validator.CyclePass | internal/compiler/validate.go:637-715 | The findings appended are exactly those of the cycle rules |
| CyclePass.ReportsExactlyUnboundedCycles | internal/compiler/validate.go:637-715 | E107 is reported exactly when some cycle uses only edges without max_traversals, and the nodes named are a simple cycle of such edges |
| CyclePass.CheckBounds | internal/compiler/validate.go:659-670 | E112 is reported exactly for the bounded edges that lie on no cycle, once each |
| CyclePass.CheckCycles | internal/compiler/validate.go:672-715 | Every component with a cycle of unbounded edges is reported, with such a cycle; no other is |
| CyclePass.CycleIn | internal/compiler/validate.go:688-708 | The cycle shown for a component consists of unbounded edges inside it |
| CyclePass.OnCycleIsMutual | internal/compiler/validate.go:659-670 | An edge lies on a cycle exactly when its ends reach each other, so equal component numbers decide E112 |
| CyclePass.AcceptedWalksAreBounded | internal/compiler/validate.go:637-715 | In a document with no finding, a walk that uses each bounded edge at most its max_traversals times has at most K + (K+1)(n-1) edges, K being the sum of the bounds |
| Documents.WalksAreBounded | internal/compiler/validate.go:637-715 | The same bound from the absence of an unbounded cycle alone |
| Replay.HandlersAreLocal | internal/store/projection.go:321-917 | What a handler writes depends only on the rows of the event's own run, and is written to that run |
| Replay.FoldByRun | internal/store/projection.go:321-327 | The rows of one run after any interleaving are those of its own events alone |
| Replay.LiveIsFold | internal/store/event.go:153-194 | The tables beside the log are always the fold of the log, for any sequence of appends and starts |
| Replay.ReplayTheorem | internal/store/projection.go:1002-1044 | Reading a log by run and sequence gives the live tables, or fails exactly when an event clashes with a wait an earlier run left pending |
| Replay.RebuildTheorem | internal/store/projection.go:1002-1044 | For every log built by the store, wiping and rebuilding gives the same tables exactly when no such clash exists |
| Replay.RebuildCanFail | internal/store/schema.go:363-365 | A log the store accepts whose rebuild fails: two runs used one event and correlation key one after the other |
| Replay.LiveHistoriesIncrease | internal/store/event.go:167-182 | The events of each run have strictly increasing sequence numbers |
| Replay.Store.AppendTx | internal/store/event.go:127-151 | Assigns the next sequence of the run, refuses a used key and an event whose projection fails, and leaves log and tables together |
| Replay.Store.AppendEventTx | internal/store/event.go:153-194 | Appends and projects one event, or changes nothing |
| Replay.Store.StartRunTx | internal/store/projection.go:59-120 | Inserts the run row and its first event, or changes nothing |
| Replay.Store.RebuildProjections | internal/store/projection.go:1002-1044 | Replaces the tables by the fold of the ordered log and reports whether they differ, or fails and keeps them |
| RowHistory.WaitRowTells | internal/store/projection.go:800-886 | In every log that can be projected a requested wait has a row with its request's contents; it is pending until an event ends it, then shows the first such event for good |
| RowHistory.ApprovalRowTells | internal/store/projection.go:679-716 | A requested approval has a row with its request's contents; it shows the last decision event, so that only the transactions keep the first decision |
| RowHistory.EffectRowTells | internal/store/projection.go:653-677 | An intended effect has a row with its intent's contents; it is pending until a receipt comes, then has the status and time of the last one |
| RowHistory.OneEnding | internal/store/projection.go:758-789 | A log with two endings of one run, an abandonment included, cannot be projected; the outcome row is that of the one ending |
| RowHistory.RunRowTells | internal/store/projection.go:758-789 | The run row has the status of the event that ended the run, and is running while there is none |
| Artifacts.ArtifactRowTells | internal/store/projection.go:623-639 | In every log that can be projected a published artifact has a row, which is what its event says |
| Artifacts.RefusedExactlyIfPublished | internal/store/schema.go:164-176 | An artifact is refused exactly if an earlier event of the run publishes one of the same node, name and content |
| Artifacts.RetryNeverCommits | internal/controller/outcomes.go:176-178 | Once an attempt has published an artifact no transaction that publishes the same one again is committed, after any further events |
| Gc.KeepNewestIds | internal/store/gc.go:77-96 | Keeps as many runs as asked for, each of them newer than every run not kept |
| Gc.Candidates | internal/store/gc.go:98-140 | Exactly the finished, old, unkept runs that no proposal or cited metric holds, once each, and the number of finished runs without a finish time |
| Gc.CountRows | internal/store/gc.go:158-194 | Counting rows one by one gives, table by table, the number of rows that the deletion selects |
| Gc.Collector.DeleteRuns | internal/store/gc.go:214-292 | The deletion removes exactly the rows of the runs and reports exactly the dry run's counts |
| Gc.Collector.DeleteFrom | internal/store/gc.go:226-280 | Emptying one table in its turn deletes the rows selected before anything was deleted |
| Gc.Collector.ClearSchedules | internal/store/gc.go:281-290 | Schedules forget a deleted last run |
| Gc.PurgeKeepsForeignKeys | internal/store/gc.go:214-292 | Every foreign key that held before the deletion holds after it |
| Gc.FoldWithout | internal/store/gc.go:214-292 | Folding the remaining events gives the remaining rows |
| Gc.RebuildAfterCollecting | internal/store/gc.go:214-292 | Rebuilding the remaining log gives the remaining tables exactly if no request of a remaining run clashes with a wait of another remaining run |
| Gc.CollectingKeepsRebuildable | internal/store/gc.go:214-292 | A store that could be rebuilt before a collection can be rebuilt after it |
| LiveKeys.LiveStoresKeepTheirKeys | internal/store/event.go:153-194 | In every store that grew by appending events that name rows of their own run, all foreign keys hold and the rows of a run refer to rows of the same run; only the references of proposals, metrics and schedules, which no event makes, are assumed |
| RunSafety.ClaimKeeps | internal/controller/engine.go:551-591 | A claim keeps the run's invariant: a node is started only from a state that allows it |
| RunSafety.FlightFailsKeeps | internal/controller/outcomes.go:140-153 | A failed attempt ends the node or makes it eligible again, within its attempts |
| RunSafety.RecoverKeeps | internal/controller/recover.go:65-114 | The visit of any candidate, a gate or a router included, keeps the invariant, whatever has happened since it was read |
| RunRecovery.BeginScanIsOk | internal/controller/recover.go:19-50 | A recovery that begins has each unleased candidate to visit once, in the order it reads them, with the status it has |
| RunTheorems.StepScans | internal/controller/recover.go:51-58 | Over every step the nodes still to visit are under way as they were read, or asked to stop since, in the order in which they were read |
| RunSafety.RouteRoutes | internal/controller/outcomes.go:244-352 | Routing only adds rows, pending or skipped, only for defined nodes, and traverses only edges of the finished node |
| RunSafety.FinishKeeps | internal/controller/outcomes.go:187-203 | Finishing and routing a node keeps the invariant; no listed node is skipped |
| RunSafety.CommitKeeps | internal/controller/outcomes.go:162-203 | A result commits as finished, or as cancelled when a cancellation came first |
| RunSafety.DecideKeeps | internal/controller/approval.go:313-423 | Deciding an approval releases its node and nothing else |
| RunSafety.ExpireApprovalKeeps | internal/controller/approval.go:468-563 | Expiring an approval releases its node and nothing else |
| RunSafety.CompleteWaitKeeps | internal/controller/external_wait.go:590-686 | Completing a wait releases its node and nothing else |
| RunTheorems.CancelSweeps | internal/controller/cancel.go:39-158 | Cancelling a run cancels or asks to stop every defined node, and ends every pending wait |
| RunTheorems.StepKeeps | internal/controller/engine.go:288-492 | Every step keeps the invariant; finished nodes stay finished, traversed edges stay traversed, a frozen run stays frozen |
| RunTheorems.RunKeeps | internal/controller/reconciler.go:14-116 | The invariant holds after every sequence of steps |
| RunTheorems.CancellationIsFinal | internal/store/projection.go:369-609 | Over every run a cancelled node stays cancelled, and one asked to stop can only become cancelled |
| RunTheorems.CancelledRunStartsNothing | internal/controller/cancel.go:13-196 | Once a run has been cancelled none of its nodes is started again, whatever happens |
| RunTheorems.RestartRespectsContract | internal/controller/recover.go:65-182 | Two successive starts of a node: a gate has none; a router has them only with a pure executor, after it was put back, under number 1 and no key; for a task the attempt number goes up by one and the operation key is another, or an idempotent attempt is resumed under its own number and key; a non-replayable task failed in between, a reconcilable one failed or was answered absent or rejected |
| RunTheorems.OneKeyPerAttempt | internal/controller/controller.go:217-221 | Two starts of tasks in a run carry one operation key exactly if they start the same attempt of the same node |
| OperationKeys.KeysIdentifyAttempts | internal/controller/controller.go:217-221 | Equal operation keys name the same run, node and attempt, whatever the node is called |
| RunTheorems.FirstStartIsReady | internal/controller/engine.go:127-164 | At its first start a node's dependencies are succeeded or skipped and its incoming routes traversed |
| RunEnding.RunEndsOnce | internal/controller/reconciler.go:229-251 | A run gets at most one terminal event, and its status is that event's |
| RunEnding.CompletedRunIsDone | internal/controller/reconciler.go:216-227 | In a completed run every defined node is succeeded or skipped, forever |
| RunEnding.EndedRunStartsNothing | internal/controller/reconciler.go:190-252 | After completion, failure or cancellation no node is started |
| RunEnding.AbandonedRunCanStart | internal/controller/cancel.go:198-240 | After run_abandoned a node can still be started, one listed before or one listed afterwards, since neither claims nor listings look at the run's status |
| RunEnding.AbandonedRunStartsExactlyIfListed | internal/controller/cancel.go:198-240 | After a running run was abandoned some continuation starts a node exactly if the driver held a listed node that a claim would accept, or was past its check and some node was eligible or becomes so when waits expire |
| RunEnding.MayListWithoutWaits | internal/controller/reconciler.go:15-31 | The second case, in a run without pending waits: the driver was past its check and a node was eligible |
| RunStranded.StrandedForever | internal/controller/engine.go:213-221 | A gate, or a router whose executor recovery cannot deal with, that has lost its execution stays so whatever happens, and its run never becomes cancelled or completed |
| RunStranded.StrandedBlocks | internal/controller/recover.go:51-58 | No node that has lost its execution and is read after such a gate or router is ever recovered |
| RunStranded.LeavesOrphan | internal/controller/recover.go:65-83 | A gate that does not listen, a non-replayable lost execution and an effect the executor knows nothing about leave the node waiting for nobody |
| RunStranded.OrphanForever | internal/controller/external_wait.go:912-922 | A node that waits with no wait or approval open on it waits for good unless the run is cancelled, and the run never completes |
| RunStuck.StuckForever | internal/controller/recover.go:85-98 | A node that was asked to stop, has no execution under way, and is not a pure or reconcilable task or is behind a stranded gate or router, is never cancelled, and its run never becomes cancelled or completed |
| RunStuck.StuckIsReachable | internal/controller/recover.go:85-98 | Start, claim, cancel, and then a crash or an ordinary failure reach that state |
| RunStuck.CancelledExactlyIfCancellable | internal/controller/recover.go:85-98 | In every run a node that was asked to stop can still become cancelled exactly if its execution is under way, or it is a task of a pure or reconcilable contract that the recovery under way gets to, or before which no stranded gate or router is read |
| RunStuck.GateKeepsTaskStuck | internal/controller/recover.go:51-58 | A gate and a pure task are claimed, the driver crashes, the run is cancelled: the pure node is never cancelled, since recovery ends at the gate |
| RunStuck.EndsWithoutAnswer | internal/controller/engine.go:440-491 | A failure, an uncertain result or a request to wait, a gate's included, takes the execution away from a node that was asked to stop and leaves it as it is |
| RunRouting.RoutingIsExact | internal/controller/outcomes.go:244-352 | Routing out of a node traverses exactly its dependencies and the selected routes, skips exactly the blocked targets that have no row, and changes no existing row |
| RunRouting.RouteCreates | internal/controller/outcomes.go:244-352 | Routing out of a node makes rows for its dependents, its selected and its blocked targets only |
| RunRouting.EligibilityIsExact | internal/controller/decisions.go:198-240 | A dependent gets an eligibility decision exactly if its dependencies are done and it has none yet, and at most one |
| RunRouting.DependentGetsRow | internal/controller/decisions.go:212-240 | A dependent whose dependencies are all done has a row once the last of them has been routed, even if a route into it is still open |
| RunRouting.StepFlows | internal/controller/outcomes.go:155-204 | Every step of a run either finishes and routes one running, reconciling or waiting node, or makes nothing succeeded, skipped or traversed |
| RunDeadEnds.TrappedForever | internal/controller/engine.go:127-164 | Nodes that wait for each other or for a route left out, and that nobody can skip, stay so under any steps |
| RunDeadEnds.KnotNeverCompletes | internal/controller/engine.go:133-158 | In no run does a node start that waits, in a circle, for nodes that wait for it; no run of such a graph completes |
| RunDeadEnds.UntakenRouteIsFinal | internal/controller/engine.go:152-155 | A route that its finished or skipped source left out is never taken: its target never starts, and unless it is skipped the run never completes |
| RunDeadEnds.BlockedTargetNeedsNoRow | internal/controller/outcomes.go:309-347 | A target that a finishing task blocks is skipped exactly if it has no row yet; otherwise the run never completes |
| RunDeadEnds.RestCompletesNowOrNever | internal/controller/reconciler.go:190-252 | A run with nothing to start, whose nodes are pending, done or immovable (waiting for nobody, stranded, or read after a stranded one), completes at once if every node is done, and otherwise never |
| RunDeadEnds.RestIsExplained | internal/controller/engine.go:127-164 | If it does not, a node is immovable, a route out of a done node was left out, or each node left waits for another of them |
| RunDeadEnds.ImmovableNeverCompletes | internal/controller/reconciler.go:190-252 | A running run with an immovable node never completes |
| RunCompletion.CompletesExactlyWithoutKnot | internal/controller/engine.go:133-158 | A graph without routes has a run that completes exactly if it has a node, all its gates listen, and there is no circle of nodes that wait for one another |
| RunCompletion.PlanCompletes | internal/controller/engine.go:127-164 | Any graph with a node has a run that completes if one can choose a route for each node to keep so that all routes into kept nodes are chosen and kept gates listen, each other node depends on nothing and is blocked by a kept one, and no circle of nodes waits for one another |
| RunCompletion.ForkHasPlan | internal/controller/outcomes.go:309-347 | Such a choice for a fork whose second branch is a gate that does not listen |
| RunCompletion.DeafGateNeverSucceeds | internal/controller/external_wait.go:912-922 | A gate without an event type or a correlation key never succeeds |
| RunCompletion.CompletedRunSkipsDeafGates | internal/controller/external_wait.go:912-922 | In a completed run every such gate was skipped |
| RunOrder.OrderDecides | internal/controller/outcomes.go:324-332 | One graph with the same answers from its executors: in one order of finishing the run completes, in the other it never does |
| ResearchLoop.CompilerAccepts | internal/compiler/testdata/customer-research.yaml:30-38 | The cycle rules report nothing about this definition, whose loop has a traversal bound |
| ResearchLoop.NeverCompletes | internal/compiler/testdata/customer-research.yaml:30-38 | No run of it ever starts `synthesize`, and none completes |
| RunBudget.StartsAreBounded | internal/controller/outcomes.go:140-153 | Without recovery a node starts at most max_attempts times, and a run at most as often as all nodes together |
| RunBudget.DrainIsBounded | internal/controller/reconciler.go:63-116 | Without recovery the driver has something to start at most as often as all attempts together, plus once for each loss of nodes to a store error or a crash |
| RunTables.ProjectFollowsEngine | internal/store/projection.go:321-609 | A handler changes the run_node rows as the engine's own step does |
| RunTables.TablesFollowRun | internal/store/projection.go:321-609 | The run_node rows projected from the events of any run are the rows its steps work with |
| RunController.Controller.EligibleNodes | internal/controller/engine.go:55-166 | Lists exactly the eligible nodes, in key order |
| RunController.ListsTheEligible | internal/controller/engine.go:55-166 | What a step lists is what that loop returns |
| RunController.Controller.Claim | internal/controller/engine.go:551-591 | Claims a listed node exactly when its row is absent, pending or eligible |
| RunController.Controller.Traverse | internal/controller/outcomes.go:261-308 | The first loop of routing appends one traversal per release edge and selected route, and collects the selected targets |
| RunController.Controller.BlockedTargets | internal/controller/outcomes.go:309-323 | The second loop collects, once each, the targets that were not selected and that no other node routes to |
| RunController.Controller.SkipBlocked | internal/controller/outcomes.go:324-347 | Blocked targets without a row are skipped |
| RunController.Controller.RecordRouting | internal/controller/decisions.go:70-180 | One decision per selected edge, the first naming the blocked targets; or one that rejects all candidates |
| RunController.Controller.RecordEligibility | internal/controller/decisions.go:198-319 | One decision for each dependent whose dependencies are now done and that has none yet |
| RunController.Controller.RouteFrom | internal/controller/outcomes.go:244-352 | Together the loops do what the routing step says |
| RunController.Controller.CommitNodeSuccess | internal/controller/outcomes.go:155-204 | Commits a result as the step says |
| RunController.Controller.RecordAttemptFailure | internal/controller/outcomes.go:140-153 | The two transactions of a failed attempt are the two steps |
| RunController.Controller.AppendNodeTransition | internal/controller/outcomes.go:116-138 | A transition is dropped on a node that is being cancelled |
| RunController.Controller.CancelRun | internal/controller/cancel.go:23-189 | The three loops of a cancellation and its closing event are the step |
| RunController.Controller.TryCompleteRun | internal/controller/reconciler.go:190-252 | Ends a run by the counts of its rows, as the step says |
| RunController.Controller.ReadCandidates | internal/controller/recover.go:19-55 | Reads the candidates of a recovery, without those whose lease runs, as the step says |
| RunController.Controller.RecoverNode | internal/controller/recover.go:51-114 | Visits the first candidate, of any node type, as the step says; an error ends the recovery |
| Approvals.RuledAtMostOnce | internal/controller/approval.go:187-423 | Over any calls each approval is granted, denied or expired at most once |
| Approvals.ReplayReturnsOriginal | internal/controller/approval.go:243-278 | Repeating a key after any other calls returns the original decision and actor and changes nothing |
| Approvals.AcceptedDecisionIsTheAnswer | internal/controller/approval.go:187-423 | The verdict and actor of an accepted decision are the answer to every later request under its key, after any calls, and stay in its row |
| Approvals.OtherKeysConflict | internal/controller/approval.go:270-288 | Another key on a decided approval conflicts and changes nothing |
| Approvals.OpenUnlessKeyTaken | internal/controller/approval.go:290-306 | An undecided approval of a running run can still be ruled on exactly when nothing is recorded under its expiry key |
| Approvals.NamesakeKeyBlocks | internal/controller/approval.go:487-505 | Deciding one approval under the expiry key of another leaves the other undecided for good |
| Approvals.NamesakeExample | internal/controller/approval.go:487-505 | Calls that bring this about |
| Approvals.Desk.DecideApproval | internal/controller/approval.go:187-423 | Answers and changes the tables as the decision function says |
| Approvals.Desk.RegisterApprovalGate | internal/controller/approval.go:56-150 | A node that has an undecided approval gets no second one |
| Approvals.Desk.ExpireApprovals | internal/controller/approval.go:454-566 | Exactly the approvals that can lapse do, with one event each, and afterwards none can |
| Waits.WaitsAreSound | internal/controller/external_wait.go:94-249 | At most one wait is pending per node and per event and correlation key, and each wait leaves pending at most once |
| Waits.SettledWaitStays | internal/store/projection.go:834-886 | A wait that has left pending never changes again |
| Waits.ObservationsChangeNothing | internal/controller/external_wait.go:550-585 | Any number of non-terminal or condition-failing deliveries to pending waits that they match, and any calls after them, leave a later delivery the reply it would have had |
| Waits.CallsAlike | internal/controller/external_wait.go:788-809 | States that differ in unkeyed events only stay so under any calls |
| Waits.RetryWorksUnlessConsumed | internal/controller/external_wait.go:762-786 | A delivery can still be accepted after another one under its event id exactly if that one named no wait, or matched a pending wait of a running run and was non-terminal or failed its condition |
| Waits.MismatchConsumesTheKey | internal/controller/external_wait.go:500-548 | A delivery that does not match its wait uses up its event id for good, non-terminal ones included |
| WaitExamples.MistypedDeliverySpoilsTheRetry | internal/controller/external_wait.go:500-548 | Calls after which a corrected delivery is refused that would have been accepted |
| WaitExamples.FailureIsRoutedAsSuccess | internal/controller/external_wait.go:566-577 | Calls after which a delivery of status failure gives the route success |
| WaitExamples.WaitOutlivesItsRun | internal/controller/external_wait.go:811-910 | Calls after which a wait of an ended run is pending, refuses a delivery, and expires |
| Waits.RouteIsStatusOrSuccess | internal/controller/external_wait.go:566-577 | The route is the delivered status, or success when the condition holds, whatever the status |
| Waits.ExpiryIgnoresTheRun | internal/controller/external_wait.go:811-910 | A wait of an ended run still expires, while a delivery to it is refused |
| Waits.Gateway.RegisterExternalWait | internal/controller/external_wait.go:68-252 | Answers and changes the tables as the registration function says |
| Waits.Gateway.CompleteExternalWait | internal/controller/external_wait.go:387-702 | Answers and changes the tables as the delivery function says |
| Waits.Gateway.ExpireExternalWaits | internal/controller/external_wait.go:811-910 | Exactly the pending waits that are due expire, with one event each, and nothing else changes |
| Conditions.EvaluateExpectedCondition | internal/controller/external_wait.go:712-724 | A condition is satisfied exactly when each of its entries holds, in whatever order they are visited |
| Texts.JoinSplit | internal/controller/external_wait.go:726-743 | A dotted key is split into dotless parts that join to it |
| Calendar.NumberOfDate | internal/controller/cron.go:111-130 | The date reached by going day by day has that day number |
| Calendar.DateOfNumber | internal/controller/cron.go:111-130 | Dates and day numbers correspond one to one |
| Cron.ParseCronField | internal/controller/cron.go:51-98 | The loops over list elements and their values compute the bits of the field |
| Cron.BitIsCovered | internal/controller/cron.go:88-96 | A bit is set exactly when some element of the list covers it, 7 counting as 0 for weekdays |
| Cron.ParsePrinted | internal/controller/cron.go:26-98 | Every list of elements, printed in all five fields, parses to exactly its bits, with stars where they stand alone |
| Cron.StepOnOneValue | internal/controller/cron.go:71-96 | A step after a single value does nothing |
| Cron.ParseCron | internal/controller/cron.go:26-49 | Parses an expression as the parser of which the round trip is proved; anything but five valid fields is refused |
| CronSearch.ParsedIs | internal/controller/cron.go:26-98 | No field of a parsed schedule is empty or out of range, and a lone star is everything |
| CronSearch.Next | internal/controller/cron.go:132-141 | Returns the least matching minute strictly after its argument, or nothing only if the window has none |
| CronSearch.FindsExactlyWhen | internal/controller/cron.go:130-141 | The bounded search finds a match exactly when some date fits the day fields and, if these allow 29 February only, one at a matching time lies in the window |
| CronSearch.HasDayTells | internal/controller/cron.go:111-128 | A parsed schedule matches at some time exactly if a weekday counts or a day of its days exists in a month of its months |
| CronSearch.LeapOnlyTells | internal/controller/cron.go:111-128 | It matches leap days only exactly if no weekday counts, its only month is February and its days are 29 and larger ones |
| CronSearch.BoundSuffices | internal/controller/cron.go:130-141 | Inside 1901-2099 the bound suffices for every schedule whose day fields fit some date |
| CronSearch.BoundCanFail | internal/controller/cron.go:130-141 | From March 2096 the search for 29 February gives up, although 2104 has one |
| Scheduling.TicksAreConserved | internal/store/schedule.go:143-277 | Over any calls the ticks from the first to the current one are those fired, in order, and those counted as skipped |
| Scheduling.SkippedAreTheRest | internal/store/schedule.go:226-277 | The ticks not fired number exactly what was added to skipped_count |
| Scheduling.WindowHoldsSkipped | internal/store/schedule.go:246-268 | A reported skip window holds exactly its count of ticks, all due, none fired |
| Scheduling.FiredIsLatest | internal/store/schedule.go:182-224 | A run carries a tick that is due, and no later tick is due with it |
| Scheduling.SkipCounts | internal/store/schedule.go:226-245 | The skip loop counts every tick up to the first that is not due |
| Scheduling.Scheduler.SkipScheduleTicks | internal/store/schedule.go:226-277 | The loop ends and computes the skip |
| Scheduling.Scheduler.FireOneSchedule | internal/store/schedule.go:182-224 | Fires or skips one schedule |
| Scheduling.Scheduler.FireDueSchedules | internal/store/schedule.go:143-180 | Fires every due schedule once and touches no other |
| Canonical.SortedSorts | internal/compiler/canonical.go:66 | The sort orders keys bytewise, keeps all entries, and keeps entries with one key in order |
| Canonical.Encoder.EncodeNode | internal/compiler/canonical.go:34-90 | Appends exactly the encoding to the buffer, or fails exactly when there is none |
| Canonical.Encoder.EncodeString | internal/compiler/canonical.go:127-152 | Appends the quoted text |
| Decoding.ParseWrite | internal/compiler/canonical.go:34-152 | A decoder reads back every value that was written |
| Decoding.WriteIsInjective | internal/compiler/canonical.go:34-152 | Different values have different bytes |
| Decoding.ParseQuoted | internal/compiler/canonical.go:127-152 | Every string is recovered from its escapes |
| Meaning.EncodesMeaning | internal/compiler/canonical.go:34-90 | The bytes of a float-free definition are its meaning written out, with aliases resolved and keys sorted |
| Meaning.SameBytesSameMeaning | internal/compiler/canonical.go:14-90 | Float-free definitions, aliases and repeated keys included, have equal bytes exactly when they mean the same |
| Meaning.DecodesMeaning | internal/compiler/canonical.go:14-90 | The meaning of a definition can be recovered from its bytes |
| Meaning.SameMeaningWhenAlike | internal/compiler/canonical.go:56-85 | Definitions with distinct keys mean the same exactly when they are equal up to the order of keys at every level |
| Meaning.SameBytesWhenAlike | internal/compiler/canonical.go:14-90 | Such definitions have equal bytes exactly when they are equal up to the order of keys |
| Restore.Disk.CommitRestore | internal/store/backup.go:672-739 | With a failure at any forward move, either every destination holds its staged content and nothing else outside staging changed, or everything outside staging is as before; the staged copies moved before the first failure are gone, the others are unchanged |
| Restore.Disk.MoveIn | internal/store/backup.go:698-721 | A move keeps what it replaces, or undoes itself |
| Restore.Disk.Rollback | internal/store/backup.go:689-697 | Undoing the moves last first restores every file |
| Restore.PathsDiffer | internal/store/backup.go:697-738 | Distinct files have distinct destinations, staged copies and backups |
| Restore.DestIsOutside | internal/store/backup.go:697-738 | No destination lies in the staging directory |
| Restore.ValidPathStaysInside | internal/store/backup.go:419-428 | A valid artifact path never leads out of its directory |
| RateLimit.WindowIsLimited | internal/api/webhook.go:43-65 | A trigger is allowed at most 60 + (t2 - t1) times in any window of seconds, whatever came before |
| RateLimit.TokensPay | internal/api/webhook.go:51-62 | With any clock, the calls allowed are paid for by the first refill and the time the bucket has seen |
| RateLimit.RetryAfterIsLeast | internal/api/webhook.go:60-64 | A denied call names exactly the least wait after which the next call is allowed |
| RateLimit.Limiter.Allow | internal/api/webhook.go:43-65 | Changes the bucket of the trigger and no other |
| Replay.AppendsExactlyWhen | internal/store/event.go:127-194 | An event is appended exactly if its key and id are new, its number follows those of its run, its run and the events it refers to are there, and its projection succeeds |
| ProjectionRules.ProjectsExactlyWhen | internal/store/projection.go:321-917 | Which events can be projected on which tables, kind by kind: what each handler needs, and what the unique indexes on artifacts, outcomes and pending waits refuse |
| Replay.LiveKeysAreUnique | internal/store/event.go:127-194 | In a log built by the store no two events share an id, or a key other than the empty one |
| AttemptHistory.AttemptRowTells | internal/store/projection.go:369-612 | An attempt row is running, succeeded, failed or uncertain as the last event about the attempt says, with that event's time and result, or cancelled by a cancellation that found it running or uncertain; a cancelled attempt stays so until it is started again or reported as a failed attempt |
| AttemptHistory.AttemptRowCarries | internal/store/projection.go:369-482 | An attempt row has the id, key, executor and contract of the event that made it, the time of the first start, and the last lease given |
| AttemptHistory.RowExactlyIfMade | internal/store/projection.go:369-482 | An attempt has a row exactly if it was started under a key, or ended under a key with its number given |
| RunHistory.NodeRowTells | internal/store/projection.go:369-612 | A node's status comes from an event that gives it, the time of an end from such an event, and the starting time from its first start |
| RunHistory.RunRowShows | internal/store/projection.go:329-367 | A started run has a row with what its first start says, the time its first node started, and the status and time of its last end |
| RunHistory.ParamRowTells | internal/store/projection.go:329-367 | A parameter has a row exactly if a start of the run lists it, and the row is the first entry of its name in the first such start |
| RecordHistory.RecordsTell | internal/store/projection.go:611-790 | Each traversed edge, failed evaluation, decision with its links, and end of a run has the row its event says, for good |
| RunRetries.RetriedExactlyIfAttemptsAreLeft | internal/controller/outcomes.go:140-153 | In every reachable state a failed attempt a puts its node back exactly if a < max_attempts and fails it exactly if a >= max_attempts; the events are given and no other node moves |
| RunRetries.FailureLeavesAskedNode | internal/controller/outcomes.go:116-153 | The failure of an attempt leaves a node that was asked to stop as it is |
| RunRetries.EveryAttemptIsMade | internal/controller/outcomes.go:140-153 | From every reachable state with an attempt under way, failures lead to exactly as many further starts as attempts are left, and then the node fails |
| RunOutcomes.DecisionTakes | internal/controller/approval.go:358-435 | A grant goes exactly by the routes "success" and "". A denial goes by the first route "denied" or "failure" and traverses only such, unconditional and dependency edges; without one the node fails and nothing is traversed |
| RunOutcomes.LapseTakes | internal/controller/approval.go:510-560 | An approval that lapses goes by the first route "expired" or "timeout", or fails its node |
| RunOutcomes.WaitTakes | internal/controller/external_wait.go:852-905 | A completed wait goes exactly by its route; one whose time is up goes by the first route "timeout" or "expired", or fails its node |
| RunOutcomes.SuccessTakes | internal/controller/outcomes.go:155-203 | A result goes exactly by its route, a router by its unconditional routes, and a node that was asked to stop is cancelled and goes nowhere |
| RunOutcomes.FinishingGoes | internal/controller/outcomes.go:244-352 | Finishing traverses the dependency edges of a node and those routes whose condition fits, skips exactly the targets passed over that have no row, and leaves the other rows alone |
| RunDecisions.DecisionsAreExact | internal/controller/decisions.go:70-180 | No decision without routes, one rejection when all are left out, else one for each route taken in edge order; the targets passed over are named once each |
| RunMoves.ListsExactly | internal/controller/engine.go:55-166 | A step lists exactly the defined nodes that are eligible, or pending with their dependencies done and routes traversed, each for its next attempt |
| RunMoves.ClaimsExactly | internal/controller/engine.go:251-286 | A listed node is started exactly if it is pending or eligible, under the number and key of its attempt; otherwise it is dropped |
| RunMoves.FailsWithoutStart | internal/controller/outcomes.go:30-49 | A listed task that cannot be started fails without a start; the event names the key exactly if the invocation was rejected |
| RunMoves.ExecutionEnds | internal/controller/outcomes.go:51-101 | An uncertain result, a death and a cancellation of an execution leave the node uncertain, failed and cancelled; one that was asked to stop only becomes cancelled |
| RunMoves.EndsExactly | internal/controller/reconciler.go:190-252 | A run fails exactly if a node failed, is cancelled exactly if all rows have ended and one was cancelled, completes exactly if all defined nodes are done, and otherwise stays open |
| RunMoves.CancelsExactly | internal/controller/cancel.go:13-196 | Cancelling asks every attempt under way to stop, leaves ended nodes, cancels the others and all pending waits; the run is cancelled exactly if nothing was under way |
| RunMoves.AsksExactly | internal/controller/approval.go:56-150 | Asking for an approval makes the node wait with a new open approval exactly if the run and the node are running and no decision is outstanding |
| RunMoves.GateWaitsExactly | internal/controller/external_wait.go:912-949 | A gate waits, with a new pending wait if it listens, exactly under the stated conditions; otherwise nothing but its execution ends |
| RunMoves.ScansExactly | internal/controller/recover.go:17-58 | A recovery reads each node with an attempt under way whose lease does not run, once, with whether it was asked to stop |
| RunMoves.VisitsOn | internal/controller/recover.go:27-116 | What a recovery still visits after a candidate: nothing after an error |
| RunMoves.RecoversExactly | internal/controller/recover.go:65-116 | A candidate is put back, resumed, reconciled or made to wait as its contract says |
| RunMoves.RecoversAskedExactly | internal/controller/recover.go:85-98 | A candidate that was asked to stop is cancelled exactly if it was so when it was read, is pure and has an attempt |
| RunMoves.AnswersExactly | internal/controller/recover.go:116-250 | A confirmed effect finishes its node by the route of the result, an absent or rejected one puts it back, an unknown one leaves it waiting, and bad parameters fail it; a node asked to stop is cancelled by the first three |
| WaitReplies.MalformedExactlyWhen | internal/controller/external_wait.go:387-485 | A delivery is malformed exactly if a text is empty, too long, looks like a credential or has control characters, or the payload is not normal |
| WaitReplies.RepliesExactlyWhen | internal/controller/external_wait.go:485-600 | Each reply has its exact condition in terms of the fields: accepted means well formed, a new event id, a pending wait of a running run with that event type and correlation key, a terminal status, and no success against an unmet condition |
| WaitReplies.CompletedByItsOwnDelivery | internal/controller/external_wait.go:485-600 | Over any calls a completed wait was completed by an accepted delivery for it with its event type and correlation key |
| WaitReplies.RegistersExactlyWhen | internal/controller/external_wait.go:68-252 | A wait is registered exactly if the request is in order, the id is free, no pending wait has the pair or the node, and the node has not ended |
| WaitReplies.ReusesExactlyWhen | internal/controller/external_wait.go:94-160 | A registration under an id of its own gets the wait of that id exactly if it asks for the same |
| WaitReplies.UnnamedReusesExactlyWhen | internal/controller/external_wait.go:106-123 | A registration without an id gets a pending wait of its node, event type and key exactly if there is one, whatever its condition |
| WaitReplies.RegisteringTwiceReuses | internal/controller/external_wait.go:94-252 | Registering the same once more finds the wait that was made and changes nothing |
| WaitReplies.ExpiresExactlyWhen | internal/controller/external_wait.go:811-850 | A wait expires exactly if it is pending and its time is up |
| WaitReplies.WaitsAreAccountedFor | internal/controller/external_wait.go:68-910 | Over any calls every wait is what a registration asked for, expired only at or after its time, and cancelled only by a cancellation |
| ApprovalReplies.RepliesExactlyWhen | internal/controller/approval.go:187-330 | Each reply to a decision has its exact condition in terms of the fields; one that comes at or after the expiry time is too late |
| ApprovalReplies.DoneIsAsAsked | internal/controller/approval.go:313-358 | An accepted decision records the verdict, actor and key that were asked for |
| ApprovalReplies.ApprovalsAreAccountedFor | internal/controller/approval.go:56-423 | Over any calls every approval was asked for by a registration, for seven days unless it says otherwise, and decided by a call in time |
| ApprovalReplies.AsksExactlyWhen | internal/controller/approval.go:56-150 | An approval is made exactly if the run is running, the node has not ended and has no undecided approval |
| ApprovalReplies.LapsesExactlyWhen | internal/controller/approval.go:468-505 | An expiry is recorded exactly for an undecided approval of a running run whose time is up and whose expiry key is free |
| ApprovalReplies.LapsesAfterItsTime | internal/controller/approval.go:454-505 | Over any calls an approval lapses only at or after its time |
| ApprovalReplies.OneUndecidedPerNode | internal/controller/approval.go:56-150 | Over any calls a node has at most one approval without a decision |
| Conditions.FollowsExactly | internal/controller/external_wait.go:726-743 | A dotted path leads to a value exactly if objects lead there entry by entry |
| Conditions.HoldsExactly | internal/controller/external_wait.go:726-760 | An entry holds exactly if its path leads to its own value, or is "status" and the value the delivered status, and the value is no list or object |
| Conditions.NormalizedIsClean | internal/controller/external_wait.go:309-385 | At any depth a normalised payload has only bounded texts without control characters or secrets, bounded whole numbers, and the one object of required checks |
| WaitReplies.UnfinishedExactlyWhen | internal/controller/external_wait.go:704-710 | A status is not terminal exactly if it is one of the six words in any capitalisation |
| Calendar.WeekdaysGoRound | internal/controller/cron.go:111-130 | 1 January 1970 is a Thursday, and each day has the next date and the next weekday |
| Calendar.WeekdayOfDate | internal/controller/cron.go:111-130 | The weekday counted from the epoch is that of a formula in year, month and day |
| CronSearch.MatchesExactlyAt | internal/controller/cron.go:111-130 | At a minute of a date a schedule matches exactly if it has the minute, hour and month and the day of the month or the weekday, both if one of them is unrestricted |
| CronGrammar.AcceptsExactly | internal/controller/cron.go:26-98 | An expression is accepted exactly if it has five fields that are lists of ranges with steps within their bounds |
| CronGrammar.ListSetsExactly | internal/controller/cron.go:51-98 | A list sets exactly the values its elements name, spelled out without the parser; as a weekday 7 is 0 |
| Scheduling.FiresExactlyWhen | internal/store/schedule.go:182-224 | A tick fires exactly if the schedule is enabled, the tick is due, a run can start, a later tick is found and it is not due |
| Scheduling.SkipsExactlyWhen | internal/store/schedule.go:182-277 | Ticks are skipped exactly if more than one is due and a later one is found from each |
| Canonical.LessIsBytewise | internal/compiler/canonical.go:66 | The order of keys is that of their first differing byte, a prefix first |
| Decoding.EscapesShortly | internal/compiler/canonical.go:127-152 | A string takes one byte for each plain byte, two for each with a short escape, six for other control characters |
| Refusals.EncodedExactlyWhen | internal/compiler/canonical.go:34-125 | A definition has an encoding exactly if every integer in it is in range, every float lies under an x-* key or the top params, and no node is of another kind |
| Refusals.FloatsAreRefused | internal/compiler/canonical.go:107-112 | A float outside these places refuses the definition |
| RateLimit.BurstIsExact | internal/api/webhook.go:43-65 | Of any number of calls on a new trigger at one instant exactly the first 60 are allowed |
| RateLimit.SteadyIsAllowed | internal/api/webhook.go:43-65 | Calls a second apart are all allowed, whatever came before |
| Gc.CollectedExactlyWhen | internal/store/gc.go:98-140 | A run is a candidate exactly if it has ended before the cutoff, is not kept, and no proposal holds an approval of it or cites a metric of its outcome |

## Left out

- Replay.RebuildTheorem: the direct insert of a waiting run node when an external wait is registered for a
  node without a row (`internal/controller/external_wait.go:186-193`) is not part of the log model: it gives
  the row a random id that a rebuild cannot reproduce. In the engine it does not occur, since a gate is
  claimed before it registers its wait.
- Projection and Replay: surrogate keys of run_node and node_attempt rows are left out (rows are keyed by
  run, node and attempt number). The unique constraints on the rows of one run are part of the handlers. Those
  on operation keys, decision keys and completing events span all runs and are not checked: an operation key
  names its run (`OperationKeys.KeysIdentifyAttempts`), an approval is decided once and
  under the key of one event (`Approvals.RuledAtMostOnce`), and a wait is completed once, by an event recorded
  for it (`Waits.WaitsAreSound`). A log with two decisions of one approval, which the transactions never
  append, could meet the second of these when it is replayed.
- RunTables.TablesFollowRun: compares status and attempt count, not the times of a row.
- RunEngine: artifacts, effect intents and receipts, capability approvals and lease rows add events that
  change no status and are not appended (`Artifacts` proves on the event log what a refused one does);
  attribution and evidence of decisions are constants.
- RunEngine: one driver per run, and no recovery beside it, which the controller's lease ensures between
  processes. Within one serving process the ticker, a schedule and a request can drain or recover one run at
  the same time (`cmd/proceed/serve.go:116-119`, `internal/controller/cron.go:168`); that is not modelled.
- RunEngine: recovery reads the candidates of a run in the same order on every pass; the query that reads them
  has no ORDER BY, so that the order is the database's choice (`internal/controller/recover.go:19-27`).
- RunEngine: an executor kind that a definition names is registered; with an unknown kind recovery ends with
  an error, as for a node without an executor.
- RunOutcomes: of several alternate routes of a node the queries take any one (LIMIT 1 without ORDER BY); the model
  takes the first edge (`internal/controller/approval.go:427-435`).
- RunEngine: `tryCompleteRun` looks for an earlier terminal event before it appends one; `RunEnding.RunEndsOnce`
  shows that there is none while the run is running.
- RunController: running the nodes of a step in parallel, heartbeats and the lease loop of `Drain`.
- Approvals and Waits: events that others append have any key; a generated key is taken to differ from every
  key a client or provider chooses. Which strings look like credentials is a parameter.
- Waits: the digest of a payload is compared outside the model; JSON text is given decoded.
- Cron: machine-integer overflow of huge steps, and separators of fields outside ASCII.
- Scheduling: concurrent calls; the calls are serial.
- Canonical: floats are encoded by a parameter and excluded from the claims about equal bytes, since 1.0 and
  1 are written alike; aliases that contain themselves; documents that YAML does not accept; key collation
  other than bytewise.
- Restore.Disk.CommitRestore: manifest paths are distinct and the renames of a rollback succeed; directories
  and symbolic links are not modelled (the check for links is an input).
- RateLimit: rounding of binary floating point.
- SQL text, SQLite locking and files, flock, WAL and PRAGMAs.
- Executors, sandboxing, processes, secrets and redaction.
- HTTP routing, authentication, the command line, the dashboard, export rendering, the GitHub adapter.
- YAML parsing and the compiler's other passes, which are guards with single branches.
- Archive reading, staging and validation before a restore; sweeping orphan files and writing the record
  after a collection.
- The event fallback of the why query, which applies status events without the cancellation guards.
- Proposals, metrics, configuration and capability checks.
