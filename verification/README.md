# genroc: a verified model

genroc is a durable workflow engine: process instances are rows in a database, workers claim rows
under leases, and every step of a process is one transaction.  This project models its step
protocols and its harder algorithms in Dafny and proves what they keep.

A transaction is one atomic step.  Each protocol is a state machine over the rows it touches and
the copies of them that workers hold in memory, so a worker may stall, be taken over and come back
at any point; the main results are about every state of every run.  Where the source updates rows
or walks a structure in place there is a method or a class proved against the function the state
machine uses.

| module | component |
|---|---|
| `Wrappers`, `Statuses` | what the components share |
| `Tree`, `Statements`, `Settle`, `Writes`, `Verbs`, `Stops`, `Revive`, `Lifecycle`, `Runs`, `Wakes`, `Answers`, `RetryRace` | the process tree: spawn, finish, fail, pause, cancel, resume, retry, and the climb that settles draining rows |
| `LifecycleDb`, `ReviveWalk` | the same transactions as loops over the table, with the rows each one locks |
| `Lease` | worker leases, the fence, and only_once |
| `External`, `ExternalRuns`, `ExternalLoss`, `ExternalGaps`, `ExternalDb` | the external-task queue: parks, buffered answers, claims and tokens |
| `ObjectStore`, `ObjectDb` | object claims and the grace-period sweep |
| `Values`, `Cuts`, `Encoding`, `CutModel`, `CutFits`, `CutChoice`, `ObjectCut`, `StateCodec` | cutting a value, its sizes, and the context's columns |
| `Keyset`, `Paginate` | keyset pagination |
| `TopoSort`, `BatchPlan` | planning a batch of definitions |
| `Clock`, `Wall`, `Duration` | calendar patterns, wall clocks and duration literals |
| `Durability` | the durability ladder |

## What does not hold

Some properties the code is meant to have fail on particular inputs.  The model keeps the code as
it is, gives the failing run, and proves the condition.

- A retry reads that the root has failed before its transaction opens and does not read it again
  under the lock.  `Revive.StaleRetryExact` says exactly when the tree survives that;
  `RetryRace.StaleRetryBreaksDrain` is a run of two overlapping retries after which it does not.
- Between two landed writes an only_once action can start twice if a worker stalls between its claim
  and its action, is taken over, and wakes after the task was routed back into and claimed afresh
  (`Lease.StalledStartsTwice`).  It never does while every only_once start is made before a claim's
  cutoff reaches its lease (`Lease.OnlyOnceInTime`), nor, in any run, counted by the grants issued
  between two writes (`Lease.OnlyOnce`).
- One parking can accept two resolves: a pause lands from a holder whose lease lapsed, writing back
  the park over a row an answer had un-parked (`ExternalGaps.ParkAnsweredTwice`).
  `ExternalRuns.ReparkExact` says exactly which step does it, and `ExternalRuns.PoliteRuns` that it
  cannot happen when no un-park meets a row that still names a holder.
- The interrupted verdict on a parked only_once task, routed to another task, does not clear the
  park: the row then waits at a task nobody armed and no engine claim takes it
  (`ExternalGaps.RoutedYetParked`, exactly characterised by `ExternalRuns.MisparkExact`).
- The loss of a holder is a mark on the row, and two writes take it along to the next arming: the
  verdict on an interrupted only_once wait whose rule routes onwards, and the retry of an instance that
  failed with the mark on.  The next wait's deadline is then reported as a lost claim
  (`ExternalGaps.LossCarried`; `ExternalLoss.CarriedExact` says exactly which writes do it, and
  `ExternalLoss.TimeoutIsTimeout` that without them a deadline is reported as a deadline).
- Re-planning a committed batch saves nothing and keeps every version exactly when no definition it
  saved refers to itself by the version it was assigned, or by the next (`BatchPlan.ReplanSavesNothing`).
  Otherwise such a definition may be saved a second time (`BatchPlan.SelfVersionSavesAgain`, and
  `BatchPlan.SavedAgainExact` for exactly when), or not be saved and fall back to an older version,
  taking its channel with it (`BatchPlan.SelfVersionMovesBack`).
- A wall clock repeated by a backward jump that is not one hour resolves to whichever occurrence the
  date constructor picked (`Wall.BackwardExact`).
- A page that comes up empty reports no rows on either side, which is right exactly when the table has
  none (`Paginate.EmptyPageInfo`); every other table has such pages, past its last row and ahead of its
  first (`Paginate.PastTheEnds`).
- With connections that do not flush per commit no durability level flushes anything
  (`Durability.WeakBaseFlushesNothing`).

The comment at `internal/db/db_instances.go:405-407` says a progress write lands a pending pause; the
statement leaves the status alone, and the model follows the statement.

## Model

| member | source | states |
|---|---|---|
| `Runs.DrainSafety` | internal/db/db_lifecycle.go:206-250 | in every state of every run of claims, writes and verbs, no row below a paused or concluded row is busy, at any depth |
| `Runs.NoWedgedParent` | internal/db/db_lifecycle.go:217-247 | in every state of every run, a busy row waiting on children has a busy child in its current batch, and a suspended one has a child that has not concluded |
| `Runs.SomeoneToAct` | internal/db/db_claim.go:74-83 | at or below every busy row there is one that is held or that the claim may grant |
| `Runs.StepKeeps` | internal/db/db_lifecycle.go:18-130 | every step (create, claim, un-park, any engine write, pause, cancel, resume, retry) keeps the tree invariant and what held copies remember of their rows |
| `Runs.RunKeeps` | internal/db/db_lifecycle.go:871-967 | the invariant holds in every reachable state |
| `Runs.FinishedForGood` | internal/db/db_lifecycle.go:715-757 | over every run a row that has completed, raised or been cancelled keeps that status and its place in every later state, retries included |
| `Runs.PauseVerdict` | internal/db/db_lifecycle.go:348-430 | "applied" means the root is paused and nothing in its tree is busy; "accepted" means the root itself reports pausing |
| `Answers.PauseExact` | internal/db/db_lifecycle.go:348-430 | the answer of a pause, told by the root and by whether anything in its tree is held, and the row it leaves for every row of the table |
| `Answers.CancelExact` | internal/db/db_lifecycle.go:348-430 | the same for a cancel: it stops what runs or is paused, draining what is held or above a held row, and is refused while another stop is under way |
| `Answers.CancelVerdict` | internal/db/db_lifecycle.go:422-430 | applied means the root is cancelled and nothing in its tree is live; accepted that the root and everything live below it are being cancelled; anything else changed nothing |
| `Answers.ResumeExact` | internal/db/db_lifecycle.go:488-562 | applied iff the root is a root, neither draining nor failed, with a paused row in its tree; then exactly the tree's paused rows run, all else kept, and any other answer leaves the table alone |
| `Answers.ResumeVerdict` | internal/db/db_lifecycle.go:517-562 | in a well-formed tree: applied iff the root is paused, unchanged iff it runs, refused otherwise; applied leaves everything live in the tree running |
| `Answers.RetryVerdict` | internal/db/db_lifecycle.go:612-866 | applied iff the root failed and the retry is forced or re-enters no only_once task; exactly the paused rows and the rows the walk reaches run again |
| `Wakes.WokenParent` | internal/db/queries.sql:240-249 | over every run, a live row stops waiting on its children only when a row below it stops; it collects iff it runs or is suspended, at the task and epoch it waited at, with nothing live left below it |
| `Wakes.StopReachesParent` | internal/db/db_lifecycle.go:217-250 | over every run, the exact row a landed stop leaves for the parent: the last child of a running parent leaves it running and collecting, a failed one fails it, a busy sibling keeps it waiting |
| `Wakes.FailureSpreads` | internal/db/db_lifecycle.go:60-130 | over every run, a child's failure leaves every row above it failing or failed, stops or drains whatever else ran in the tree, and moves no other row; a tree being cancelled goes on being cancelled |
| `Wakes.CheckpointLands` | internal/db/queries.sql:83-133 | over every run, a landed checkpoint leaves the writer at the task, epoch and phase asked for, let go of, a stop that came meanwhile still pending, and moves no other row |
| `Wakes.BatchLands` | internal/db/db_lifecycle.go:871-967 | over every run, a landed batch adds exactly its rows, each free to be claimed and in the batch the writer now waits on, and retires only the attempts it replaces |
| `Wakes.BatchRefused` | internal/db/db_lifecycle.go:871-967 | over every run, a batch is refused whole unless its writer still holds its grant in the phase a batch is spawned from |
| `Wakes.StopLands` | internal/engine/error.go:254-285 | over every run, a landed stop leaves the writer as its advance concluded, or at rest or cancelled as the operator's stop asked, all else kept |
| `Wakes.ParkEnds` | internal/db/queries.sql:166-188 | over every run, an answer un-parks exactly a row that still takes answers, and a park ends in no other way than that, its holder's write or a retry |
| `Settle.SettleStep` | internal/db/db_lifecycle.go:217-247 | one turn of the climb repairs the parent and leaves at most the next parent in question |
| `Settle.ClimbKeeps` | internal/db/db_lifecycle.go:206-250 | the whole climb restores the invariant from a tree in which only the stopped child's parent was in question |
| `Writes.RowWriteKeeps` | internal/db/queries.sql:83-114 | a write to a row that waits on nobody keeps the tree except possibly what its parent is owed |
| `Writes.SpawnKeeps` | internal/db/db_lifecycle.go:871-967 | inserting or replacing a batch and parking the parent keeps the invariant |
| `Verbs.PauseKeeps` | internal/db/queries.sql:279-291 | pausing a whole tree keeps the invariant: rows above a held row drain, the rest stop |
| `Verbs.FailLater` | internal/db/queries.sql:270-278 | a failure in a tree that is already failing keeps the invariant up to the failed row's parent |
| `Verbs.FailFirst` | internal/db/db_lifecycle.go:60-130 | the failure that poisons a tree, marking ancestors and pausing the rest, keeps it too |
| `Stops.CancelKeeps` | internal/db/queries.sql:292-303 | cancelling a tree keeps the invariant |
| `Stops.ResumeKeeps` | internal/db/db_lifecycle.go:488-562 | resuming a paused tree keeps the invariant; what it does to each row is `Answers.ResumeExact` |
| `Lifecycle.StopKeeps` | internal/db/db_lifecycle.go:18-130 | a child's conclusion, with the ancestors it fails and the climb it starts, keeps the invariant |
| `Lifecycle.WriteKeeps` | internal/engine/advance.go:53-82 | any landed engine write of a claimed copy, those that keep its phase included, keeps the invariant, whatever was done to the row while it was held |
| `LifecycleDb.Db.SettleUp` | internal/db/db_lifecycle.go:206-250 | the climbing loop computes the recursive climb, and settles only rows of the stack; what the climb leaves is `Wakes.WokenParent` and `Wakes.StopReachesParent` |
| `LifecycleDb.Db.FinishChild` | internal/db/db_lifecycle.go:18-58 | lands exactly under the current grant; refused it changes nothing; every row it changes is one its final lock scope covers |
| `LifecycleDb.Db.FailInstanceAndAncestors` | internal/db/db_lifecycle.go:60-130 | the same for a failure, whose scope widens to the live tree exactly when it poisons the root |
| `LifecycleDb.Db.SpawnAndWait` | internal/db/db_lifecycle.go:871-967 | refused whole unless grant and phase still match; otherwise the batch is in and the parent parked |
| `LifecycleDb.FinishLocked` | internal/db/db_lifecycle.go:150-200 | every row a finish changes is in the scope it locks |
| `LifecycleDb.FailLocked` | internal/db/db_lifecycle.go:150-200 | every row a failure changes is in the scope it locks |
| `Revive.RetryKeeps` | internal/db/db_lifecycle.go:612-866 | retrying a failed root gives a tree that keeps the invariant, with a running root |
| `Revive.RetryPhases` | internal/db/db_lifecycle.go:720-800 | a revived row waits on children iff its current batch has an unfinished row, collects iff the batch exists and is finished, else has no phase; its task epoch moves iff it has no batch |
| `Revive.RetryOnlyOnce` | internal/db/db_lifecycle.go:720-745 | an unforced retry that succeeds re-enters no only_once task from the top |
| `Revive.RetryRunsWhole` | internal/db/db_lifecycle.go:799-866 | everything left live in the tree runs, under running rows that wait on children |
| `Revive.StaleRetryExact` | internal/db/db_lifecycle.go:618-648 | run on a root that is no longer failed, the retry keeps the invariant iff the root is not draining over a paused row |
| `RetryRace.StaleRetryBreaksDrain` | internal/db/db_lifecycle.go:618-648 | a run (fail, retry, fail again) and a second retry's transaction, its status read in an earlier state, that leaves a running row below a failed one |
| `ReviveWalk.Walk.Revive` | internal/db/db_lifecycle.go:719-798 | the recursive walk revives exactly the rows it reaches, keeps every other, and refuses exactly when it meets an only_once row without a batch |
| `ReviveWalk.RetryProcess` | internal/db/db_lifecycle.go:612-866 | the walk and the un-pausing after it compute the specified table, or the refusal |
| `Lease.RunTaskLoop` | internal/engine/advance.go:276-409 | the advance's task loop computes TaskLoop, whose end `Lease.LoopFollows` describes |
| `Lease.LoopFollows` | internal/engine/advance.go:276-409 | the loop goes along the path of its switches and reports exactly where that path stands: off the list, before an only_once action it moved to, at the task whose action answered for it or where the error rule sent it, at the task that ended or faulted, or at the switch's target after an action or a thousand moves |
| `Lease.PathUnique` | internal/engine/advance.go:381-409 | the switches leave one such path |
| `Lease.RowFollowsRoutes` | internal/engine/advance.go:393-409 | over every run, the task a landed write leaves on its row is where the path of that grant's own advance, begun at the task the row named, stands; or where the verdict on an interrupted action, a pause or a cancel left it |
| `Lease.ClaimGranted` | internal/db/db_claim.go:74-83 | over every run, a claim is granted exactly on a row that may run and is unheld or past its lease, and the grant knows whether it was a takeover |
| `Lease.AdvanceStarts` | internal/engine/advance.go:223-265 | no advance starts more than one action, and the only only_once action it may start is the one its row named, claimed without a takeover and running |
| `Lease.RunKeeps` | internal/db/db_claim.go:63-201 | the grant and log invariants hold in every reachable state of claims, renewals, runs, writes and status changes |
| `Lease.GrantLandsOnce` | internal/db/db_instances.go:319-338 | over every run each grant lands at most one write, and is spent once it has |
| `Lease.SupersededNeverLands` | internal/db/db_instances.go:319-338 | once a later claim has superseded a grant, none of its writes lands ever after |
| `Lease.OnlyOnce` | internal/engine/advance.go:223-232 | of all grants issued between two landed writes of a row at most one starts an only_once action, and once |
| `Lease.OnlyOnceInTime` | internal/db/db_claim.go:74-83 | if every only_once start is made while no claim's cutoff has reached its lease, each window between two landed writes of a row holds at most one |
| `Lease.OnlyOnceCurrent` | internal/engine/advance.go:306-310 | between two landed writes at most one only_once action starts under a grant the row still carries |
| `Lease.StalledStartsTwice` | internal/engine/advance.go:223-232 | a run in which a stalled worker's late start and the new holder's fall between the same two writes |
| `Lease.LiveLeaseHolds` | internal/db/db_claim.go:74-83 | a lease no claim's cutoff has reached stays fenced until its own write, whatever other grants try |
| `Lease.LeaseTable.RenewWorkerLeases` | internal/db/db_claim.go:20-52 | renewing chunk by chunk terminates and renews exactly this worker's lapsing rows |
| `Lease.ChunkRenews` | internal/db/db_claim.go:20-52 | a renewed chunk leaves the rest still to renew, and renewing again changes nothing |
| `ExternalRuns.AnswersConserved` | internal/db/db_signals.go:84-201 | over every run, per task, delivered outcomes are those consumed, oldest first and once each, followed by those still buffered |
| `ExternalRuns.NoStrandedAnswer` | internal/db/db_signals.go:117-150 | a parked row has no answer buffered, unless its delivery met a live lease or claim or one of the two named writes landed |
| `External.ArmDeliverRace` | internal/db/db_signals.go:17-151 | delivered first, the row never parks; armed first, delivery un-parks it exactly when no claim is live; the queue ends the same |
| `ExternalRuns.GrantedUnanswered` | internal/db/db_external_claim.go:47-69 | over every run, a queue worker is granted a wait only when every outcome ever buffered for it has been consumed |
| `ExternalRuns.ResolveLands` | internal/db/db_external.go:29-98 | in every run a resolve lands exactly on an open wait of its epoch with no engine lease live: with a two-part token while no claim is live, with a three-part one while it names the current claim |
| `External.DeleteOldest` | internal/db/queries.sql:157-165 | deleting the oldest outcome of a task takes it and nothing else |
| `ExternalRuns.OneAnswerPerParking` | internal/db/db_external.go:49-98 | each parking accepts at most one resolve, unless a re-parking write has landed |
| `ExternalRuns.ClaimEpochStep` | internal/db/db_external_claim.go:193-299 | the claim epoch rises exactly on a grant, a release and a loss |
| `ExternalRuns.TokenVoidedForGood` | internal/db/db_external_claim.go:239-299 | a grant, release or loss voids every earlier claim token in every later state |
| `ExternalRuns.TokenKept` | internal/db/db_external.go:26-39 | expiry, renewal and anything else void none: the holder's token stays good while the row stays parked |
| `ExternalRuns.StepKeeps` | internal/engine/action.go:329-412 | every step keeps the protocol's invariant, stalled copies included |
| `ExternalRuns.ReparkExact` | internal/engine/error.go:254-265 | an answered, un-parked row is parked again under its epoch iff a holder that loaded it parked lands a write keeping what it loaded |
| `ExternalRuns.MisparkExact` | internal/engine/error.go:71-155 | a row is left parked under an epoch no arm opened iff the interrupted verdict on a parked task is routed onwards |
| `ExternalRuns.PoliteRuns` | internal/db/db_signals.go:119-146 | if every un-park finds its row unheld, no parking accepts two resolves |
| `ExternalLoss.LossTaken` | internal/db/queries.sql:354-361 | over every run, a loss is accepted exactly on the arming the row is parked on; it takes the claim and voids its token, no queue claim is granted on it, and the engine may take the row from that moment, unless a worker still holds it |
| `ExternalLoss.LossReported` | internal/engine/action.go:361-371 | over every run, the worker that takes the row after a loss sees a lost holder while it is parked and unanswered, and in no case a timeout |
| `ExternalLoss.ParkedClaimable` | internal/db/db_claim.go:74-83 | a running row nobody holds is the engine's to take once its deadline has passed if it is parked, never while it waits on its children, and else at once or when it is to be woken |
| `ExternalLoss.LeaseRenewed` | internal/db/queries.sql:192-206 | over every run, a renewal moves the end of its worker's own lease, never back, and nothing else |
| `ExternalLoss.TimeoutIsTimeout` | internal/engine/action.go:361-371 | over every run in which no write carries a mark along, a parked row whose arming lost no holder looks timed out, never lost |
| `ExternalLoss.CarriedExact` | internal/engine/error.go:139-151 | a mark reaches another arming iff the interrupted verdict routes a marked copy onwards or a retry re-enters a task that failed with the mark on |
| `ExternalLoss.ErasedExact` | internal/engine/error.go:254-265 | a mark comes off a row that stays parked on its arming iff a holder whose copy is older writes back what it loaded |
| `ExternalLoss.LiveClaimHolds` | internal/db/db_external_claim.go:20-25 | over every run, a grant keeps its holder and its token until it is handed back, marked lost, has run out when another asks, or the task is armed anew |
| `ExternalLoss.ArmingEndsClaim` | internal/db/queries.sql:83-114 | whatever moves the task epoch ends the claim |
| `ExternalLoss.ReleaseFrees` | internal/db/db_external_claim.go:242-263 | a claim handed back is free at once: an answer that deferred to it goes to the engine, and without one the next worker is granted the task iff it runs and its deadline is ahead |
| `ExternalLoss.GrantHolds` | internal/db/db_external_claim.go:47-69 | a grant names its worker, its end and a new epoch; until then no other is granted, no two-part token is accepted, and a delivery defers to it |
| `ExternalLoss.RenewExact` | internal/db/queries.sql:324-340 | a renewal is lost iff the grant is no longer the row's, cancelled iff it is and the row is being cancelled, and otherwise moves the end of the grant and nothing else |
| `ExternalLoss.WriteFollows` | internal/db/db_instances.go:244-300 | over every run, a landed write lets the row go at the task, epoch, wake time and status its advance came to, and only one that consumed an answer takes one from the queue |
| `ExternalGaps.ParkAnsweredTwice` | internal/engine/error.go:254-265 | a run in which one parking accepts two resolves |
| `ExternalGaps.RoutedYetParked` | internal/engine/advance.go:223-232 | a run that leaves a row parked at a task that is not external and that no engine claim can take |
| `ExternalGaps.LossCarried` | internal/engine/error.go:139-151 | a run in which a wait nobody ever claimed is reported lost when its deadline passes |
| `ExternalDb.TaskDb.ArmExternalUnlessSignalled` | internal/db/db_signals.go:17-79 | missing, fenced out and unchanged, or parked unless answered |
| `ExternalDb.TaskDb.DeliverSignal` | internal/db/db_signals.go:84-151 | missing, refused by status and unchanged, or buffered and un-parked exactly as reported |
| `ExternalDb.TaskDb.ResolveExternalTask` | internal/db/db_external.go:49-101 | accepted exactly when Accepts holds; refused it changes nothing |
| `ExternalDb.TaskDb.ClaimExternalTasks` | internal/db/db_external_claim.go:27-173 | takes up to the limit of the candidates, oldest park first, all of them if there are fewer; lists each granted row once and no answered one |
| `ExternalDb.TaskDb.RenewExternalClaims` | internal/db/db_external_claim.go:196-237 | every claim is answered as if alone, and exactly the renewed grants are re-stamped |
| `ExternalDb.TaskDb.ReleaseExternalClaim` | internal/db/db_external_claim.go:242-263 | released exactly for the current grant; a deferred answer goes to the engine |
| `ExternalDb.TaskDb.MarkExternalClaimLost` | internal/db/db_external_claim.go:286-299 | refused exactly unless the row is parked on this arming, and otherwise MarkLost, whose effect is `ExternalLoss.LossTaken` and `ExternalLoss.LossReported` |
| `ExternalDb.Instance.RunExternal` | internal/engine/action.go:329-412 | the look comes to LookOf: an answer wins over deadline and loss and is the only thing consumed; a wait that ends is cleared whole; a first arrival changes nothing |
| `ObjectStore.ClaimsMatchReferences` | internal/db/db_objects.go:94-145 | in every state of every run with the sweep, an instance claims exactly the hashes its row lists, and each has its content |
| `ObjectStore.CollectedWasMarked` | internal/db/db_objects.go:149-171 | collected content was unclaimed, and had carried its mark without a break since a sweep more than the grace period earlier found it unclaimed |
| `ObjectStore.LogContentStays` | internal/db/db_objects.go:94-122 | content an audit row could fetch when written stays as long as the row |
| `ObjectStore.GoneAfterGrace` | internal/db/queries.sql:440-446 | over every run, content unclaimed and unwritten since a mark older than the grace period is gone after the next collection, however many sweeps came between |
| `ObjectStore.UnclaimedIsCollected` | internal/db/db_objects.go:149-171 | over every run, content nobody claims from one sweep on is gone once a collection comes more than the grace period after every sweep so far |
| `ObjectStore.CollectedUnwanted` | internal/db/queries.sql:448-457 | between the sweep that marked collected content and its collection no sweep found it claimed and no write of it landed |
| `ObjectStore.OrphansGo` | internal/db/queries.sql:462-472 | over every run, the orphan pass releases exactly the claims whose owner was gone when it looked, none of them a live row's |
| `ObjectStore.PruneExact` | internal/db/db_objects.go:149-171 | over every run, pruning removes exactly the rows of a concluded tree with nothing busy in it, and orphans exactly their claims |
| `ObjectStore.PruneLogsExact` | internal/db/queries.sql:462-472 | pruning audit rows removes exactly those named |
| `ObjectStore.ReviveExact` | internal/db/db_lifecycle.go:799-866 | over every run, a revival of a tree nobody holds leaves the revived rows busy with the references they keep and claims on exactly those, and every other row alone |
| `ObjectStore.CreatedWhole` | internal/db/db_objects.go:94-122 | over every run, a created row, and an audit row, is there with what it references claimed and what it brought stored |
| `ObjectStore.DiffExact` | internal/db/db_objects.go:126-145 | claim-then-drop leaves exactly the new references when the copy loaded what the row lists, and touches no other owner |
| `ObjectStore.StepKeeps` | internal/db/queries.sql:420-472 | every write, stop, prune (of a concluded tree with paused rows left, too), revival and sweep statement keeps the store's invariant |
| `ObjectDb.Tables.ClaimObjects` | internal/db/db_objects.go:97-122 | content is put and every referenced hash claimed |
| `ObjectDb.Tables.ApplyContextObjectDiff` | internal/db/db_objects.go:126-145 | the loops compute the diff |
| `ObjectDb.Tables.PersistFenced` | internal/db/db_instances.go:244-262 | refused, rows, claims, content and signal queue are as before; landed, the answer it used is gone with it |
| `Cuts.CutRoundTrip` | internal/db/objectcut.go:183-255 | for every value and positions that do not nest, putting each value back at its path, in any order, gives the original |
| `Cuts.PlaceAllUndoesDrops` | internal/model/objpath.go:36-71 | placing anything at every cut path equals placing it on the uncut value |
| `ObjectCut.CutKeepsTheValue` | internal/db/objectcut.go:28-71 | a cut restores in any order; no stored object and no stripped value holds a marker; every marker is still listed |
| `ObjectCut.CutForSize` | internal/db/objectcut.go:28-71 | every value under every target comes apart into such a cut, at positions the value and the target decide; one without markers is left whole iff it fits, for every target the minimum fits in |
| `CutChoice.CutExactlyWhenOver` | internal/db/objectcut.go:53-69 | a value without markers is cut exactly when it does not fit, for every target the minimum fits in |
| `CutChoice.SearchEnds` | internal/db/objectcut.go:53-69 | the rounds end with nothing chosen, with a measured row within target, or with a round that chose as many positions as it found |
| `CutChoice.NothingSmall` | internal/db/objectcut.go:75-132 | what a round takes ranks at the minimum or above, and pays for its entry, against the selection its level found, whose new positions are all deeper |
| `CutChoice.NothingLeft` | internal/db/objectcut.go:98-119 | a round that changes nothing over target leaves every position chosen, covered, tied to a marker, too small, or not worth its entry |
| `CutChoice.LevelOrder` | internal/db/objectcut.go:90-97 | whatever a level takes comes, by rank and then by path, before whatever it could have taken instead |
| `CutChoice.LevelStops` | internal/db/objectcut.go:98-101 | before the last position a level takes, the estimate was still over target |
| `CutChoice.LevelsMove` | internal/db/objectcut.go:75-132 | through all levels the selection stays well formed, both counters move exactly with it, and it is the same or covers strictly more |
| `CutChoice.RankIsGain` | internal/db/objectcut.go:80-89 | taking a candidate makes the estimate smaller by its rank less its entry |
| `CutModel.EntriesCost` | internal/db/objectcut.go:342-348 | the entry sizes add up to the encoded objects list |
| `ObjectCut.SelectCut` | internal/db/objectcut.go:53-69 | the rounds end, with the well-formed selection Chosen gives |
| `ObjectCut.FirstRound` | internal/db/objectcut.go:33-57 | after the first round `data` is the root's size less the chosen sizes, not negative, and `objects` the summed entry sizes |
| `ObjectCut.SelectNodes` | internal/db/objectcut.go:75-132 | goes through the levels, deepest first, exactly as Levels does: candidates by rank, ties by path, until the estimate fits |
| `ObjectCut.Take` | internal/db/objectcut.go:120-129 | taking a node drops exactly what it contains and keeps both counters exact |
| `ObjectCut.ApplyCut` | internal/db/objectcut.go:183-217 | every chosen position becomes a reference, and its content an object unless it was already external |
| `CutModel.ChooseKeeps` | internal/db/objectcut.go:100-130 | every choice keeps positions from nesting, loses no marker, and strictly shrinks what is uncovered |
| `CutModel.ObjectsHaveNoMarkers` | internal/db/objectcut.go:107-112 | nothing under a chosen position is a marker |
| `CutFits.ChosenFits` | internal/db/objectcut.go:35-42 | chosen parts never weigh more than the value |
| `Encoding.SizeIsEncodedLength` | internal/db/objectcut.go:257-320 | the sizes summed bottom-up are the length of the encoded text |
| `StateCodec.EncodeState` | internal/db/db_instances.go:136-214 | every context is cut slot by slot; the references list every marker and every externalized part, and nothing else |
| `StateCodec.StateRoundTrip` | internal/db/db_instances.go:543-636 | decoding gives the stored part of the context with each externalized part's marker in place, and putting the objects back gives it whole |
| `StateCodec.EncodedReferences` | internal/db/db_instances.go:144-153 | a referenced hash is content written here or a marker already held, and every marker held is referenced |
| `StateCodec.RenameRoundTrip` | internal/db/db_instances.go:216-242 | the engine keys of the whitelist, and only those, survive the rename and back |
| `Keyset.KeysetPredicate` | internal/db/paginate.go:376-390 | the OR-chain, its placeholders bound in order, is strict lexicographic order |
| `Paginate.ForwardPage` | internal/db/paginate.go:201-290 | an After page is the slice that starts at the first row past the cursor, the cursor's row present or not |
| `Paginate.BackwardPage` | internal/db/paginate.go:229-244 | a Before page is the slice that ends just ahead of the cursor, in display order |
| `Paginate.InfoIsRight` | internal/db/db.go:378-409 | for a page with rows in it, counts are the rows on each side, up to the cap plus one, and a cursor is set exactly where there are any |
| `Paginate.AfterEmpty` | internal/db/paginate.go:235-264 | an After page is empty exactly when no row lies past its cursor |
| `Paginate.BeforeEmpty` | internal/db/paginate.go:235-264 | a Before page is empty exactly when no row lies ahead of its cursor |
| `Paginate.EmptyPageInfo` | internal/db/paginate.go:292-304 | an empty page's counts and cursors are right exactly when the table is empty |
| `Paginate.PastTheEnds` | internal/db/paginate.go:292-304 | every table with rows has empty pages past both ends, and their counts are wrong |
| `Paginate.BackReturns` | internal/db/paginate.go:331-341 | Before from the next page returns exactly the page it came from |
| `Paginate.Walk` | internal/db/paginate.go:348-371 | following After cursors from the start visits every row once, in order |
| `Paginate.Orient` | internal/db/paginate.go:331-341 | a backward scan is reversed in place, a forward one left |
| `Paginate.RunPage` | internal/db/paginate.go:201-371 | predicate, scan direction, limit and flip together give Page and its counts |
| `Paginate.ClampLimit` | internal/db/paginate.go:221-227 | a positive limit within the cap, the caller's own if it was one |
| `Paginate.DecodeCursor` | internal/db/paginate.go:413-452 | accepted exactly for the same sort, direction, width and kinds, and inverse to the encoding |
| `TopoSort.Sort` | internal/api/handlers_definitions.go:284-343 | succeeds iff the in-batch references without self-references have no cycle, and lists every name once, children first |
| `TopoSort.Sorter.Visit` | internal/api/handlers_definitions.go:298-335 | a visit sorts the name after its children or finds a cycle |
| `TopoSort.SortedMeansAcyclic` | internal/api/handlers_definitions.go:282-283 | a children-first order excludes every cycle |
| `BatchPlan.PlanBatch` | internal/api/handlers_definitions.go:108-198 | refused for a cycle; otherwise planned over every name once, children first, the last of two same-named entries standing |
| `BatchPlan.BuildResolvedDeps` | internal/api/handlers_definitions.go:214-258 | resolves every reference but those to the definition's own version, or fails if one cannot be |
| `BatchPlan.PinnedToPlanned` | internal/api/handlers_definitions.go:260-278 | an unversioned in-batch reference is pinned to the version planned for that child |
| `BatchPlan.PinnedOutside` | internal/api/handlers_definitions.go:260-278 | a reference to a process outside the batch is pinned to the version its apply channel points at, which must exist, and an explicit one to the version it names |
| `BatchPlan.DepsExact` | internal/api/handlers_definitions.go:214-258 | the dependencies are those of the references, self-references aside, and no others |
| `BatchPlan.ChannelsAfter` | internal/api/handlers_definitions.go:200-210 | after an apply its channel points at the planned version of each process of the batch, the default channel too for a process that had none, and every other channel where it did |
| `BatchPlan.FindsHighest` | internal/api/handlers_definitions.go:156-168 | content is found under the highest version that has it |
| `BatchPlan.ReplanSavesNothing` | internal/api/handlers_definitions.go:156-168 | a committed batch planned again saves nothing and keeps every version iff no definition it saved names its own assigned version or the next |
| `BatchPlan.ReplanOneExact` | internal/api/handlers_definitions.go:156-168 | the same iff for one definition |
| `BatchPlan.SavedAgainExact` | internal/api/handlers_definitions.go:156-195 | a saved definition is saved a second time iff it names its own version or the next, no version before has the content it then hashes to, and the validator accepts it |
| `BatchPlan.ClashDeps` | internal/api/handlers_definitions.go:222-241 | a saved definition's references resolve again, and to other dependencies iff it names its own assigned version or the next |
| `BatchPlan.SelfVersionSavesAgain` | internal/api/handlers_definitions.go:222-224 | a definition that calls itself as version 1, applied twice, is saved as 1 and as 2 |
| `BatchPlan.SelfVersionMovesBack` | internal/api/handlers_definitions.go:156-168 | a definition that calls itself as version 2 is saved as 1, then as 2; the third apply saves nothing and moves the channel back to 1 |
| `Clock.NextClockIsLeast` | internal/delayspec/delayspec.go:710-736 | the carry cascade gives the least fitting time at or after the bound, and nothing iff there is none |
| `Clock.FieldLeast` | internal/delayspec/delayspec.go:739-755 | no admitted value at or past the bound is missed |
| `Clock.FieldFound` | internal/delayspec/delayspec.go:739-755 | the value found is admitted and at or past the bound |
| `Clock.NextMatch` | internal/delayspec/delayspec.go:593-642 | in a zone of fixed offset, the earliest whole second strictly after now that fits date and clock; fails iff none does within the day horizon |
| `Wall.ForwardJump` | internal/delayspec/delayspec.go:81-109 | over a forward jump of any size a skipped clock is carried forward by the gap and any other is its one instant, whichever reading the constructor picked |
| `Wall.BackwardHour` | internal/delayspec/delayspec.go:81-96 | over a one-hour backward jump a repeated clock is its first occurrence, any other its one instant |
| `Wall.BackwardExact` | internal/delayspec/delayspec.go:92-95 | a repeated clock is its first occurrence for both readings iff the jump is one hour |
| `Duration.ParseExact` | internal/delayspec/delayspec.go:228-275 | a literal of well-formed components parses to the mathematical sums, or is refused for range iff one leaves 64 bits |
| `Duration.ParseDuration` | internal/delayspec/delayspec.go:228-275 | the scanning loop computes Parse |
| `Duration.AddExact` | internal/delayspec/delayspec.go:180-206 | an addition is refused iff the true sum leaves 64 bits |
| `Duration.AcceptedInRange` | internal/delayspec/delayspec.go:228-275 | whatever the text, an accepted literal has not wrapped |
| `Duration.DecimalReads` | internal/delayspec/delayspec.go:240-250 | a count printed in decimal reads back |
| `Duration.UnitsConvert` | internal/delayspec/delayspec.go:208-223 | 1000ms is 1s, 60s is 1m, 60m is 1h, 7d is 1w and 12mo is 1y, for every count and up to the same limit |
| `Duration.BaseUnits` | internal/delayspec/delayspec.go:180-206 | a second is a thousand million nanoseconds of the fixed part, a day one day and a month one month |
| `Durability.SurvivesPowerCut` | internal/db/durability.go:38-39 | over every run, whenever the power goes, a commit whose floor is at or below the level survives with everything before it |
| `Durability.FinishedStaysFinished` | internal/db/durability.go:80-87 | a write that finished a process survives at terminal, every write at strict |
| `Durability.FlushHardens` | internal/db/durability.go:92-111 | a returned Flush has everything committed on disk at every level but none |
| `Durability.RelaxedLowersNothing` | internal/db/pg_rewriter.go:68-146 | in every reachable state a commit is flushed iff the level asks for it: no relaxed transaction lowers a later one |
| `Durability.WeakBaseFlushesNothing` | internal/db/pg_rewriter.go:72-74 | with connections that do not flush per commit nothing is ever flushed |
| `Durability.Database.WithTxAt` | internal/db/pg_rewriter.go:155-165 | one Begin and one Commit or Rollback of the state machine; the connection goes back as it came, and the commit is flushed exactly when the level asks |
| `Durability.Database.Flush` | internal/db/durability.go:92-111 | after it everything is on disk, at every level but none |
| `Durability.SyncTx.Rollback` | internal/db/pg_rewriter.go:129-146 | idempotent, and restores a pinned connection once |

## Left out

- SQL text, drivers, migrations, pools, and Postgres deadlock and snapshot behaviour: each transaction is one atomic step.
- HTTP, the API's request shapes, the UI, command-line tools, tokens and logins.
- Expressions, templates, schemas, output checks and state migration: what a task answers, where its switch goes and whether a new version validates are left free.
- Retention, apart from what pruning trees and logs does to object claims.
- Which rows the engine claim skips for their wake time, in the lifecycle runs: any claimable row may be claimed at any time there; the external runs model the wake time.
- Parent, root and call stack are one stack of ids in the tree, so that the three columns agree is built in.
- Runs.RunKeeps: a run takes a retry's status check and its transaction as one step; what happens otherwise is `Revive.StaleRetryExact`.
- Lease.OnlyOnceInTime: one direction only; a start made after its lease could be taken need not double another.
- ExternalRuns follows one instance: every step of the protocol touches one row and its queue, a batch being one step for each row.
- ExternalRuns.AnswersConserved: oldest first is in the order of buffering; the stored order puts the wall clock first, so a clock stepping back between two deliveries is not covered.
- ExternalDb.TaskDb.ClaimExternalTasks: the time each row was parked is given by a function.
- ObjectStore: hashes are injective and stand for their content; version upgrades of a paused row are not modelled; audit rows may name content that is already gone.
- ObjectCut.ApplyCut: references are listed in the order they were cut; the code sorts the list by path afterwards.
- Paginate: rows are known by their keys; filters are a fixed subset of the table; base64 and JSON of cursors are left to their libraries.
- Encoding: the text of a scalar and the escaping of a key are taken as given; a marker encodes as the null it leaves.
- Clock.NextMatch: fixed-offset zones, so the repeated-hour search and the clock retries that serve it are not modelled; the calendar's dates are given by a function.
- Wall: zones with more than one transition near the reading are not modelled.
- Backoff timing and the marker that lets a raised slot retry past its budget.
- Durability: restoring the connection's setting is taken to succeed; a lost commit acknowledgement is not modelled.
