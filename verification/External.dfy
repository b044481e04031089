/**
 The external-task queue: a row parked on an external wait, a FIFO of buffered outcomes beside it,
 the engine's own lease, and a second, independent lease (the claim) held by outside workers.
 Each transaction is one function on the row and its queue.
 */
module External {

  import opened Wrappers
  import opened Statuses

  type TaskId = nat
  type WorkerId = nat

  datatype Row = Row(
    status: Status, phase: Phase, task: TaskId, taskEpoch: nat, wakeAt: Option<int>, lost: bool,
    worker: Option<WorkerId>, expires: int, epoch: nat,
    extWorker: Option<WorkerId>, extExpires: int, claimEpoch: nat)

  datatype Signal = Signal(id: nat, task: TaskId, outcome: int)

  /** One instance as the database holds it: its row, its buffered outcomes, the id mint. */
  datatype Core = Core(row: Row, queue: seq<Signal>, minted: nat)

  // ------------------------------------------------------------------------------------------
  // The queue
  // ------------------------------------------------------------------------------------------

  /** The outcomes buffered for one task, oldest first. */
  function Of(q: seq<Signal>, task: TaskId): (r: seq<Signal>) {
    if q == [] then [] else (if q[0].task == task then [q[0]] else []) + Of(q[1..], task)
  }

  predicate Answered(q: seq<Signal>, task: TaskId) {
    Of(q, task) != []
  }

  function Delete(q: seq<Signal>, id: nat): (r: seq<Signal>) {
    if q == [] then [] else (if q[0].id == id then [] else [q[0]]) + Delete(q[1..], id)
  }

  /** Each id is larger than every one handed out before it. */
  ghost predicate Ordered(q: seq<Signal>, minted: nat) {
    && (forall i, j :: 0 <= i < j < |q| ==> q[i].id < q[j].id)
    && (forall i :: 0 <= i < |q| ==> q[i].id < minted)
  }

  lemma {:induction false} OfAppend(q: seq<Signal>, s: Signal, task: TaskId)
    ensures Of(q + [s], task) == Of(q, task) + if s.task == task then [s] else []
  {
    if q != [] {
      assert (q + [s])[1..] == q[1..] + [s];
      OfAppend(q[1..], s, task);
    } else {
      assert (q + [s])[1..] == [];
    }
  }

  lemma {:induction false} OfMember(q: seq<Signal>, task: TaskId)
    ensures forall s :: s in Of(q, task) ==> s in q && s.task == task
  {
    if q != [] {
      OfMember(q[1..], task);
    }
  }

  lemma {:induction false} DeleteAbsent(q: seq<Signal>, id: nat)
    requires forall i :: 0 <= i < |q| ==> q[i].id != id
    ensures Delete(q, id) == q
  {
    if q != [] {
      DeleteAbsent(q[1..], id);
    }
  }

  lemma {:induction false} DeleteMember(q: seq<Signal>, id: nat, minted: nat)
    requires Ordered(q, minted)
    ensures Ordered(Delete(q, id), minted)
    ensures forall s :: s in Delete(q, id) ==> s in q
  {
    if q != [] {
      assert Ordered(q[1..], minted);
      DeleteMember(q[1..], id, minted);
      var rest := Delete(q[1..], id);
      forall j | 0 <= j < |rest|
        ensures q[0].id < rest[j].id
      {
        assert rest[j] in q[1..];
      }
    }
  }

  /** Deleting the oldest outcome of a task takes it, and nothing else, from the front. */
  lemma {:induction false} DeleteOldest(q: seq<Signal>, minted: nat, task: TaskId, other: TaskId)
    requires Ordered(q, minted) && Answered(q, task)
    ensures Of(Delete(q, Of(q, task)[0].id), other) == if other == task then Of(q, task)[1..] else Of(q, other)
  {
    var s := Of(q, task)[0];
    if q[0].task == task {
      assert s == q[0];
      DeleteAbsent(q[1..], s.id);
      assert Delete(q, s.id) == q[1..];
    } else {
      assert Of(q, task) == Of(q[1..], task);
      OfMember(q[1..], task);
      assert s in q[1..];
      assert Ordered(q[1..], minted);
      DeleteOldest(q[1..], minted, task, other);
      assert q[0].id != s.id;
      assert Delete(q, s.id)[1..] == Delete(q[1..], s.id);
    }
  }

  // ------------------------------------------------------------------------------------------
  // Delivering and resolving
  // ------------------------------------------------------------------------------------------

  predicate LeaseLive(r: Row, now: int) {
    r.worker.Some? && r.expires > now
  }

  predicate ClaimLive(r: Row, now: int) {
    r.extWorker.Some? && r.extExpires > now
  }

  function Unpark(r: Row): (r': Row) {
    r.(phase := NoPhase, wakeAt := None)
  }

  function Buffer(c: Core, task: TaskId, outcome: int): (c': Core) {
    c.(queue := c.queue + [Signal(c.minted, task, outcome)], minted := c.minted + 1)
  }

  /** DeliverSignal: the outcome is buffered whenever the status accepts one; the row is un-parked
      only if it waits on this task and neither the engine nor a queue worker is at it. */
  function Deliver(c: Core, task: TaskId, outcome: int, now: int): (c': Core) {
    if !AcceptsOutcome(c.row.status) then c
    else
      var b := Buffer(c, task, outcome);
      if DeliverUnparks(c.row, task, now) then b.(row := Unpark(c.row)) else b
  }

  predicate DeliverUnparks(r: Row, task: TaskId, now: int) {
    r.phase == Parked && r.task == task && !LeaseLive(r, now) && !ClaimLive(r, now)
  }

  /** What a token says about a claim: nothing, or the epoch of one. */
  datatype Binding = Unclaimed | Bound(claimEpoch: nat)

  predicate BindingOk(b: Binding, r: Row, now: int) {
    match b
    case Bound(e) => e == r.claimEpoch
    case Unclaimed => !ClaimLive(r, now)
  }

  predicate Accepts(r: Row, taskEpoch: nat, b: Binding, now: int) {
    && AcceptsOutcome(r.status) && r.phase == Parked && !LeaseLive(r, now)
    && r.taskEpoch == taskEpoch && BindingOk(b, r, now)
  }

  /** ResolveExternalTask: refused, or buffered and un-parked. */
  function Resolve(c: Core, taskEpoch: nat, b: Binding, outcome: int, now: int): (c': Core) {
    if !Accepts(c.row, taskEpoch, b, now) then c
    else Buffer(c, c.row.task, outcome).(row := Unpark(c.row))
  }

  // ------------------------------------------------------------------------------------------
  // The claim
  // ------------------------------------------------------------------------------------------

  predicate QueueClaimable(r: Row, now: int) {
    && r.phase == Parked && r.status == Running
    && (r.extWorker.None? || r.extExpires <= now)
    && (r.wakeAt.None? || r.wakeAt.value > now)
  }

  predicate Grants(c: Core, now: int) {
    QueueClaimable(c.row, now) && !Answered(c.queue, c.row.task)
  }

  /** One candidate of ClaimExternalTasks: an answered one goes to the engine instead. */
  function QueueClaim(c: Core, w: WorkerId, now: int, expiry: int): (c': Core) {
    if !QueueClaimable(c.row, now) then c
    else if Answered(c.queue, c.row.task) then c.(row := Unpark(c.row))
    else c.(row := c.row.(extWorker := Some(w), extExpires := expiry, claimEpoch := c.row.claimEpoch + 1))
  }

  predicate Holds(r: Row, w: WorkerId, taskEpoch: nat, claimEpoch: nat) {
    r.extWorker == Some(w) && r.taskEpoch == taskEpoch && r.claimEpoch == claimEpoch
  }

  datatype RenewVerdict = Renewed | Lost | CancelledVerdict

  function QueueRenew(c: Core, w: WorkerId, taskEpoch: nat, claimEpoch: nat, expiry: int): (c': Core) {
    if Holds(c.row, w, taskEpoch, claimEpoch) && !c.row.status.Cancelling? && !c.row.status.Cancelled?
    then c.(row := c.row.(extExpires := expiry)) else c
  }

  function VerdictOf(r: Row, w: WorkerId, taskEpoch: nat, claimEpoch: nat): (v: RenewVerdict) {
    if !Holds(r, w, taskEpoch, claimEpoch) then Lost
    else if r.status.Cancelling? || r.status.Cancelled? then CancelledVerdict
    else Renewed
  }

  predicate Releases(r: Row, taskEpoch: nat, claimEpoch: nat) {
    r.taskEpoch == taskEpoch && r.claimEpoch == claimEpoch && r.phase == Parked && r.extWorker.Some?
  }

  function UnparkAnswered(c: Core): (c': Core) {
    if c.row.phase == Parked && AcceptsOutcome(c.row.status) && Answered(c.queue, c.row.task)
    then c.(row := Unpark(c.row)) else c
  }

  /** ReleaseExternalClaim: the hand-back voids its own token, and an answer that had deferred to
      the claim goes to the engine. */
  function Release(c: Core, taskEpoch: nat, claimEpoch: nat): (c': Core) {
    if !Releases(c.row, taskEpoch, claimEpoch) then c
    else UnparkAnswered(c.(row := c.row.(extWorker := None, claimEpoch := c.row.claimEpoch + 1)))
  }

  predicate Loses(r: Row, taskEpoch: nat) {
    r.taskEpoch == taskEpoch && r.phase == Parked
  }

  function MarkLost(c: Core, taskEpoch: nat, now: int): (c': Core) {
    if !Loses(c.row, taskEpoch) then c
    else c.(row := c.row.(lost := true, wakeAt := Some(now), extWorker := None, claimEpoch := c.row.claimEpoch + 1))
  }

  // ------------------------------------------------------------------------------------------
  // The engine's side
  // ------------------------------------------------------------------------------------------

  /** What the advance read from the queue, and the task and epoch it had reached by then. */
  datatype Peek = NotYet | Nothing(task: TaskId, taskEpoch: nat) | Got(signal: Signal, task: TaskId, taskEpoch: nat)

  /** A claimed instance in a worker's memory. */
  datatype Inst = Inst(
    worker: WorkerId, reclaimed: bool, status: Status, phase: Phase, task: TaskId, taskEpoch: nat,
    wakeAt: Option<int>, lost: bool, peek: Peek)

  /** Where an advance leaves the instance: at a task `entries` entries later, or concluded. */
  datatype Next =
    | Goto(task: TaskId, entries: nat, wakeAt: Option<int>)
    | Done(task: TaskId, entries: nat, status: Status)

  /** The tasks that wait on an external answer, and the only_once ones. */
  datatype Def = Def(external: set<TaskId>, onlyOnce: set<TaskId>)

  predicate EngineClaimable(r: Row, now: int, cutoff: int) {
    && (r.status.Running? || r.status.Pausing? || r.status.Cancelling?)
    && r.phase != Children
    && (!r.status.Running? || (r.wakeAt.Some? && r.wakeAt.value <= now) || (r.phase != Parked && r.wakeAt.None?))
    && (r.worker.None? || r.expires <= cutoff)
  }

  function Load(r: Row, w: WorkerId): (i: Inst) {
    Inst(w, r.worker.Some?, r.status, r.phase, r.task, r.taskEpoch, r.wakeAt, r.lost, NotYet)
  }

  /** A fenced UpdateInstance, the fence having matched. */
  function Write(r: Row, status: Status, phase: Phase, task: TaskId, taskEpoch: nat, wakeAt: Option<int>,
                 lost: bool): (r': Row) {
    r.(status := if status.Running? && (r.status.Pausing? || r.status.Cancelling?) then r.status else status,
       phase := phase, task := task, taskEpoch := taskEpoch, wakeAt := wakeAt, lost := lost, worker := None,
       extWorker := if r.taskEpoch == taskEpoch then r.extWorker else None)
  }

  /** The write an advance ends in, with the phase it leaves behind. */
  function WriteNext(r: Row, phase: Phase, taskEpoch: nat, next: Next, lost: bool): (r': Row) {
    match next
    case Goto(task, entries, wakeAt) => Write(r, Running, phase, task, taskEpoch + entries, wakeAt, lost)
    case Done(task, entries, status) => Write(r, status, phase, task, taskEpoch + entries, None, lost)
  }

  predicate NextOk(next: Next) {
    next.Done? ==> next.status.Completed? || next.status.Failed? || next.status.Raised?
  }

  /** The tasks one claim may reach: call-less tasks run inline, each entry moving the epoch. */
  predicate Reach(d: Def, i: Inst, task: TaskId, taskEpoch: nat) {
    && taskEpoch >= i.taskEpoch && (taskEpoch == i.taskEpoch ==> task == i.task)
    && (i.phase != NoPhase || i.task in d.external ==> taskEpoch == i.taskEpoch)
  }

  predicate InterruptedOnce(d: Def, i: Inst) {
    i.reclaimed && i.task in d.onlyOnce
  }

  /** The advance gets as far as running tasks. */
  predicate Runs(d: Def, i: Inst) {
    i.status.Running? && !InterruptedOnce(d, i)
  }

  /** ArmExternalUnlessSignalled: park, unless an answer is already waiting. */
  function Arm(c: Core, task: TaskId, taskEpoch: nat, wakeAt: Option<int>, lost: bool): (c': Core) {
    if Answered(c.queue, task)
    then c.(row := Write(c.row, Running, NoPhase, task, taskEpoch, None, lost))
    else c.(row := Write(c.row, Running, Parked, task, taskEpoch, wakeAt, lost))
  }

  /** The interrupted verdict: routed onwards or completed with the phase as loaded, failed or
      raised with the phase cleared. */
  function InterruptedPhase(i: Inst, next: Next): (p: Phase) {
    if next.Done? && !next.status.Completed? then NoPhase else i.phase
  }

  /** An ordinary task's write: a leftover park is not cleared. */
  function OtherPhase(i: Inst, next: Next, phase: Phase): (p: Phase) {
    if next.Done? && !next.status.Completed? then NoPhase
    else if i.phase == Parked then Parked
    else phase
  }

  predicate OtherOk(i: Inst, next: Next, phase: Phase) {
    && (phase == NoPhase || phase == Children)
    && (next.Goto? && next.entries == 0 ==> next.task == i.task)
    && (i.phase == Collecting && phase == NoPhase && next.Goto? ==> next.entries > 0)
  }

  predicate ConsumeOk(next: Next) {
    NextOk(next) && (next.Goto? ==> next.entries > 0)
  }

  // ------------------------------------------------------------------------------------------
  // The engine's look at an external task
  // ------------------------------------------------------------------------------------------

  datatype Answer = Success(value: int) | Failure(code: int)

  /** How the look ends: with a result, with an error to route, or with a park to ask for. */
  datatype Look = GotResult(value: int) | RouteFailure(code: int) | TimedOut | HolderLost | AskPark

  /** An answer wins over everything; a park that has none either lost its holder or ran out of time. */
  function LookOf(phase: Phase, lost: bool, buffered: Option<Answer>): (look: Look) {
    match buffered
    case Some(Success(v)) => GotResult(v)
    case Some(Failure(c)) => RouteFailure(c)
    case None => if phase != Parked then AskPark else if lost then HolderLost else TimedOut
  }

  // ------------------------------------------------------------------------------------------
  // The token laws, call by call
  // ------------------------------------------------------------------------------------------

  /** A parked row no engine advance holds: a two-part token is refused exactly while a claim is
      live, a three-part one exactly when it does not name the current claim. */
  lemma TokenVerdicts(r: Row, now: int, e: nat)
    requires AcceptsOutcome(r.status) && r.phase == Parked && !LeaseLive(r, now)
    ensures Accepts(r, r.taskEpoch, Unclaimed, now) <==> !ClaimLive(r, now)
    ensures Accepts(r, r.taskEpoch, Bound(e), now) <==> e == r.claimEpoch
  {
  }

  /** An answer already buffered is never granted to a queue worker, and the row leaves the
      queue for the engine at once. */
  lemma ClaimOrAnswer(c: Core, w: WorkerId, now: int, expiry: int)
    requires QueueClaimable(c.row, now)
    ensures var c' := QueueClaim(c, w, now, expiry);
      && (c'.row.claimEpoch > c.row.claimEpoch <==> !Answered(c.queue, c.row.task))
      && (c'.row.phase == NoPhase <==> Answered(c.queue, c.row.task))
      && (Answered(c.queue, c.row.task) ==> c'.row.extWorker == c.row.extWorker)
      && (Answered(c.queue, c.row.task) && c.row.worker.None? ==> EngineClaimable(c'.row, now, now))
  {
  }

  /** Arm and deliver in either order: delivered first, the row is never parked; armed first, it
      is un-parked by the delivery exactly when no claim is live then.  The queue ends the same. */
  lemma ArmDeliverRace(c: Core, task: TaskId, taskEpoch: nat, wakeAt: Option<int>, lost: bool, outcome: int, now: int)
    requires AcceptsOutcome(c.row.status) && c.row.phase != Parked
    ensures var a := Arm(Deliver(c, task, outcome, now), task, taskEpoch, wakeAt, lost);
      var b := Deliver(Arm(c, task, taskEpoch, wakeAt, lost), task, outcome, now);
      && a.queue == b.queue == c.queue + [Signal(c.minted, task, outcome)] && a.minted == b.minted
      && a.row.phase == NoPhase
      && (b.row.phase == NoPhase <==>
            Answered(c.queue, task) || !ClaimLive(Arm(c, task, taskEpoch, wakeAt, lost).row, now))
  {
    OfAppend(c.queue, Signal(c.minted, task, outcome), task);
  }
}
