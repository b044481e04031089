/**
 Runs of one instance under the external-task protocol: engine claims, stalled and taken-over
 workers, fenced writes, lifecycle verbs, deliveries, resolves and queue claims, in any order.
 */
module ExternalRuns {

  import opened Wrappers
  import opened Statuses
  import opened External

  /** The instance, the claimed copies workers hold of it, and what has happened so far:
      every outcome buffered and every outcome consumed, in order; the task epochs at which a
      resolve was accepted; the epoch of the last park; and three marks: a delivery deferred to a
      live lease or claim since that park, a write that parked an answered row again, and an
      interrupted verdict that routed a parked row to another task. */
  datatype Cell = Cell(
    core: Core, memory: map<nat, Inst>,
    delivered: seq<Signal>, consumed: seq<Signal>, accepted: seq<nat>,
    armed: Option<nat>, deferred: bool, reparked: bool, misrouted: bool)

  datatype Step =
    | DoClaim(worker: WorkerId, now: int, cutoff: int, expiry: int)
    | DoRenew(worker: WorkerId, expiry: int)
    | DoPeek(epoch: nat, task: TaskId, taskEpoch: nat)
    | DoArm(epoch: nat, wakeAt: Option<int>)
    | DoConsume(epoch: nat, next: Next)
    | DoExpire(epoch: nat, next: Next)
    | DoInterrupted(epoch: nat, next: Next)
    | DoSettle(epoch: nat)
    | DoOther(epoch: nat, next: Next, phase: Phase)
    | DoVerb(status: Status, wake: bool)
    | DoRevive(phase: Phase, keepsWake: bool)
    | DoDeliver(task: TaskId, outcome: int, now: int)
    | DoResolve(taskEpoch: nat, binding: Binding, outcome: int, now: int)
    | DoQueueClaim(worker: WorkerId, now: int, expiry: int)
    | DoQueueRenew(worker: WorkerId, taskEpoch: nat, claimEpoch: nat, expiry: int)
    | DoRelease(taskEpoch: nat, claimEpoch: nat)
    | DoMarkLost(taskEpoch: nat, now: int)

  predicate Fenced(c: Cell, e: nat) {
    e in c.memory && c.core.row.epoch == e && c.core.row.worker == Some(c.memory[e].worker)
  }

  /** A write that keeps the loaded park over a row an answer has un-parked since. */
  predicate Reparks(r: Row, i: Inst, r': Row) {
    i.phase == Parked && r.phase == NoPhase && r'.phase == Parked && r'.taskEpoch == r.taskEpoch
  }

  function Land(c: Cell, i: Inst, core': Core): (c': Cell) {
    c.(core := core', reparked := c.reparked || Reparks(c.core.row, i, core'.row))
  }

  function PeekAt(c: Cell, i: Inst, task: TaskId, taskEpoch: nat): (p: Peek) {
    if Answered(c.core.queue, task) then Got(Of(c.core.queue, task)[0], task, taskEpoch) else Nothing(task, taskEpoch)
  }

  /** Whether the advance of a claimed copy may end in this write. */
  predicate Enabled(d: Def, i: Inst, step: Step) {
    match step
    case DoArm(_, _) => Runs(d, i) && i.phase == NoPhase && i.peek.Nothing?
    case DoConsume(_, next) => Runs(d, i) && i.peek.Got? && ConsumeOk(next)
    case DoExpire(_, next) => Runs(d, i) && i.phase == Parked && i.peek.Nothing? && ConsumeOk(next)
    case DoInterrupted(_, next) =>
      && InterruptedOnce(d, i) && (i.status.Running? || i.status.Pausing?) && ConsumeOk(next)
      && (next.Done? ==> next.task == i.task && next.entries == 0)
    case DoSettle(_) => i.status.Cancelling? || (i.status.Pausing? && !InterruptedOnce(d, i))
    case DoOther(_, next, phase) => Runs(d, i) && i.task !in d.external && NextOk(next) && OtherOk(i, next, phase)
    case _ => false
  }

  function WriteStep(c: Cell, i: Inst, step: Step): (c': Cell)
    requires step.DoArm? || step.DoConsume? || step.DoExpire? || step.DoInterrupted? || step.DoSettle? || step.DoOther?
  {
    var r, q := c.core.row, c.core.queue;
    match step
    case DoArm(_, wakeAt) =>
      if i.peek.Nothing? then
        var core' := Arm(c.core, i.peek.task, i.peek.taskEpoch, wakeAt, i.lost);
        if core'.row.phase == Parked then Land(c, i, core').(armed := Some(i.peek.taskEpoch), deferred := false)
        else Land(c, i, core')
      else c
    case DoConsume(_, next) =>
      if i.peek.Got? then
        Land(c, i, c.core.(row := WriteNext(r, NoPhase, i.peek.taskEpoch, next, false),
                           queue := Delete(q, i.peek.signal.id))).(consumed := c.consumed + [i.peek.signal])
      else c
    case DoExpire(_, next) => Land(c, i, c.core.(row := WriteNext(r, NoPhase, i.taskEpoch, next, false)))
    case DoInterrupted(_, next) =>
      Land(c, i, c.core.(row := WriteNext(r, InterruptedPhase(i, next), i.taskEpoch, next, i.lost)))
      .(misrouted := c.misrouted || (i.phase == Parked && next.Goto?))
    case DoSettle(_) =>
      Land(c, i,
           c.core.(row := Write(r, if i.status.Pausing? then Paused else Cancelled, i.phase, i.task, i.taskEpoch,
                                i.wakeAt, i.lost)))
    case DoOther(_, next, phase) =>
      Land(c, i, c.core.(row := WriteNext(r, OtherPhase(i, next, phase), i.taskEpoch, next, i.lost)))
  }

  function Apply(d: Def, c: Cell, step: Step): (c': Cell) {
    var r := c.core.row;
    match step
    case DoClaim(w, now, cutoff, expiry) =>
      if !EngineClaimable(r, now, cutoff) then c
      else c.(core := c.core.(row := r.(worker := Some(w), expires := expiry, epoch := r.epoch + 1)),
              memory := c.memory[r.epoch + 1 := Load(r, w)])
    case DoRenew(w, expiry) =>
      if r.worker == Some(w) && r.expires < expiry then c.(core := c.core.(row := r.(expires := expiry))) else c
    case DoPeek(e, task, taskEpoch) =>
      if e !in c.memory || !Runs(d, c.memory[e]) || !c.memory[e].peek.NotYet? || task !in d.external
         || !Reach(d, c.memory[e], task, taskEpoch) then c
      else c.(memory := c.memory[e := c.memory[e].(peek := PeekAt(c, c.memory[e], task, taskEpoch))])
    case DoVerb(status, wake) =>
      if Terminal(r.status) || (Terminal(status) && r.worker.Some?) then c
      else c.(core := c.core.(row := r.(status := status,
                                        phase := if wake && r.phase == Children then Collecting else r.phase)))
    case DoRevive(phase, keepsWake) =>
      if !r.status.Failed? || phase == Parked then c
      else
        var epoch := if phase == NoPhase then r.taskEpoch + 1 else r.taskEpoch;
        var wakeAt := if keepsWake then r.wakeAt else None;
        c.(core := c.core.(row := Write(r, Running, phase, r.task, epoch, wakeAt, r.lost)))
    case DoDeliver(task, outcome, now) =>
      if !AcceptsOutcome(r.status) then c
      else c.(core := Deliver(c.core, task, outcome, now),
              delivered := c.delivered + [Signal(c.core.minted, task, outcome)],
              deferred := c.deferred || (r.phase == Parked && r.task == task && !DeliverUnparks(r, task, now)))
    case DoResolve(taskEpoch, b, outcome, now) =>
      if !Accepts(r, taskEpoch, b, now) then c
      else c.(core := Resolve(c.core, taskEpoch, b, outcome, now),
              delivered := c.delivered + [Signal(c.core.minted, r.task, outcome)],
              accepted := c.accepted + [taskEpoch])
    case DoQueueClaim(w, now, expiry) => c.(core := QueueClaim(c.core, w, now, expiry))
    case DoQueueRenew(w, taskEpoch, claimEpoch, expiry) =>
      c.(core := QueueRenew(c.core, w, taskEpoch, claimEpoch, expiry))
    case DoRelease(taskEpoch, claimEpoch) => c.(core := Release(c.core, taskEpoch, claimEpoch))
    case DoMarkLost(taskEpoch, now) => c.(core := MarkLost(c.core, taskEpoch, now))
    case _ =>
      if Fenced(c, step.epoch) && Enabled(d, c.memory[step.epoch], step)
      then WriteStep(c, c.memory[step.epoch], step) else c
  }

  predicate IsWrite(step: Step) {
    step.DoArm? || step.DoConsume? || step.DoExpire? || step.DoInterrupted? || step.DoSettle? || step.DoOther?
  }

  // ------------------------------------------------------------------------------------------
  // The invariant
  // ------------------------------------------------------------------------------------------

  ghost predicate PeekOk(d: Def, i: Inst, q: seq<Signal>) {
    match i.peek
    case NotYet => true
    case Nothing(task, taskEpoch) => task in d.external && Reach(d, i, task, taskEpoch)
    case Got(s, task, taskEpoch) =>
      task in d.external && Reach(d, i, task, taskEpoch) && Answered(q, task) && Of(q, task)[0] == s
  }

  /** The copy the current grant holds, against the row: they differ only where an answer
      un-parked the row under a lapsed lease. */
  ghost predicate CopyOk(d: Def, c: Cell, i: Inst) {
    var r := c.core.row;
    && r.worker == Some(i.worker) && i.task == r.task && i.taskEpoch == r.taskEpoch && i.phase != Children
    && !Terminal(r.status)
    && (r.phase == i.phase || (i.phase == Parked && r.phase == NoPhase && Answered(c.core.queue, r.task)))
    && (i.phase == Parked ==> c.misrouted || (c.armed == Some(r.taskEpoch) && r.task in d.external))
    && PeekOk(d, i, c.core.queue)
  }

  ghost predicate HeldOk(d: Def, c: Cell) {
    && (forall e :: e in c.memory ==> e <= c.core.row.epoch)
    && (c.core.row.worker.Some? ==> c.core.row.epoch in c.memory && CopyOk(d, c, c.memory[c.core.row.epoch]))
  }

  ghost predicate Split(c: Cell, task: TaskId) {
    Of(c.delivered, task) == Of(c.consumed, task) + Of(c.core.queue, task)
  }

  ghost predicate Conserved(c: Cell) {
    && Ordered(c.core.queue, c.core.minted) && c.core.minted == |c.delivered|
    && (forall i :: 0 <= i < |c.delivered| ==> c.delivered[i].id == i)
    && (forall task {:trigger Split(c, task)} :: Split(c, task))
  }

  /** An accepted answer holds its epoch: the row waits to consume it, or has moved beyond any
      park under this epoch. */
  ghost predicate Spoken(r: Row, q: seq<Signal>) {
    r.phase != Parked && (Answered(q, r.task) || r.phase == Children || r.phase == Collecting || Terminal(r.status))
  }

  ghost predicate Once(c: Cell) {
    && (forall i :: 0 <= i < |c.accepted| ==> c.accepted[i] <= c.core.row.taskEpoch)
    && (!c.reparked ==>
          && (forall i, j :: 0 <= i < j < |c.accepted| ==> c.accepted[i] != c.accepted[j])
          && (c.core.row.taskEpoch in c.accepted ==> Spoken(c.core.row, c.core.queue)))
  }

  ghost predicate Sound(d: Def, c: Cell) {
    c.core.row.phase == Parked ==>
      c.misrouted || (c.armed == Some(c.core.row.taskEpoch) && c.core.row.task in d.external)
  }

  ghost predicate Stranded(c: Cell) {
    c.core.row.phase == Parked && Answered(c.core.queue, c.core.row.task)
  }

  ghost predicate Inv(d: Def, c: Cell) {
    && HeldOk(d, c) && Conserved(c) && Once(c) && Sound(d, c)
    && (Stranded(c) ==> c.deferred || c.reparked || c.misrouted)
    && (Terminal(c.core.row.status) ==> c.core.row.worker.None?)
  }

  lemma OldestStays(q: seq<Signal>, s: Signal, task: TaskId)
    requires Answered(q, task)
    ensures Answered(q + [s], task) && Of(q + [s], task)[0] == Of(q, task)[0]
  {
    OfAppend(q, s, task);
  }

  // Steps outside the engine's writes.

  lemma BufferConserves(c: Cell, s: Signal)
    requires Conserved(c) && s.id == c.core.minted
    ensures Conserved(c.(core := c.core.(queue := c.core.queue + [s], minted := c.core.minted + 1),
                         delivered := c.delivered + [s]))
  {
    var c' := c.(core := c.core.(queue := c.core.queue + [s], minted := c.core.minted + 1),
                 delivered := c.delivered + [s]);
    forall task
      ensures Split(c', task)
    {
      assert Split(c, task);
      OfAppend(c.core.queue, s, task);
      OfAppend(c.delivered, s, task);
    }
  }

  /** Conservation reads only the queue, the mint and the two logs. */
  lemma ConservedFrame(c: Cell, c': Cell)
    requires Conserved(c) && c'.core.queue == c.core.queue && c'.core.minted == c.core.minted
    requires c'.delivered == c.delivered && c'.consumed == c.consumed
    ensures Conserved(c')
  {
    forall task
      ensures Split(c', task)
    {
      assert Split(c, task);
    }
  }

  lemma ConsumeSplit(c: Cell, c': Cell, task: TaskId, t: TaskId)
    requires Conserved(c) && Answered(c.core.queue, task)
    requires c'.core.queue == Delete(c.core.queue, Of(c.core.queue, task)[0].id)
    requires c'.delivered == c.delivered && c'.consumed == c.consumed + [Of(c.core.queue, task)[0]]
    ensures Split(c', t)
  {
    assert Split(c, t);
    HeadMoves(c.core.queue, c.core.minted, c'.core.queue, c.consumed, c'.consumed, task, t);
  }

  lemma OldestIsOf(q: seq<Signal>, task: TaskId)
    requires Answered(q, task)
    ensures Of(q, task)[0].task == task
  {
    OfMember(q, task);
    assert Of(q, task)[0] in Of(q, task);
  }

  /** Taking the oldest outcome of a task moves it from the one sequence to the end of the other. */
  lemma HeadMoves(q: seq<Signal>, minted: nat, q': seq<Signal>, done: seq<Signal>, done': seq<Signal>, task: TaskId,
                  t: TaskId)
    requires Ordered(q, minted) && Answered(q, task)
    requires q' == Delete(q, Of(q, task)[0].id) && done' == done + [Of(q, task)[0]]
    ensures Of(done', t) + Of(q', t) == Of(done, t) + Of(q, t)
  {
    var s := Of(q, task)[0];
    OldestIsOf(q, task);
    DeleteOldest(q, minted, task, t);
    OfAppend(done, s, t);
    MoveHead(Of(done, t), Of(q, t), Of(done', t), Of(q', t), s, t == task);
  }

  lemma MoveHead(a: seq<Signal>, b: seq<Signal>, a': seq<Signal>, b': seq<Signal>, s: Signal, moves: bool)
    requires if moves then b != [] && b[0] == s && a' == a + [s] && b' == b[1..] else a' == a && b' == b
    ensures a' + b' == a + b
  {
  }

  lemma ConsumeConserves(c: Cell, c': Cell, task: TaskId)
    requires Conserved(c) && Answered(c.core.queue, task)
    requires c'.core.queue == Delete(c.core.queue, Of(c.core.queue, task)[0].id) && c'.core.minted == c.core.minted
    requires c'.delivered == c.delivered && c'.consumed == c.consumed + [Of(c.core.queue, task)[0]]
    ensures Conserved(c')
  {
    DeleteMember(c.core.queue, Of(c.core.queue, task)[0].id, c.core.minted);
    forall t
      ensures Split(c', t)
    {
      ConsumeSplit(c, c', task, t);
    }
  }

  lemma DeliverKeeps(d: Def, c: Cell, task: TaskId, outcome: int, now: int)
    requires Inv(d, c)
    ensures Inv(d, Apply(d, c, DoDeliver(task, outcome, now)))
  {
    var s := Signal(c.core.minted, task, outcome);
    BufferConserves(c, s);
    var c' := Apply(d, c, DoDeliver(task, outcome, now));
    if AcceptsOutcome(c.core.row.status) {
      ConservedFrame(c.(core := c.core.(queue := c.core.queue + [s], minted := c.core.minted + 1),
                        delivered := c.delivered + [s]), c');
      BufferHeld(d, c, c', s);
      OfAppend(c.core.queue, s, c.core.row.task);
    }
  }

  lemma ResolveKeeps(d: Def, c: Cell, taskEpoch: nat, b: Binding, outcome: int, now: int)
    requires Inv(d, c)
    ensures Inv(d, Apply(d, c, DoResolve(taskEpoch, b, outcome, now)))
  {
    var s := Signal(c.core.minted, c.core.row.task, outcome);
    BufferConserves(c, s);
    var c' := Apply(d, c, DoResolve(taskEpoch, b, outcome, now));
    if Accepts(c.core.row, taskEpoch, b, now) {
      ConservedFrame(c.(core := c.core.(queue := c.core.queue + [s], minted := c.core.minted + 1),
                        delivered := c.delivered + [s]), c');
      BufferHeld(d, c, c', s);
      OfAppend(c.core.queue, s, c.core.row.task);
    }
  }

  /** Buffering, with or without the un-park, leaves the holder's copy explained. */
  lemma BufferHeld(d: Def, c: Cell, c': Cell, s: Signal)
    requires HeldOk(d, c) && c'.core.queue == c.core.queue + [s] && c'.memory == c.memory
    requires c'.armed == c.armed && c'.misrouted == c.misrouted
    requires c'.core.row == c.core.row
      || (c'.core.row == Unpark(c.core.row) && c.core.row.phase == Parked && s.task == c.core.row.task)
    ensures HeldOk(d, c')
  {
    OfAppend(c.core.queue, s, c.core.row.task);
    if c.core.row.worker.Some? {
      var i := c.memory[c.core.row.epoch];
      if i.peek.Got? {
        OldestStays(c.core.queue, s, i.peek.task);
      }
    }
  }

  /** A step on the row alone, with the queue and the logs as they were. */
  ghost predicate RowOnly(c: Cell, c': Cell) {
    && c'.core.queue == c.core.queue && c'.core.minted == c.core.minted
    && c'.delivered == c.delivered && c'.consumed == c.consumed && c'.accepted == c.accepted
    && c'.armed == c.armed && c'.deferred == c.deferred && c'.reparked == c.reparked && c'.misrouted == c.misrouted
  }

  lemma ClaimKeeps(d: Def, c: Cell, step: Step)
    requires Inv(d, c) && step.DoClaim?
    ensures Inv(d, Apply(d, c, step))
  {
    ConservedFrame(c, Apply(d, c, step));
  }

  lemma PeekKeeps(d: Def, c: Cell, step: Step)
    requires Inv(d, c) && step.DoPeek?
    ensures Inv(d, Apply(d, c, step))
  {
    var c' := Apply(d, c, step);
    assert RowOnly(c, c') && c'.core == c.core;
    ConservedFrame(c, c');
  }

  lemma StatusKeeps(d: Def, c: Cell, step: Step)
    requires Inv(d, c) && (step.DoVerb? || step.DoRevive?)
    ensures Inv(d, Apply(d, c, step))
  {
    var c' := Apply(d, c, step);
    assert RowOnly(c, c') && c'.memory == c.memory;
    ConservedFrame(c, c');
  }

  /** Queue claims, renewals, releases and losses: the row may lose its park, but only to an
      answer. */
  lemma QueueStepKeeps(d: Def, c: Cell, c': Cell)
    requires Inv(d, c) && RowOnly(c, c') && c'.memory == c.memory
    requires var r, r' := c.core.row, c'.core.row;
      && r'.status == r.status && r'.task == r.task && r'.taskEpoch == r.taskEpoch
      && r'.worker == r.worker && r'.epoch == r.epoch
      && (r'.phase == r.phase || (r'.phase == NoPhase && Stranded(c)))
    ensures Inv(d, c')
  {
    ConservedFrame(c, c');
  }

  lemma RowStepKeeps(d: Def, c: Cell, step: Step)
    requires Inv(d, c) && !IsWrite(step) && !step.DoDeliver? && !step.DoResolve?
    ensures Inv(d, Apply(d, c, step))
  {
    if step.DoClaim? {
      ClaimKeeps(d, c, step);
    } else if step.DoPeek? {
      PeekKeeps(d, c, step);
    } else if step.DoVerb? || step.DoRevive? {
      StatusKeeps(d, c, step);
    } else {
      QueueKeeps(d, c, step);
    }
  }

  lemma QueueKeeps(d: Def, c: Cell, step: Step)
    requires Inv(d, c)
    requires step.DoRenew? || step.DoQueueClaim? || step.DoQueueRenew? || step.DoRelease? || step.DoMarkLost?
    ensures Inv(d, Apply(d, c, step))
  {
    QueueStepKeeps(d, c, Apply(d, c, step));
  }

  // The engine's writes.

  /** What every landed write owes: the lease released, and an answered epoch kept or left. */
  lemma LandedKeeps(d: Def, c: Cell, c': Cell)
    requires Inv(d, c) && c'.memory == c.memory && c'.accepted == c.accepted && (c.reparked ==> c'.reparked)
    requires c'.core.row.worker.None? && c'.core.row.epoch == c.core.row.epoch
    requires c'.core.row.taskEpoch >= c.core.row.taskEpoch
    requires c'.core.row.taskEpoch == c.core.row.taskEpoch && !c'.reparked && c.core.row.taskEpoch in c.accepted
      ==> Spoken(c'.core.row, c'.core.queue)
    ensures HeldOk(d, c') && Once(c')
  {
  }

  lemma ArmKeeps(d: Def, c: Cell, step: Step)
    requires Inv(d, c) && step.DoArm? && Fenced(c, step.epoch) && Enabled(d, c.memory[step.epoch], step)
    ensures Inv(d, Apply(d, c, step))
  {
    var c' := Apply(d, c, step);
    ConservedFrame(c, c');
    LandedKeeps(d, c, c');
  }

  lemma ConsumeKeeps(d: Def, c: Cell, step: Step)
    requires Inv(d, c) && step.DoConsume? && Fenced(c, step.epoch) && Enabled(d, c.memory[step.epoch], step)
    ensures Inv(d, Apply(d, c, step))
  {
    var c' := Apply(d, c, step);
    ConsumeConserves(c, c', c.memory[step.epoch].peek.task);
    LandedKeeps(d, c, c');
  }

  lemma RouteKeeps(d: Def, c: Cell, step: Step)
    requires Inv(d, c) && (step.DoExpire? || step.DoInterrupted?)
    requires Fenced(c, step.epoch) && Enabled(d, c.memory[step.epoch], step)
    ensures Inv(d, Apply(d, c, step))
  {
    var c' := Apply(d, c, step);
    ConservedFrame(c, c');
    LandedKeeps(d, c, c');
  }

  lemma SettleKeeps(d: Def, c: Cell, step: Step)
    requires Inv(d, c) && step.DoSettle? && Fenced(c, step.epoch) && Enabled(d, c.memory[step.epoch], step)
    ensures Inv(d, Apply(d, c, step))
  {
    var c' := Apply(d, c, step);
    ConservedFrame(c, c');
    LandedKeeps(d, c, c');
  }

  lemma OtherKeeps(d: Def, c: Cell, step: Step)
    requires Inv(d, c) && step.DoOther? && Fenced(c, step.epoch) && Enabled(d, c.memory[step.epoch], step)
    ensures Inv(d, Apply(d, c, step))
  {
    var c' := Apply(d, c, step);
    ConservedFrame(c, c');
    LandedKeeps(d, c, c');
  }

  lemma WriteKeeps(d: Def, c: Cell, step: Step)
    requires Inv(d, c) && IsWrite(step) && Fenced(c, step.epoch) && Enabled(d, c.memory[step.epoch], step)
    ensures Inv(d, Apply(d, c, step))
  {
    if step.DoArm? {
      ArmKeeps(d, c, step);
    } else if step.DoConsume? {
      ConsumeKeeps(d, c, step);
    } else if step.DoSettle? {
      SettleKeeps(d, c, step);
    } else if step.DoOther? {
      OtherKeeps(d, c, step);
    } else {
      RouteKeeps(d, c, step);
    }
  }

  lemma StepKeeps(d: Def, c: Cell, step: Step)
    requires Inv(d, c)
    ensures Inv(d, Apply(d, c, step))
  {
    if step.DoDeliver? {
      DeliverKeeps(d, c, step.task, step.outcome, step.now);
    } else if step.DoResolve? {
      ResolveKeeps(d, c, step.taskEpoch, step.binding, step.outcome, step.now);
    } else if !IsWrite(step) {
      RowStepKeeps(d, c, step);
    } else if Fenced(c, step.epoch) && Enabled(d, c.memory[step.epoch], step) {
      WriteKeeps(d, c, step);
    }
  }

  // ------------------------------------------------------------------------------------------
  // Over every run
  // ------------------------------------------------------------------------------------------

  /** A row as it is created: nobody holds it, nothing is buffered, no park is open. */
  ghost predicate Fresh(c: Cell) {
    && c.core.row.phase == NoPhase && c.core.row.worker.None? && !c.core.row.lost
    && c.core.queue == [] && c.core.minted == 0
    && c.memory == map[] && c.delivered == [] && c.consumed == [] && c.accepted == []
    && !c.deferred && !c.reparked && !c.misrouted
  }

  ghost predicate IsRun(d: Def, states: seq<Cell>, steps: seq<Step>) {
    && |states| == |steps| + 1 && Fresh(states[0])
    && forall i {:trigger steps[i]} :: 0 <= i < |steps| ==> states[i + 1] == Apply(d, states[i], steps[i])
  }

  lemma FreshInv(d: Def, c: Cell)
    requires Fresh(c)
    ensures Inv(d, c)
  {
    assert forall task :: Split(c, task);
  }

  lemma {:induction false} RunKeeps(d: Def, states: seq<Cell>, steps: seq<Step>, k: nat)
    requires IsRun(d, states, steps) && k < |states|
    ensures Inv(d, states[k])
  {
    if k == 0 {
      FreshInv(d, states[0]);
    } else {
      RunKeeps(d, states, steps, k - 1);
      assert states[k] == Apply(d, states[k - 1], steps[k - 1]);
      StepKeeps(d, states[k - 1], steps[k - 1]);
    }
  }

  /** Answers are neither lost nor applied twice: for each task the outcomes delivered are those
      consumed, each by one landed write and oldest first, followed by those still buffered. */
  lemma AnswersConserved(d: Def, states: seq<Cell>, steps: seq<Step>, k: nat, task: TaskId)
    requires IsRun(d, states, steps) && k < |states|
    ensures Of(states[k].delivered, task) == Of(states[k].consumed, task) + Of(states[k].core.queue, task)
    ensures forall i, j :: 0 <= i < j < |states[k].delivered| ==> states[k].delivered[i].id != states[k].delivered[j].id
  {
    RunKeeps(d, states, steps, k);
    assert Split(states[k], task);
  }

  /** No answer waits behind a park, unless its delivery met a live lease or claim. */
  lemma NoStrandedAnswer(d: Def, states: seq<Cell>, steps: seq<Step>, k: nat)
    requires IsRun(d, states, steps) && k < |states|
    requires !states[k].reparked && !states[k].misrouted && !states[k].deferred
    ensures states[k].core.row.phase == Parked ==> !Answered(states[k].core.queue, states[k].core.row.task)
  {
    RunKeeps(d, states, steps, k);
  }

  /** A queue worker is granted a wait only when every outcome ever buffered for it has been
      consumed by a landed write. */
  lemma GrantedUnanswered(d: Def, states: seq<Cell>, steps: seq<Step>, k: nat)
    requires IsRun(d, states, steps) && k < |steps| && steps[k].DoQueueClaim?
    requires states[k + 1].core.row.claimEpoch != states[k].core.row.claimEpoch
    ensures var c := states[k];
      c.core.row.phase == Parked && Of(c.delivered, c.core.row.task) == Of(c.consumed, c.core.row.task)
  {
    RunKeeps(d, states, steps, k);
    ClaimEpochStep(d, states[k], steps[k], states[k + 1]);
    ClaimOrAnswer(states[k].core, steps[k].worker, steps[k].now, steps[k].expiry);
    assert Split(states[k], states[k].core.row.task);
  }

  /** A resolve is logged exactly when the wait is open: with a two-part token while no claim is live,
      with a three-part one while it names the current claim, and neither while an engine lease is. */
  lemma ResolveLands(d: Def, states: seq<Cell>, steps: seq<Step>, k: nat)
    requires IsRun(d, states, steps) && k < |steps| && steps[k].DoResolve?
    ensures var r, now := states[k].core.row, steps[k].now;
      |states[k + 1].accepted| > |states[k].accepted| <==>
        && AcceptsOutcome(r.status) && r.phase == Parked && !LeaseLive(r, now) && steps[k].taskEpoch == r.taskEpoch
        && (if steps[k].binding.Unclaimed? then !ClaimLive(r, now) else steps[k].binding.claimEpoch == r.claimEpoch)
  {
    assert states[k + 1] == Apply(d, states[k], steps[k]);
    var r := states[k].core.row;
    if AcceptsOutcome(r.status) && r.phase == Parked && !LeaseLive(r, steps[k].now) && steps[k].binding.Bound? {
      TokenVerdicts(r, steps[k].now, steps[k].binding.claimEpoch);
    }
  }

  /** Each parking accepts at most one resolve. */
  lemma OneAnswerPerParking(d: Def, states: seq<Cell>, steps: seq<Step>, k: nat, i: nat, j: nat)
    requires IsRun(d, states, steps) && k < |states| && !states[k].reparked
    requires i < |states[k].accepted| && j < |states[k].accepted| && states[k].accepted[i] == states[k].accepted[j]
    ensures i == j
  {
    RunKeeps(d, states, steps, k);
  }

  /** The steps that void the tokens granted so far. */
  predicate Voids(c: Cell, step: Step) {
    || (step.DoQueueClaim? && Grants(c.core, step.now))
    || (step.DoRelease? && Releases(c.core.row, step.taskEpoch, step.claimEpoch))
    || (step.DoMarkLost? && Loses(c.core.row, step.taskEpoch))
  }

  lemma WriteKeepsClaim(c: Cell, i: Inst, step: Step)
    requires IsWrite(step)
    ensures WriteStep(c, i, step).core.row.claimEpoch == c.core.row.claimEpoch
  {
  }

  /** The claim epoch rises exactly on a grant, a release and a loss. */
  lemma ClaimEpochStep(d: Def, c: Cell, step: Step, c': Cell)
    requires c' == Apply(d, c, step)
    ensures c'.core.row.claimEpoch == c.core.row.claimEpoch + if Voids(c, step) then 1 else 0
  {
    if Lands(d, c, step) {
      WriteKeepsClaim(c, c.memory[step.epoch], step);
    }
  }

  lemma {:induction false} ClaimEpochRises(d: Def, states: seq<Cell>, steps: seq<Step>, i: nat, j: nat)
    requires IsRun(d, states, steps) && i <= j < |states|
    ensures states[i].core.row.claimEpoch <= states[j].core.row.claimEpoch
  {
    if i < j {
      ClaimEpochRises(d, states, steps, i, j - 1);
      ClaimEpochStep(d, states[j - 1], steps[j - 1], states[j]);
    }
  }

  /** A grant, a release or a loss voids every earlier claim token for good. */
  lemma TokenVoidedForGood(d: Def, states: seq<Cell>, steps: seq<Step>, i: nat, j: nat, claimEpoch: nat,
                           taskEpoch: nat, now: int)
    requires IsRun(d, states, steps) && i < j < |states| && claimEpoch <= states[i].core.row.claimEpoch
    requires Voids(states[i], steps[i])
    ensures !Accepts(states[j].core.row, taskEpoch, Bound(claimEpoch), now)
  {
    ClaimEpochStep(d, states[i], steps[i], states[i + 1]);
    ClaimEpochRises(d, states, steps, i + 1, j);
  }

  /** Expiry and renewal void nothing: while no grant, release or loss lands and the row stays
      parked under its epoch, the holder's token is accepted at any time no lease is live. */
  lemma {:induction false} TokenKept(d: Def, states: seq<Cell>, steps: seq<Step>, i: nat, j: nat, now: int)
    requires IsRun(d, states, steps) && i <= j < |states|
    requires forall m {:trigger steps[m]} :: i <= m < j ==> !Voids(states[m], steps[m])
    requires var r := states[j].core.row; AcceptsOutcome(r.status) && r.phase == Parked && !LeaseLive(r, now)
    ensures Accepts(states[j].core.row, states[j].core.row.taskEpoch, Bound(states[i].core.row.claimEpoch), now)
  {
    ClaimEpochKept(d, states, steps, i, j);
  }

  lemma {:induction false} ClaimEpochKept(d: Def, states: seq<Cell>, steps: seq<Step>, i: nat, j: nat)
    requires IsRun(d, states, steps) && i <= j < |states|
    requires forall m {:trigger steps[m]} :: i <= m < j ==> !Voids(states[m], steps[m])
    ensures states[j].core.row.claimEpoch == states[i].core.row.claimEpoch
  {
    if i < j {
      ClaimEpochKept(d, states, steps, i, j - 1);
      ClaimEpochStep(d, states[j - 1], steps[j - 1], states[j]);
    }
  }

  // ------------------------------------------------------------------------------------------
  // Where a park outlives its answer, and where it is carried to another task
  // ------------------------------------------------------------------------------------------

  predicate Lands(d: Def, c: Cell, step: Step) {
    IsWrite(step) && Fenced(c, step.epoch) && Enabled(d, c.memory[step.epoch], step)
  }

  /** A write that keeps the phase its copy was loaded with, under the same epoch. */
  predicate KeepsPhase(i: Inst, step: Step) {
    || step.DoSettle?
    || (step.DoInterrupted? && step.next.Done? && step.next.status.Completed?)
    || (step.DoOther? && i.phase == Parked && step.next.entries == 0
        && (step.next.Done? ==> step.next.status.Completed?))
  }

  /** An un-parked row is parked again under the same epoch, with its answer still buffered,
      exactly when a stalled holder that loaded it parked lands a write keeping what it loaded. */
  lemma ReparkExact(d: Def, c: Cell, step: Step)
    requires Inv(d, c) && c.core.row.phase != Parked && Answered(c.core.queue, c.core.row.task)
    ensures var r' := Apply(d, c, step).core.row;
      r'.phase == Parked && r'.taskEpoch == c.core.row.taskEpoch
      <==> Lands(d, c, step) && c.memory[step.epoch].phase == Parked && KeepsPhase(c.memory[step.epoch], step)
  {
    if Lands(d, c, step) {
      LandedPark(d, c, step, c.memory[step.epoch], Apply(d, c, step).core.row);
    } else {
      OnlyWritesPark(d, c, step, Apply(d, c, step).core.row);
    }
  }

  lemma OnlyWritesPark(d: Def, c: Cell, step: Step, r': Row)
    requires c.core.row.phase != Parked && !Lands(d, c, step) && r' == Apply(d, c, step).core.row
    ensures r'.phase != Parked
  {
  }

  lemma LandedPark(d: Def, c: Cell, step: Step, i: Inst, r': Row)
    requires CopyOk(d, c, i) && c.core.row.phase != Parked && Answered(c.core.queue, c.core.row.task)
    requires IsWrite(step) && Enabled(d, i, step) && r' == WriteStep(c, i, step).core.row
    ensures r'.phase == Parked && r'.taskEpoch == c.core.row.taskEpoch <==> i.phase == Parked && KeepsPhase(i, step)
  {
    if step.DoArm? {
      ArmedPark(d, c, step, i, r');
    } else {
      KeptPark(d, c, step, i, r');
    }
  }

  /** Arming under an answered epoch finds the answer. */
  lemma ArmedPark(d: Def, c: Cell, step: Step, i: Inst, r': Row)
    requires CopyOk(d, c, i) && c.core.row.phase != Parked && Answered(c.core.queue, c.core.row.task)
    requires step.DoArm? && Enabled(d, i, step) && r' == WriteStep(c, i, step).core.row
    ensures !(r'.phase == Parked && r'.taskEpoch == c.core.row.taskEpoch)
  {
  }

  lemma KeptPark(d: Def, c: Cell, step: Step, i: Inst, r': Row)
    requires i.taskEpoch == c.core.row.taskEpoch && IsWrite(step) && !step.DoArm? && Enabled(d, i, step)
    requires r' == WriteStep(c, i, step).core.row
    ensures r'.phase == Parked && r'.taskEpoch == c.core.row.taskEpoch <==> i.phase == Parked && KeepsPhase(i, step)
  {
  }

  /** A row is left parked under an epoch no arm opened exactly when the interrupted verdict on a
      parked only_once task is routed to another task: the route does not clear the park. */
  lemma MisparkExact(d: Def, c: Cell, step: Step)
    requires Inv(d, c) && !c.misrouted
    ensures var c' := Apply(d, c, step);
      c'.core.row.phase == Parked && c'.armed != Some(c'.core.row.taskEpoch)
      <==> Lands(d, c, step) && step.DoInterrupted? && step.next.Goto? && c.memory[step.epoch].phase == Parked
  {
    if Lands(d, c, step) {
      assert c.memory[step.epoch].taskEpoch == c.core.row.taskEpoch;
    }
  }

  /** Nothing un-parks a row that a worker, live or lapsed, still names as its holder. */
  ghost predicate Polite(d: Def, c: Cell, step: Step) {
    c.core.row.phase == Parked && c.core.row.worker.Some? && !IsWrite(step) ==>
      Apply(d, c, step).core.row.phase == Parked
  }

  ghost predicate Faithful(c: Cell) {
    var r := c.core.row;
    !c.reparked && (r.worker.Some? && r.epoch in c.memory ==> c.memory[r.epoch].phase == r.phase)
  }

  lemma PoliteStep(d: Def, c: Cell, step: Step)
    requires Inv(d, c) && Faithful(c) && Polite(d, c, step)
    ensures Faithful(Apply(d, c, step))
  {
    if IsWrite(step) {
      FaithfulWrite(d, c, step);
    } else {
      FaithfulElse(d, c, step);
    }
  }

  lemma FaithfulWrite(d: Def, c: Cell, step: Step)
    requires HeldOk(d, c) && Faithful(c) && IsWrite(step)
    ensures Faithful(Apply(d, c, step))
  {
  }

  lemma FaithfulElse(d: Def, c: Cell, step: Step)
    requires HeldOk(d, c) && Faithful(c) && Polite(d, c, step) && !IsWrite(step)
    ensures Faithful(Apply(d, c, step))
  {
  }

  /** When every un-park finds its row unheld, no park ever outlives its answer, and so no parking
      accepts two. */
  lemma {:induction false} PoliteRuns(d: Def, states: seq<Cell>, steps: seq<Step>, k: nat)
    requires IsRun(d, states, steps) && k < |states|
    requires forall m {:trigger steps[m]} :: 0 <= m < k ==> Polite(d, states[m], steps[m])
    ensures Faithful(states[k])
    ensures forall i, j :: 0 <= i < j < |states[k].accepted| ==> states[k].accepted[i] != states[k].accepted[j]
  {
    RunKeeps(d, states, steps, k);
    if k > 0 {
      PoliteRuns(d, states, steps, k - 1);
      PoliteNext(d, states, steps, k - 1);
    }
  }

  lemma PoliteNext(d: Def, states: seq<Cell>, steps: seq<Step>, k: nat)
    requires IsRun(d, states, steps) && k < |steps| && Faithful(states[k]) && Polite(d, states[k], steps[k])
    ensures Faithful(states[k + 1])
  {
    RunKeeps(d, states, steps, k);
    assert states[k + 1] == Apply(d, states[k], steps[k]);
    PoliteStep(d, states[k], steps[k]);
  }
}
