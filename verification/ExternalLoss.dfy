/**
 The claim over whole runs: how long a grant holds, what ends it, and how the loss of a holder
 reaches the process as an error of its own.
 */
module ExternalLoss {

  import opened Wrappers
  import opened Statuses
  import opened External
  import opened ExternalRuns

  // ------------------------------------------------------------------------------------------
  // A loss reaches the process
  // ------------------------------------------------------------------------------------------

  /** When a running row that no engine worker holds is the engine's to take: parked, exactly once its
      deadline has passed; waiting on its children, never; else at once, or when it is to be woken. */
  lemma ParkedClaimable(r: Row, now: int, cutoff: int)
    requires r.status == Running && r.worker.None?
    ensures r.phase == Parked ==> (EngineClaimable(r, now, cutoff) <==> r.wakeAt.Some? && r.wakeAt.value <= now)
    ensures r.phase == Children ==> !EngineClaimable(r, now, cutoff)
    ensures r.phase == NoPhase || r.phase == Collecting ==>
      (EngineClaimable(r, now, cutoff) <==> (r.wakeAt.Some? ==> r.wakeAt.value <= now))
  {
  }

  /** Over every run, a renewal moves the end of its worker's own lease, never back, and nothing else. */
  lemma LeaseRenewed(d: Def, states: seq<Cell>, steps: seq<Step>, k: nat)
    requires IsRun(d, states, steps) && k < |steps| && steps[k].DoRenew?
    ensures var r, r' := states[k].core.row, states[k + 1].core.row;
      && r' == r.(expires := r'.expires) && r'.expires >= r.expires
      && (r'.expires != r.expires ==> r.worker == Some(steps[k].worker) && r'.expires == steps[k].expiry)
      && (r.worker == Some(steps[k].worker) ==> r'.expires >= steps[k].expiry)
  {
    assert states[k + 1] == Apply(d, states[k], steps[k]);
  }

  /** Step m records a loss. */
  predicate MarksLoss(states: seq<Cell>, steps: seq<Step>, m: nat)
    requires |states| == |steps| + 1 && m < |steps|
  {
    steps[m].DoMarkLost? && Loses(states[m].core.row, steps[m].taskEpoch)
  }

  /** The mark is accepted exactly for the arming the row is parked on; it takes the claim from its
      holder, and the engine may take the row from that moment on. */
  lemma LossTaken(d: Def, states: seq<Cell>, steps: seq<Step>, m: nat, later: int, cutoff: int)
    requires IsRun(d, states, steps) && m < |steps| && steps[m].DoMarkLost? && steps[m].now <= later
    ensures var r, r' := states[m].core.row, states[m + 1].core.row;
      if r.phase == Parked && r.taskEpoch == steps[m].taskEpoch then
        && r'.lost && r'.phase == Parked && r'.extWorker.None? && r'.claimEpoch == r.claimEpoch + 1
        && !QueueClaimable(r', later)
        && (EngineClaimable(r', later, cutoff) <==>
              (r.status.Running? || r.status.Pausing? || r.status.Cancelling?)
              && (r.worker.None? || r.expires <= cutoff))
      else states[m + 1] == states[m]
  {
    assert states[m + 1] == Apply(d, states[m], steps[m]);
  }

  /** No step but a landed write takes the mark off. */
  lemma LossStays(d: Def, c: Cell, step: Step)
    requires c.core.row.lost && !Lands(d, c, step)
    ensures Apply(d, c, step).core.row.lost
  {
  }

  lemma {:induction false} LossStaysUntil(d: Def, states: seq<Cell>, steps: seq<Step>, i: nat, j: nat)
    requires IsRun(d, states, steps) && i <= j < |states| && states[i].core.row.lost
    requires forall m {:trigger steps[m]} :: i <= m < j ==> !Lands(d, states[m], steps[m])
    ensures states[j].core.row.lost
  {
    if i < j {
      LossStaysUntil(d, states, steps, i, j - 1);
      LossStays(d, states[j - 1], steps[j - 1]);
    }
  }

  /** Over every run: the worker that takes the row after a loss, no other write having landed since,
      sees the loss for what it is.  With no answer buffered it looks lost while it is parked, and in no
      case does it look timed out. */
  lemma LossReported(d: Def, states: seq<Cell>, steps: seq<Step>, m: nat, k: nat, buffered: Option<Answer>)
    requires IsRun(d, states, steps) && m < k < |steps| && MarksLoss(states, steps, m)
    requires forall n {:trigger steps[n]} :: m < n < k ==> !Lands(d, states[n], steps[n])
    requires steps[k].DoClaim? && EngineClaimable(states[k].core.row, steps[k].now, steps[k].cutoff)
    ensures var e := states[k + 1].core.row.epoch;
      && e in states[k + 1].memory
      && var copy := states[k + 1].memory[e];
        && copy.phase == states[k].core.row.phase
        && LookOf(copy.phase, copy.lost, buffered) != TimedOut
        && (copy.phase == Parked ==> LookOf(copy.phase, copy.lost, None) == HolderLost)
  {
    assert states[m + 1] == Apply(d, states[m], steps[m]);
    LossStaysUntil(d, states, steps, m + 1, k);
    assert states[k + 1] == Apply(d, states[k], steps[k]);
  }

  // ------------------------------------------------------------------------------------------
  // No loss but a real one
  // ------------------------------------------------------------------------------------------

  /** A write that takes the mark of one arming along to the next: the verdict on an interrupted
      only_once wait routed onwards, and the retry of an instance that failed with the mark on. */
  predicate CarriesLoss(d: Def, c: Cell, step: Step) {
    || (Lands(d, c, step) && step.DoInterrupted? && step.next.Goto? && c.memory[step.epoch].lost)
    || (step.DoRevive? && step.phase == NoPhase && c.core.row.status.Failed? && c.core.row.lost)
  }

  /** A loss was recorded before state k for the arming `taskEpoch`. */
  ghost predicate LossAt(states: seq<Cell>, steps: seq<Step>, k: nat, taskEpoch: nat)
    requires |states| == |steps| + 1 && k < |states|
  {
    exists m {:trigger MarksLoss(states, steps, m)} ::
      0 <= m < k && MarksLoss(states, steps, m) && states[m].core.row.taskEpoch == taskEpoch
  }

  lemma LossAtLater(states: seq<Cell>, steps: seq<Step>, j: nat, k: nat, taskEpoch: nat)
    requires |states| == |steps| + 1 && j <= k < |states| && LossAt(states, steps, j, taskEpoch)
    ensures LossAt(states, steps, k, taskEpoch)
  {
  }

  /** The mark, on the row and on the copy of its holder, is one this arming was given. */
  ghost predicate LossOk(d: Def, states: seq<Cell>, steps: seq<Step>, k: nat)
    requires |states| == |steps| + 1 && k < |states|
  {
    var c := states[k];
    && (c.core.row.lost ==> c.core.row.task in d.external && LossAt(states, steps, k, c.core.row.taskEpoch))
    && (HolderLossy(c) ==> c.core.row.task in d.external && LossAt(states, steps, k, c.core.row.taskEpoch))
  }

  lemma LandedLoss(d: Def, c: Cell, step: Step)
    requires Inv(d, c) && Lands(d, c, step) && !CarriesLoss(d, c, step)
    requires c.memory[step.epoch].lost ==> c.core.row.task in d.external
    ensures var r, r' := c.core.row, Apply(d, c, step).core.row;
      && r'.worker.None?
      && (r'.lost ==> c.memory[step.epoch].lost && r'.task == r.task && r'.taskEpoch == r.taskEpoch)
  {
    assert CopyOk(d, c, c.memory[step.epoch]);
  }

  lemma OtherLoss(d: Def, c: Cell, step: Step, r': Row)
    requires !Lands(d, c, step) && !CarriesLoss(d, c, step) && r' == Apply(d, c, step).core.row
    ensures r'.lost && !c.core.row.lost ==> step.DoMarkLost? && Loses(c.core.row, step.taskEpoch)
    ensures r'.lost || r'.worker.Some? ==> r'.task == c.core.row.task
    ensures r'.lost ==> r'.taskEpoch == c.core.row.taskEpoch
    ensures r'.worker.Some? ==> r'.taskEpoch == c.core.row.taskEpoch
  {
  }

  predicate HolderLossy(c: Cell) {
    c.core.row.worker.Some? && c.core.row.epoch in c.memory && c.memory[c.core.row.epoch].lost
  }

  lemma OtherCopy(d: Def, c: Cell, step: Step)
    requires Inv(d, c) && !Lands(d, c, step) && HolderLossy(Apply(d, c, step))
    ensures c.core.row.lost || HolderLossy(c)
  {
    if !step.DoClaim? && !step.DoPeek? {
      QuietCopy(d, c, step, Apply(d, c, step));
    }
  }

  lemma QuietCopy(d: Def, c: Cell, step: Step, c': Cell)
    requires !Lands(d, c, step) && !step.DoClaim? && !step.DoPeek? && c' == Apply(d, c, step)
    ensures c'.memory == c.memory && c'.core.row.epoch == c.core.row.epoch
    ensures c'.core.row.worker.Some? ==> c'.core.row.worker == c.core.row.worker
  {
  }

  lemma LossStep(d: Def, states: seq<Cell>, steps: seq<Step>, k: nat)
    requires IsRun(d, states, steps) && k < |steps| && Inv(d, states[k]) && !states[k].misrouted
    requires !CarriesLoss(d, states[k], steps[k]) && LossOk(d, states, steps, k)
    ensures LossOk(d, states, steps, k + 1)
  {
    var c, step := states[k], steps[k];
    assert states[k + 1] == Apply(d, c, step);
    if LossAt(states, steps, k, c.core.row.taskEpoch) {
      LossAtLater(states, steps, k, k + 1, c.core.row.taskEpoch);
    }
    if Lands(d, c, step) {
      LandedLoss(d, c, step);
    } else {
      OtherLoss(d, c, step, states[k + 1].core.row);
      if HolderLossy(states[k + 1]) {
        OtherCopy(d, c, step);
      }
      assert MarksLoss(states, steps, k) <==> step.DoMarkLost? && Loses(c.core.row, step.taskEpoch);
    }
  }

  lemma {:induction false} RunLoss(d: Def, states: seq<Cell>, steps: seq<Step>, k: nat)
    requires IsRun(d, states, steps) && k < |states| && !states[k].misrouted
    requires forall m {:trigger steps[m]} :: 0 <= m < k ==> !CarriesLoss(d, states[m], steps[m])
    ensures LossOk(d, states, steps, k)
  {
    if k > 0 {
      assert states[k] == Apply(d, states[k - 1], steps[k - 1]);
      assert !states[k - 1].misrouted;
      RunLoss(d, states, steps, k - 1);
      RunKeeps(d, states, steps, k - 1);
      LossStep(d, states, steps, k - 1);
    }
  }

  /** Over every run in which no mark is carried along: a parked row whose arming lost no holder, taken
      with no answer buffered, looks timed out, and never lost. */
  lemma TimeoutIsTimeout(d: Def, states: seq<Cell>, steps: seq<Step>, k: nat)
    requires IsRun(d, states, steps) && k < |states| && !states[k].misrouted && states[k].core.row.phase == Parked
    requires forall m {:trigger steps[m]} :: 0 <= m < k ==> !CarriesLoss(d, states[m], steps[m])
    requires !LossAt(states, steps, k, states[k].core.row.taskEpoch)
    ensures forall w :: LookOf(Load(states[k].core.row, w).phase, Load(states[k].core.row, w).lost, None) == TimedOut
  {
    RunLoss(d, states, steps, k);
  }

  /** Exactly when the mark outlives its arming: a landed write leaves it on the row under another epoch
      only by carrying it. */
  lemma CarriedExact(d: Def, c: Cell, step: Step)
    requires Inv(d, c) && !c.misrouted
    requires c.core.row.lost ==> c.core.row.task in d.external
    requires HolderLossy(c) ==> c.core.row.task in d.external
    ensures var r' := Apply(d, c, step).core.row;
      r'.lost && r'.taskEpoch != c.core.row.taskEpoch <==> CarriesLoss(d, c, step)
  {
    if Lands(d, c, step) {
      assert CopyOk(d, c, c.memory[step.epoch]);
    }
  }

  /** Exactly when a mark is taken off a row that stays parked on the arming it was given to: a holder
      whose copy is older than the mark writes back what it loaded. */
  lemma ErasedExact(d: Def, c: Cell, step: Step)
    requires Inv(d, c) && c.core.row.lost && c.core.row.phase == Parked
    ensures var r' := Apply(d, c, step).core.row;
      !r'.lost && r'.phase == Parked && r'.taskEpoch == c.core.row.taskEpoch <==>
      Lands(d, c, step) && !c.memory[step.epoch].lost && c.memory[step.epoch].phase == Parked &&
      KeepsPhase(c.memory[step.epoch], step)
  {
    if Lands(d, c, step) {
      KeptMark(d, c, step, c.memory[step.epoch], Apply(d, c, step).core.row);
    } else {
      LossStays(d, c, step);
    }
  }

  lemma KeptMark(d: Def, c: Cell, step: Step, i: Inst, r': Row)
    requires CopyOk(d, c, i) && IsWrite(step) && Enabled(d, i, step) && r' == WriteStep(c, i, step).core.row
    requires c.core.row.phase == Parked
    ensures !r'.lost && r'.phase == Parked && r'.taskEpoch == c.core.row.taskEpoch <==>
      !i.lost && i.phase == Parked && KeepsPhase(i, step)
  {
  }

  // ------------------------------------------------------------------------------------------
  // How long a grant holds
  // ------------------------------------------------------------------------------------------

  /** A step that takes nothing from the holder: no hand-back, no loss, no new arming, and no claim made
      after the grant has run out. */
  predicate Spares(d: Def, c: Cell, step: Step) {
    && !(step.DoRelease? && Releases(c.core.row, step.taskEpoch, step.claimEpoch))
    && !(step.DoMarkLost? && Loses(c.core.row, step.taskEpoch))
    && (step.DoQueueClaim? ==> step.now < c.core.row.extExpires)
    && Apply(d, c, step).core.row.taskEpoch == c.core.row.taskEpoch
  }

  /** An engine write leaves the claim alone within an arming and ends it with one. */
  lemma WriteClaim(c: Cell, i: Inst, step: Step, r': Row)
    requires IsWrite(step) && r' == WriteStep(c, i, step).core.row
    ensures ClaimFollows(c.core.row, r')
  {
    match step
    case DoConsume(_, next) =>
      if i.peek.Got? {
        NextClaim(c.core.row, NoPhase, i.peek.taskEpoch, next, false);
      }
    case DoExpire(_, next) => NextClaim(c.core.row, NoPhase, i.taskEpoch, next, false);
    case DoInterrupted(_, next) => NextClaim(c.core.row, InterruptedPhase(i, next), i.taskEpoch, next, i.lost);
    case DoOther(_, next, phase) => NextClaim(c.core.row, OtherPhase(i, next, phase), i.taskEpoch, next, i.lost);
    case _ =>
  }

  predicate ClaimFollows(r: Row, r': Row) {
    r'.extWorker == if r'.taskEpoch == r.taskEpoch then r.extWorker else None
  }

  lemma NextClaim(r: Row, phase: Phase, taskEpoch: nat, next: Next, lost: bool)
    ensures ClaimFollows(r, WriteNext(r, phase, taskEpoch, next, lost))
  {
  }

  lemma QuietClaim(d: Def, c: Cell, step: Step, r': Row)
    requires !Lands(d, c, step) && r' == Apply(d, c, step).core.row
    ensures r'.taskEpoch != c.core.row.taskEpoch ==> r'.extWorker.None?
    ensures r'.taskEpoch == c.core.row.taskEpoch && !step.DoQueueClaim? && !step.DoRelease? && !step.DoMarkLost? ==>
      r'.extWorker == c.core.row.extWorker
  {
  }

  lemma SparedHolder(d: Def, c: Cell, step: Step, r': Row)
    requires Spares(d, c, step) && c.core.row.extWorker.Some? && r' == Apply(d, c, step).core.row
    ensures r'.extWorker == c.core.row.extWorker && r'.claimEpoch == c.core.row.claimEpoch
  {
    ClaimEpochStep(d, c, step, Apply(d, c, step));
    if Lands(d, c, step) {
      WriteClaim(c, c.memory[step.epoch], step, r');
    } else {
      QuietClaim(d, c, step, r');
    }
  }

  /** Over every run a grant holds, to its worker and under its token, until it is handed back, marked
      lost, has run out when another worker asks, or the task is armed anew. */
  lemma {:induction false} LiveClaimHolds(d: Def, states: seq<Cell>, steps: seq<Step>, i: nat, j: nat)
    requires IsRun(d, states, steps) && i <= j < |states| && states[i].core.row.extWorker.Some?
    requires forall m {:trigger steps[m]} :: i <= m < j ==> Spares(d, states[m], steps[m])
    ensures var r, r' := states[i].core.row, states[j].core.row;
      r'.extWorker == r.extWorker && r'.claimEpoch == r.claimEpoch && r'.taskEpoch == r.taskEpoch
  {
    if i < j {
      LiveClaimHolds(d, states, steps, i, j - 1);
      assert states[j] == Apply(d, states[j - 1], steps[j - 1]);
      SparedHolder(d, states[j - 1], steps[j - 1], states[j].core.row);
    }
  }

  /** A new arming is nobody's: whatever moves the task epoch ends the claim with it. */
  lemma ArmingEndsClaim(d: Def, c: Cell, step: Step)
    requires Apply(d, c, step).core.row.taskEpoch != c.core.row.taskEpoch
    ensures Apply(d, c, step).core.row.extWorker.None?
  {
    if Lands(d, c, step) {
      WriteClaim(c, c.memory[step.epoch], step, Apply(d, c, step).core.row);
    } else {
      QuietClaim(d, c, step, Apply(d, c, step).core.row);
    }
  }

  /** A claim handed back is free at once: an answer that deferred to it goes to the engine, and without
      one the next worker may be granted the task; nothing else on the row moves. */
  lemma ReleaseFrees(c: Core, w: WorkerId, now: int, expiry: int)
    requires c.row.phase == Parked && c.row.extWorker.Some? && AcceptsOutcome(c.row.status)
    ensures var c' := Release(c, c.row.taskEpoch, c.row.claimEpoch);
      && c'.queue == c.queue
      && c'.row == c.row.(extWorker := None, claimEpoch := c.row.claimEpoch + 1, phase := c'.row.phase,
                          wakeAt := c'.row.wakeAt)
      && (Answered(c.queue, c.row.task) ==> c'.row.phase == NoPhase && c'.row.wakeAt.None?)
      && (!Answered(c.queue, c.row.task) ==>
            && c'.row.phase == Parked && c'.row.wakeAt == c.row.wakeAt
            && (QueueClaim(c', w, now, expiry).row.extWorker == Some(w) <==>
                  c.row.status == Running && (c.row.wakeAt.Some? ==> now < c.row.wakeAt.value)))
  {
  }

  /** A grant names its worker and the end of its lease, under an epoch no token has named before, and
      its holder alone may renew, hand back or answer it while it lasts. */
  lemma GrantHolds(c: Core, w: WorkerId, now: int, expiry: int, other: WorkerId, at: int)
    requires Grants(c, now) && at < expiry
    ensures var c' := QueueClaim(c, w, now, expiry);
      && c' == c.(row := c.row.(extWorker := Some(w), extExpires := expiry, claimEpoch := c.row.claimEpoch + 1))
      && QueueClaim(c', other, at, expiry) == c'
      && Holds(c'.row, w, c.row.taskEpoch, c.row.claimEpoch + 1)
      && (Holds(c'.row, other, c.row.taskEpoch, c.row.claimEpoch + 1) ==> other == w)
      && !Accepts(c'.row, c.row.taskEpoch, Unclaimed, at) && !DeliverUnparks(c'.row, c.row.task, at)
  {
  }

  /** What a renewal answers, and that only a grant still held moves: to the new end, and in nothing else. */
  lemma RenewExact(c: Core, w: WorkerId, taskEpoch: nat, claimEpoch: nat, expiry: int)
    ensures var c', v := QueueRenew(c, w, taskEpoch, claimEpoch, expiry), VerdictOf(c.row, w, taskEpoch, claimEpoch);
      var current := c.row.extWorker == Some(w) && c.row.taskEpoch == taskEpoch && c.row.claimEpoch == claimEpoch;
      && (v == Lost <==> !current)
      && (v == CancelledVerdict <==> current && (c.row.status == Cancelling || c.row.status == Cancelled))
      && c' == if v == Renewed then c.(row := c.row.(extExpires := expiry)) else c
  {
  }

  // ------------------------------------------------------------------------------------------
  // Where a landed write leaves the row
  // ------------------------------------------------------------------------------------------

  /** A stop that arrived while the row was held is still pending after a write of running. */
  predicate StopKept(r: Row, r': Row) {
    r'.status == if r.status.Pausing? || r.status.Cancelling? then r.status else Running
  }

  /** The advance's own conclusion: at the task routed to, woken when it asks to be, or concluded. */
  predicate Follows(r: Row, taskEpoch: nat, next: Next, r': Row) {
    && r'.worker.None? && r'.epoch == r.epoch
    && r'.task == next.task && r'.taskEpoch == taskEpoch + next.entries
    && (next.Goto? ==> r'.wakeAt == next.wakeAt && StopKept(r, r'))
    && (next.Done? ==> r'.wakeAt.None? && r'.status == next.status)
  }

  lemma NextFollows(r: Row, phase: Phase, taskEpoch: nat, next: Next, lost: bool)
    requires NextOk(next)
    ensures Follows(r, taskEpoch, next, WriteNext(r, phase, taskEpoch, next, lost))
  {
  }

  /** Over every run a landed write lets the row go and leaves it where its advance came to: at the task its
      answer or error routed to and to be woken then, parked until the deadline it resolved, or at rest
      where it was.  Only a write that consumed an answer takes one from the queue. */
  lemma WriteFollows(d: Def, states: seq<Cell>, steps: seq<Step>, k: nat)
    requires IsRun(d, states, steps) && k < |steps| && Lands(d, states[k], steps[k])
    ensures var i, step := states[k].memory[steps[k].epoch], steps[k];
      var r, r' := states[k].core.row, states[k + 1].core.row;
      && r'.worker.None?
      && (step.DoConsume? ==> Follows(r, i.peek.taskEpoch, step.next, r'))
      && (step.DoExpire? || step.DoInterrupted? || step.DoOther? ==> Follows(r, i.taskEpoch, step.next, r'))
      && (step.DoArm? ==>
            && r'.task == i.peek.task && r'.taskEpoch == i.peek.taskEpoch && StopKept(r, r')
            && (r'.phase == Parked <==> !Answered(states[k].core.queue, i.peek.task))
            && r'.wakeAt == if r'.phase == Parked then step.wakeAt else None)
      && (step.DoSettle? ==>
            && r'.status == (if i.status.Pausing? then Paused else Cancelled)
            && r'.task == r.task && r'.taskEpoch == r.taskEpoch)
      && (!step.DoConsume? ==> states[k + 1].core.queue == states[k].core.queue)
  {
    RunKeeps(d, states, steps, k);
    assert states[k + 1] == Apply(d, states[k], steps[k]);
    WriteStepFollows(d, states[k], states[k].memory[steps[k].epoch], steps[k], states[k + 1]);
  }

  lemma WriteStepFollows(d: Def, c: Cell, i: Inst, step: Step, c': Cell)
    requires IsWrite(step) && Enabled(d, i, step) && c' == WriteStep(c, i, step)
    requires i.task == c.core.row.task && i.taskEpoch == c.core.row.taskEpoch
    ensures var r, r' := c.core.row, c'.core.row;
      && r'.worker.None?
      && (step.DoConsume? ==> Follows(r, i.peek.taskEpoch, step.next, r'))
      && (step.DoExpire? || step.DoInterrupted? || step.DoOther? ==> Follows(r, i.taskEpoch, step.next, r'))
      && (step.DoArm? ==>
            && r'.task == i.peek.task && r'.taskEpoch == i.peek.taskEpoch && StopKept(r, r')
            && (r'.phase == Parked <==> !Answered(c.core.queue, i.peek.task))
            && r'.wakeAt == if r'.phase == Parked then step.wakeAt else None)
      && (step.DoSettle? ==>
            && r'.status == (if i.status.Pausing? then Paused else Cancelled)
            && r'.task == r.task && r'.taskEpoch == r.taskEpoch)
      && (!step.DoConsume? ==> c'.core.queue == c.core.queue)
  {
    match step
    case DoConsume(_, next) => NextFollows(c.core.row, NoPhase, i.peek.taskEpoch, next, false);
    case DoExpire(_, next) => NextFollows(c.core.row, NoPhase, i.taskEpoch, next, false);
    case DoInterrupted(_, next) => NextFollows(c.core.row, InterruptedPhase(i, next), i.taskEpoch, next, i.lost);
    case DoOther(_, next, phase) => NextFollows(c.core.row, OtherPhase(i, next, phase), i.taskEpoch, next, i.lost);
    case _ =>
  }
}
