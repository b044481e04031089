/**
 Whole runs of the lifecycle: every reachable state keeps the tree, so a settled root has
 nothing running below it and no waiting row is wedged.
 */
module Runs {
  import opened Wrappers
  import opened Statuses
  import opened Tree
  import opened Statements
  import opened Settle
  import opened Writes
  import opened Verbs
  import opened Stops
  import opened Revive
  import opened Lifecycle

  // ------------------------------------------------------------------------------------------
  // Operator verbs
  // ------------------------------------------------------------------------------------------

  /** What a verb answers: the outcomes, then the refusals. */
  datatype Verdict = Applied | Accepted | Unchanged | NotFound | NotRoot | Conflict

  /** On the way to another status; verbs are refused meanwhile. */
  predicate InTransition(s: Status) {
    Draining(s)
  }

  /** The verdict of a stop: accepted while a row it wrote still drains, applied once all stopped. */
  function StopVerdict(t: Table, t': Table, draining: Status, root: Status): (v: Verdict)
    requires t'.Keys == t.Keys
  {
    if exists x {:trigger t'[x].status} :: x in t && t'[x].status != t[x].status && t'[x].status == draining
    then Accepted
    else if exists x {:trigger t'[x].status} :: x in t && t'[x].status != t[x].status then Applied
    else if root == draining then Accepted
    else Unchanged
  }

  function Pause(t: Table, root: Id): (res: (Table, Verdict)) {
    if root !in t then (t, NotFound)
    else if t[root].stack != [] then (t, NotRoot)
    else if Terminal(t[root].status) then (t, Unchanged)
    else if InTransition(t[root].status) && t[root].status != Pausing then (t, Conflict)
    else (PauseTree(t, root), StopVerdict(t, PauseTree(t, root), Pausing, t[root].status))
  }

  function Cancel(t: Table, root: Id): (res: (Table, Verdict)) {
    if root !in t then (t, NotFound)
    else if t[root].stack != [] then (t, NotRoot)
    else if Terminal(t[root].status) then (t, Unchanged)
    else if InTransition(t[root].status) && t[root].status != Cancelling then (t, Conflict)
    else (CancelTree(t, root), StopVerdict(t, CancelTree(t, root), Cancelling, t[root].status))
  }

  function Resume(t: Table, root: Id): (res: (Table, Verdict)) {
    if root !in t then (t, NotFound)
    else if t[root].stack != [] then (t, NotRoot)
    else if InTransition(t[root].status) then (t, Conflict)
    else if !AnyPaused(t, root) then (t, if Terminal(t[root].status) then Conflict else Unchanged)
    else if t[root].status == Failed then (t, Conflict)
    else (ResumePaused(t, root), Applied)
  }

  function Retry(t: Table, root: Id, force: bool, onlyOnce: set<Id>): (res: (Table, Verdict)) {
    if root !in t then (t, NotFound)
    else if t[root].stack != [] then (t, NotRoot)
    else if t[root].status != Failed then (t, Conflict)
    else match RetryTable(t, root, force, onlyOnce)
      case None => (t, Conflict)
      case Some(t') => (t', Applied)
  }

  lemma PauseVerbKeeps(t: Table, root: Id)
    requires Inv(t)
    ensures Inv(Pause(t, root).0)
  {
    if root in t && t[root].stack == [] && Live(t[root]) {
      if t[root].status == Running {
        assert Pausable(t, root, None) by {
          forall x | x in t && Live(t[x])
            ensures if InTree(x, t[x], root) then t[x].status.Running? || t[x].status.Failing?
                    else Compat(t[RootOf(x, t[x])].status, t[x].status)
            ensures InTree(x, t[x], root) ==> t[x].status != Failing
          {
            assert Compat(t[RootOf(x, t[x])].status, t[x].status);
          }
        }
        PauseKeeps(t, root, None);
      } else {
        forall x | x in t && InTree(x, t[x], root)
          ensures !t[x].status.Running?
        {
          assert Live(t[x]) ==> Compat(t[RootOf(x, t[x])].status, t[x].status);
        }
        PauseNoop(t, root);
      }
    }
  }

  lemma CancelVerbKeeps(t: Table, root: Id)
    requires Inv(t)
    ensures Inv(Cancel(t, root).0)
  {
    if root in t && t[root].stack == [] && Live(t[root]) {
      if t[root].status.Running? || t[root].status.Paused? {
        CancelKeeps(t, root);
      } else if t[root].status == Cancelling {
        forall x | x in t && InTree(x, t[x], root)
          ensures !t[x].status.Running? && !t[x].status.Paused?
        {
          assert Live(t[x]) ==> Compat(t[RootOf(x, t[x])].status, t[x].status);
        }
        CancelNoop(t, root);
      }
    }
  }

  lemma ResumeVerbKeeps(t: Table, root: Id)
    requires Inv(t)
    ensures Inv(Resume(t, root).0)
  {
    if root in t && t[root].stack == [] && AnyPaused(t, root) {
      var x :| x in t && InTree(x, t[x], root) && t[x].status == Paused;
      assert Compat(t[RootOf(x, t[x])].status, t[x].status);
      if t[root].status == Paused {
        ResumeKeeps(t, root);
      }
    }
  }

  lemma RetryVerbKeeps(t: Table, root: Id, force: bool, onlyOnce: set<Id>)
    requires Inv(t)
    ensures Inv(Retry(t, root, force, onlyOnce).0)
  {
    if root in t && t[root].stack == [] && t[root].status == Failed && RetryTable(t, root, force, onlyOnce).Some? {
      RetryKeeps(t, root, force, onlyOnce);
    }
  }

  /** Under a paused root everything is at rest. */
  lemma PausedAtRest(t: Table, root: Id, x: Id)
    requires Inv(t) && root in t && t[root].stack == [] && t[root].status == Paused && x in t && InTree(x, t[x], root)
    ensures !Busy(t[x].status)
  {
    assert Live(t[x]) ==> Compat(t[RootOf(x, t[x])].status, t[x].status);
  }

  /** A pausing row answers for a pausing root, unless a failure got there first. */
  lemma PausingRoot(t: Table, root: Id, x: Id)
    requires Inv(t) && root in t && x in t && InTree(x, t[x], root) && t[x].status == Pausing
    requires t[root].status != Failing
    ensures t[root].status == Pausing
  {
    assert Compat(t[RootOf(x, t[x])].status, t[x].status);
  }

  lemma PauseRunning(t: Table, root: Id)
    requires Inv(t) && root in t && t[root].stack == [] && t[root].status == Running
    ensures var (t', v) := Pause(t, root); v == (if t'[root].status == Pausing then Accepted else Applied)
  {
    PauseRuns(t, root);
    assert Inv(PauseTree(t, root)) by {
      PauseVerbKeeps(t, root);
    }
    PauseStops(t, root, PauseTree(t, root));
  }

  lemma PauseRuns(t: Table, root: Id)
    requires root in t && t[root].stack == [] && t[root].status == Running
    ensures Pause(t, root) == (PauseTree(t, root), StopVerdict(t, PauseTree(t, root), Pausing, Running))
  {
  }

  lemma PauseStops(t: Table, root: Id, t': Table)
    requires Inv(t') && root in t && t[root].stack == [] && t[root].status == Running && t'.Keys == t.Keys
    requires forall x {:trigger t'[x]} :: x in t ==> t'[x] == t[x].(status := PauseStatus(t, root, x))
    ensures StopVerdict(t, t', Pausing, Running) == if t'[root].status == Pausing then Accepted else Applied
  {
    assert t'[root].status == PauseStatus(t, root, root);
    forall x | x in t && t'[x].status != t[x].status && t'[x].status == Pausing
      ensures t'[root].status == Pausing
    {
      PausedRow(t, root, t', x);
    }
  }

  lemma PausedRow(t: Table, root: Id, t': Table, x: Id)
    requires Inv(t') && x in t && root in t' && x in t' && t'[root].status != Failing
    requires t'[x] == t[x].(status := PauseStatus(t, root, x)) && t'[x].status == Pausing != t[x].status
    ensures t'[root].status == Pausing
  {
    PausingRoot(t', root, x);
  }

  lemma PauseIdle(t: Table, root: Id)
    requires Inv(t) && root in t && t[root].stack == [] && (t[root].status == Pausing || t[root].status == Paused)
    ensures Pause(t, root) == (t, if t[root].status == Pausing then Accepted else Unchanged)
  {
    forall x | x in t && InTree(x, t[x], root)
      ensures !t[x].status.Running?
    {
      assert Live(t[x]) ==> Compat(t[RootOf(x, t[x])].status, t[x].status);
    }
    PauseNoop(t, root);
  }

  /** What the verdict of a pause is worth: applied means the whole tree is at rest, accepted
      that the root reports it is still stopping. */
  lemma PauseVerdict(t: Table, root: Id, x: Id)
    requires Inv(t) && x in t && InTree(x, t[x], root)
    ensures var (t', v) := Pause(t, root);
      && t'.Keys == t.Keys
      && (v == Applied ==> root in t' && t'[root].status == Paused && !Busy(t'[x].status))
      && (v == Accepted ==> root in t' && t'[root].status == Pausing)
  {
    if root in t && t[root].stack == [] {
      if t[root].status == Running {
        PauseVerdictRunning(t, root, x);
      } else if t[root].status == Pausing || t[root].status == Paused {
        PauseIdle(t, root);
      }
    }
  }

  lemma PauseVerdictRunning(t: Table, root: Id, x: Id)
    requires Inv(t) && x in t && InTree(x, t[x], root) && root in t && t[root].stack == [] && t[root].status == Running
    ensures var (t', v) := Pause(t, root);
      && t'.Keys == t.Keys
      && (v == Applied ==> t'[root].status == Paused && !Busy(t'[x].status))
      && (v == Accepted ==> t'[root].status == Pausing)
  {
    PauseRuns(t, root);
    PauseRunning(t, root);
    var t' := PauseTree(t, root);
    assert t'[root].status == PauseStatus(t, root, root);
    assert t'[x] == t[x].(status := PauseStatus(t, root, x));
    if t'[root].status == Paused {
      assert Inv(t') by {
        PauseVerbKeeps(t, root);
      }
      PausedAtRest(t', root, x);
    }
  }

  // ------------------------------------------------------------------------------------------
  // The state machine
  // ------------------------------------------------------------------------------------------

  /** The table, and every instance a claim has handed out, keyed by row and lease epoch. */
  datatype Sys = Sys(rows: Table, memory: map<(Id, nat), Snap>)

  datatype Step =
    | DoCreate(x: Id, task: TaskId)
    | DoClaim(x: Id, worker: WorkerId)
    | DoWrite(x: Id, epoch: nat, outcome: Outcome)
    | DoUnpark(x: Id)
    | DoPause(root: Id)
    | DoCancel(root: Id)
    | DoResume(root: Id)
    | DoRetry(root: Id, force: bool, onlyOnce: set<Id>)

  /** The status and phase half of the claim predicate; its two clocks are left to the run. */
  predicate Claimable(r: Row) {
    (r.status.Running? || r.status.Pausing? || r.status.Cancelling?) && r.phase != Children
  }

  function ClaimRow(r: Row, w: WorkerId): (r': Row) {
    r.(worker := Some(w), leaseEpoch := r.leaseEpoch + 1)
  }

  /** The grant named by `(x, epoch)` is the one the row still carries. */
  predicate Fenced(s: Sys, x: Id, epoch: nat) {
    && x in s.rows && (x, epoch) in s.memory
    && s.rows[x].leaseEpoch == epoch && s.rows[x].worker == Some(s.memory[(x, epoch)].worker)
  }

  function RootRow(task: TaskId): (r: Row) {
    Row([], NO_TASK, 0, Running, NoPhase, task, 0, None, 0, false)
  }

  /** A write that passes its fence lands whole or not at all; any other changes nothing. */
  function ApplyWrite(s: Sys, x: Id, epoch: nat, o: Outcome): (s': Sys) {
    if !Fenced(s, x, epoch) then s
    else match WriteRows(s.rows, x, s.memory[(x, epoch)], o)
      case None => s
      case Some(t) => s.(rows := t)
  }

  function Apply(s: Sys, step: Step): (s': Sys) {
    match step
    case DoCreate(x, task) =>
      if x in s.rows then s else s.(rows := s.rows[x := RootRow(task)])
    case DoClaim(x, w) =>
      if x !in s.rows || !Claimable(s.rows[x]) then s
      else
        var r := s.rows[x];
        Sys(s.rows[x := ClaimRow(r, w)],
            s.memory[(x, r.leaseEpoch + 1) := Snap(w, r.status, r.phase, r.task, r.taskEpoch)])
    case DoWrite(x, epoch, o) => ApplyWrite(s, x, epoch, o)
    case DoUnpark(x) =>
      if x !in s.rows || s.rows[x].phase != Parked || !AcceptsOutcome(s.rows[x].status) then s
      else s.(rows := s.rows[x := s.rows[x].(phase := NoPhase)])
    case DoPause(root) => s.(rows := Pause(s.rows, root).0)
    case DoCancel(root) => s.(rows := Cancel(s.rows, root).0)
    case DoResume(root) => s.(rows := Resume(s.rows, root).0)
    case DoRetry(root, force, onlyOnce) => s.(rows := Retry(s.rows, root, force, onlyOnce).0)
  }

  /** A step a run may take: a write is one its advance could have asked for. */
  ghost predicate Enabled(s: Sys, step: Step) {
    step.DoWrite? && (step.x, step.epoch) in s.memory ==>
      Admissible(s.rows, s.memory[(step.x, step.epoch)], step.outcome)
  }

  /** Every held row is remembered as it was claimed. */
  ghost predicate Remembered(t: Table, memory: map<(Id, nat), Snap>) {
    forall x {:trigger t[x].leaseEpoch} :: x in t && t[x].worker.Some? ==>
      (x, t[x].leaseEpoch) in memory && SnapOk(t[x], memory[(x, t[x].leaseEpoch)])
  }

  ghost predicate SysInv(s: Sys) {
    Inv(s.rows) && Remembered(s.rows, s.memory)
  }

  /** A table change that no holder has to be told about: held rows keep their grant and their
      place, and at most begin to drain. */
  ghost predicate HoldersKept(t: Table, t': Table) {
    forall x {:trigger t'[x].worker} :: x in t' && t'[x].worker.Some? ==>
      && x in t && t'[x].worker == t[x].worker && t'[x].leaseEpoch == t[x].leaseEpoch
      && t'[x].task == t[x].task && t'[x].taskEpoch == t[x].taskEpoch
      && (t'[x].status == t[x].status || t[x].status.Running?)
  }

  lemma StillRemembered(t: Table, t': Table, memory: map<(Id, nat), Snap>)
    requires Inv(t) && Inv(t') && Remembered(t, memory) && HoldersKept(t, t')
    ensures Remembered(t', memory)
  {
    forall x | x in t' && t'[x].worker.Some?
      ensures (x, t'[x].leaseEpoch) in memory && SnapOk(t'[x], memory[(x, t'[x].leaseEpoch)])
    {
      assert RowOk(t[x]);
      assert RowOk(t'[x]);
      assert t[x].leaseEpoch == t'[x].leaseEpoch;
    }
  }

  /** The climb writes only rows that wait on children, which nobody holds. */
  lemma ClimbHolders(t: Table, path: seq<Id>, task: TaskId, epoch: nat)
    requires forall i :: 0 <= i < |path| && path[i] in t ==> t[path[i]].worker.None?
    ensures SettleUp(t, path, task, epoch).Keys == t.Keys
    ensures HoldersKept(t, SettleUp(t, path, task, epoch))
    ensures forall x {:trigger SettleUp(t, path, task, epoch)[x]} :: x in t && x !in path ==>
      SettleUp(t, path, task, epoch)[x] == t[x]
    decreases |path|
  {
    if path != [] && path[|path| - 1] in t {
      var p := path[|path| - 1];
      var (row, settled) := SettleParent(t, p, task, epoch);
      assert row.worker == t[p].worker;
      if settled {
        ClimbHolders(t[p := row], path[..|path| - 1], row.spawnTask, row.parentEpoch);
      }
    }
  }

  /** Nobody holds an ancestor of a busy row. */
  lemma StackUnheld(t: Table, c: Id, i: nat)
    requires Inv(t) && c in t && Busy(t[c].status) && i < |t[c].stack|
    ensures t[t[c].stack[i]].worker.None?
  {
    BusyAncestors(t, None, c, i);
    assert RowOk(t[t[c].stack[i]]);
  }

  lemma FailHolders(t: Table, c: Id, row: Row)
    requires Inv(t) && c in t && t[c].worker.Some? && SamePlace(t[c], row) && row.stack != [] && row.worker.None?
    ensures FailRows(t, c, row).Keys == t.Keys
    ensures HoldersKept(t, FailRows(t, c, row))
    ensures forall i :: 0 <= i < |row.stack| ==> FailRows(t, c, row)[row.stack[i]].worker.None?
  {
    assert RowOk(t[c]);
    var t3 := FailRows(t, c, row);
    forall i | 0 <= i < |row.stack|
      ensures t[row.stack[i]].worker.None?
    {
      StackUnheld(t, c, i);
    }
    forall x {:trigger t3[x].worker} | x in t3 && t3[x].worker.Some?
      ensures x in t && t3[x].worker == t[x].worker && t3[x].leaseEpoch == t[x].leaseEpoch
      ensures t3[x].task == t[x].task && t3[x].taskEpoch == t[x].taskEpoch
      ensures t3[x].status == t[x].status || t[x].status.Running?
    {
      assert x != c && x !in row.stack;
    }
    NotOnPath(t, None, c, c);
  }

  lemma StopHolders(t: Table, c: Id, row: Row)
    requires Inv(t) && c in t && t[c].worker.Some? && SamePlace(t[c], row) && row.worker.None?
    ensures HoldersKept(t, StopRows(t, c, row))
  {
    assert RowOk(t[c]);
    forall i | 0 <= i < |row.stack|
      ensures t[c := row][row.stack[i]].worker.None?
    {
      StackUnheld(t, c, i);
    }
    if row.stack != [] {
      if row.status.Failed? {
        FailHolders(t, c, row);
        var t3 := FailRows(t, c, row);
        ClimbHolders(t3, row.stack, row.spawnTask, row.parentEpoch);
        StopChain(t, t3, SettleUp(t3, row.stack, row.spawnTask, row.parentEpoch), row.stack);
      } else {
        ClimbHolders(t[c := row], row.stack, row.spawnTask, row.parentEpoch);
        StopChain(t, t[c := row], FinishRows(t, c, row), row.stack);
      }
    }
  }

  lemma StopChain(t: Table, t1: Table, t2: Table, path: seq<Id>)
    requires HoldersKept(t, t1) && t2.Keys == t1.Keys && HoldersKept(t1, t2)
    requires forall i :: 0 <= i < |path| && path[i] in t1 ==> t1[path[i]].worker.None?
    requires forall x {:trigger t2[x]} :: x in t1 && x !in path ==> t2[x] == t1[x]
    ensures HoldersKept(t, t2)
  {
    forall x {:trigger t2[x].worker} | x in t2 && t2[x].worker.Some?
      ensures x in t && t2[x].worker == t[x].worker && t2[x].leaseEpoch == t[x].leaseEpoch
      ensures t2[x].task == t[x].task && t2[x].taskEpoch == t[x].taskEpoch
      ensures t2[x].status == t[x].status || t[x].status.Running?
    {
      assert t1[x].worker.Some?;
      assert t2[x] == t1[x];
    }
  }

  lemma WriteHolders(t: Table, c: Id, snap: Snap, o: Outcome)
    requires Inv(t) && c in t && SnapOk(t[c], snap) && Admissible(t, snap, o) && WriteRows(t, c, snap, o).Some?
    ensures HoldersKept(t, WriteRows(t, c, snap, o).value)
  {
    match o {
      case Conclude(status, task, epoch, phase) =>
        StopHolders(t, c, UpdateRow(t[c], task, epoch, status, phase));
      case LandStop =>
        StopHolders(t, c, UpdateRow(t[c], snap.task, snap.taskEpoch, LandedStatus(snap.status), snap.phase));
      case _ =>
    }
  }

  lemma RetryHolders(t: Table, root: Id, force: bool, onlyOnce: set<Id>)
    requires Inv(t)
    ensures HoldersKept(t, Retry(t, root, force, onlyOnce).0)
  {
    var t' := Retry(t, root, force, onlyOnce).0;
    forall x {:trigger t'[x].worker} | x in t' && t'[x].worker.Some?
      ensures x in t && t'[x].worker == t[x].worker && t'[x].leaseEpoch == t[x].leaseEpoch
      ensures t'[x].task == t[x].task && t'[x].taskEpoch == t[x].taskEpoch
      ensures t'[x].status == t[x].status || t[x].status.Running?
    {
      assert RowOk(t[x]);
    }
  }

  lemma ResumeHolders(t: Table, root: Id)
    requires Inv(t)
    ensures HoldersKept(t, Resume(t, root).0)
  {
    var t' := Resume(t, root).0;
    forall x {:trigger t'[x].worker} | x in t' && t'[x].worker.Some?
      ensures x in t && t'[x].worker == t[x].worker && t'[x].leaseEpoch == t[x].leaseEpoch
      ensures t'[x].task == t[x].task && t'[x].taskEpoch == t[x].taskEpoch
      ensures t'[x].status == t[x].status || t[x].status.Running?
    {
      assert RowOk(t[x]);
    }
  }

  lemma CancelHolders(t: Table, root: Id)
    requires Inv(t)
    ensures HoldersKept(t, Cancel(t, root).0)
  {
    var t' := Cancel(t, root).0;
    forall x {:trigger t'[x].worker} | x in t' && t'[x].worker.Some?
      ensures x in t && t'[x].worker == t[x].worker && t'[x].leaseEpoch == t[x].leaseEpoch
      ensures t'[x].task == t[x].task && t'[x].taskEpoch == t[x].taskEpoch
      ensures t'[x].status == t[x].status || t[x].status.Running?
    {
      assert RowOk(t[x]);
    }
  }

  lemma CreateKeeps(t: Table, x: Id, task: TaskId)
    requires Inv(t) && x !in t
    ensures Inv(t[x := RootRow(task)])
  {
    var t' := t[x := RootRow(task)];
    forall y, i | y in t && 0 <= i < |t[y].stack|
      ensures t[y].stack[i] != x
    {
    }
    assert Linked(t');
    forall y, i | y in t' && Live(t'[y]) && 0 <= i < |t'[y].stack|
      ensures EdgeOk(t', y, i)
    {
      assert EdgeOk(t, y, i);
    }
    forall q | q in t'
      ensures FedAt(t', q)
    {
      if q != x {
        CreateFed(t, x, task, q);
      }
    }
    CreateRest(t, x, task);
  }

  lemma CreateFed(t: Table, x: Id, task: TaskId, q: Id)
    requires Inv(t) && x !in t && q in t
    ensures FedAt(t[x := RootRow(task)], q)
  {
    var t' := t[x := RootRow(task)];
    assert FedAt(t, q);
    if t[q].phase == Children && Live(t[q]) {
      var d := FedChild(t, q);
      assert t'[d].status == t[d].status && ParentOf(t'[d]) == Some(q);
    }
  }

  lemma CreateRest(t: Table, x: Id, task: TaskId)
    requires Inv(t) && x !in t && Linked(t[x := RootRow(task)])
    ensures var t' := t[x := RootRow(task)]; ModeOk(t') && FailUp(t') && RowsOk(t')
  {
    var t' := t[x := RootRow(task)];
    forall y | y in t'
      ensures Live(t'[y]) ==> Compat(t'[RootOf(y, t'[y])].status, t'[y].status)
      ensures RowOk(t'[y])
    {
      if y != x {
        assert RowOk(t[y]);
        assert Live(t[y]) ==> Compat(t[RootOf(y, t[y])].status, t[y].status);
      }
    }
  }

  lemma ClaimKeeps(s: Sys, x: Id, w: WorkerId)
    requires SysInv(s)
    ensures SysInv(Apply(s, DoClaim(x, w)))
  {
    if x in s.rows && Claimable(s.rows[x]) {
      assert RowOk(s.rows[x]);
      RowWriteKeeps(s.rows, x, ClaimRow(s.rows[x], w));
    }
  }

  lemma UnparkKeeps(s: Sys, x: Id)
    requires SysInv(s)
    ensures SysInv(Apply(s, DoUnpark(x)))
  {
    if x in s.rows && s.rows[x].phase == Parked && AcceptsOutcome(s.rows[x].status) {
      assert RowOk(s.rows[x]);
      var t' := s.rows[x := s.rows[x].(phase := NoPhase)];
      RowWriteKeeps(s.rows, x, t'[x]);
      StillRemembered(s.rows, t', s.memory);
    }
  }

  lemma WriteStepKeeps(s: Sys, x: Id, epoch: nat, o: Outcome)
    requires SysInv(s) && Enabled(s, DoWrite(x, epoch, o))
    ensures SysInv(ApplyWrite(s, x, epoch, o))
  {
    if Fenced(s, x, epoch) {
      var snap := s.memory[(x, epoch)];
      assert s.rows[x].leaseEpoch == epoch;
      if WriteRows(s.rows, x, snap, o).Some? {
        WriteKeeps(s.rows, x, snap, o);
        WriteHolders(s.rows, x, snap, o);
        StillRemembered(s.rows, WriteRows(s.rows, x, snap, o).value, s.memory);
      }
    }
  }

  /** Every step of every run keeps the invariant. */
  lemma StepKeeps(s: Sys, step: Step)
    requires SysInv(s) && Enabled(s, step)
    ensures SysInv(Apply(s, step))
  {
    var t := s.rows;
    match step {
      case DoCreate(x, task) =>
        if x !in t {
          CreateKeeps(t, x, task);
          StillRemembered(t, t[x := RootRow(task)], s.memory);
        }
      case DoClaim(x, w) => ClaimKeeps(s, x, w);
      case DoWrite(x, epoch, o) => WriteStepKeeps(s, x, epoch, o);
      case DoUnpark(x) => UnparkKeeps(s, x);
      case DoPause(root) =>
        PauseVerbKeeps(t, root);
        StillRemembered(t, Pause(t, root).0, s.memory);
      case DoCancel(root) =>
        CancelVerbKeeps(t, root);
        CancelHolders(t, root);
        StillRemembered(t, Cancel(t, root).0, s.memory);
      case DoResume(root) =>
        ResumeVerbKeeps(t, root);
        ResumeHolders(t, root);
        StillRemembered(t, Resume(t, root).0, s.memory);
      case DoRetry(root, force, onlyOnce) =>
        RetryVerbKeeps(t, root, force, onlyOnce);
        RetryHolders(t, root, force, onlyOnce);
        StillRemembered(t, Retry(t, root, force, onlyOnce).0, s.memory);
    }
  }

  // ------------------------------------------------------------------------------------------
  // What holds in every reachable state
  // ------------------------------------------------------------------------------------------

  /** The states of a run from an empty database. */
  ghost predicate IsRun(states: seq<Sys>, steps: seq<Step>) {
    && |states| == |steps| + 1
    && states[0] == Sys(map[], map[])
    && forall i {:trigger steps[i]} :: 0 <= i < |steps| ==>
         Enabled(states[i], steps[i]) && states[i + 1] == Apply(states[i], steps[i])
  }

  lemma {:induction false} RunKeeps(states: seq<Sys>, steps: seq<Step>, k: nat)
    requires IsRun(states, steps) && k < |states|
    ensures SysInv(states[k])
  {
    if k > 0 {
      RunKeeps(states, steps, k - 1);
      assert Enabled(states[k - 1], steps[k - 1]);
      StepKeeps(states[k - 1], steps[k - 1]);
    }
  }

  /** Drain safety over every run: nothing busy is ever below a row that is paused or concluded,
      so a root that has settled has nothing still running anywhere in its tree. */
  lemma DrainSafety(states: seq<Sys>, steps: seq<Step>, k: nat, a: Id, x: Id)
    requires IsRun(states, steps) && k < |states|
    requires a in states[k].rows && x in states[k].rows && a in states[k].rows[x].stack
    requires var s := states[k].rows[a].status; s == Paused || Terminal(s)
    ensures !Busy(states[k].rows[x].status)
  {
    RunKeeps(states, steps, k);
    var t := states[k].rows;
    var i :| 0 <= i < |t[x].stack| && t[x].stack[i] == a;
    if Live(t[x]) {
      assert EdgeOk(t, x, i);
    }
  }

  /** No wedged parents over every run: a busy row that waits on children has a busy one in its
      current batch, and a suspended one has a child that has not concluded. */
  lemma NoWedgedParent(states: seq<Sys>, steps: seq<Step>, k: nat, p: Id) returns (c: Id)
    requires IsRun(states, steps) && k < |states|
    requires p in states[k].rows && states[k].rows[p].phase == Children && Live(states[k].rows[p])
    ensures var t := states[k].rows;
      && c in t && InBatch(t[c], p, t[p].task, t[p].taskEpoch) && Live(t[c])
      && (Busy(t[p].status) ==> Busy(t[c].status))
  {
    RunKeeps(states, steps, k);
    var t := states[k].rows;
    assert FedAt(t, p);
    c := FedChild(t, p);
    assert EdgeOk(t, c, |t[c].stack| - 1);
  }

  /** Rows of the table that are not above `x`. */
  ghost function NotAbove(t: Table, x: Id): set<Id>
    requires x in t
  {
    t.Keys - (set y | y in t[x].stack)
  }

  lemma ChildDeeper(t: Table, p: Id, c: Id)
    requires Linked(t) && p in t && c in t && ParentOf(t[c]) == Some(p)
    ensures t[c].stack == t[p].stack + [p]
    ensures NotAbove(t, c) < NotAbove(t, p)
  {
    assert t[c].stack[|t[c].stack| - 1] == p;
    assert t[p].stack == t[c].stack[..|t[c].stack| - 1];
    forall i | 0 <= i < |t[p].stack|
      ensures t[p].stack[i] != p
    {
      assert |t[t[p].stack[i]].stack| == i;
    }
    assert p in NotAbove(t, p) && p !in NotAbove(t, c);
  }

  /** Every busy row has, at or below it, one that is held or that the claim may grant: a stop
      always has someone left to land it. */
  lemma SomeoneToAct(t: Table, x: Id) returns (y: Id)
    requires Inv(t) && x in t && Busy(t[x].status)
    ensures y in t && (y == x || x in t[y].stack) && Claimable(t[y])
    decreases NotAbove(t, x)
  {
    if t[x].phase != Children {
      y := x;
      assert t[x].status != Failing;
    } else {
      assert FedAt(t, x);
      var c := FedChild(t, x);
      ChildDeeper(t, x, c);
      y := SomeoneToAct(t, c);
      if y != c {
        var i :| 0 <= i < |t[y].stack| && t[y].stack[i] == c;
        assert t[c].stack == t[y].stack[..i];
        assert t[c].stack[|t[c].stack| - 1] == x;
        assert x in t[y].stack;
      }
    }
  }

  // ------------------------------------------------------------------------------------------
  // What has finished stays finished
  // ------------------------------------------------------------------------------------------

  /** Completed, raised or cancelled: nothing but a failure can be retried. */
  predicate Finished(s: Status) {
    s.Completed? || s.Raised? || s.Cancelled?
  }

  ghost predicate StaysFinished(t: Table, t': Table, x: Id) {
    x in t && Finished(t[x].status) ==> x in t' && t'[x].status == t[x].status && t'[x].stack == t[x].stack
  }

  lemma {:induction false} ClimbFinished(t: Table, path: seq<Id>, task: TaskId, epoch: nat, x: Id)
    ensures StaysFinished(t, SettleUp(t, path, task, epoch), x)
    decreases |path|
  {
    if path != [] && path[|path| - 1] in t {
      var p := path[|path| - 1];
      var (row, settled) := SettleParent(t, p, task, epoch);
      if settled {
        ClimbFinished(t[p := row], path[..|path| - 1], row.spawnTask, row.parentEpoch, x);
      }
    }
  }

  lemma StopFinished(t: Table, c: Id, row: Row, x: Id)
    requires x != c
    ensures StaysFinished(t, StopRows(t, c, row), x)
  {
    if row.stack != [] {
      ClimbFinished(if row.status.Failed? then FailRows(t, c, row) else t[c := row], row.stack, row.spawnTask,
                    row.parentEpoch, x);
    }
  }

  lemma WriteFinished(s: Sys, y: Id, epoch: nat, o: Outcome, x: Id)
    requires SysInv(s) && Enabled(s, DoWrite(y, epoch, o))
    ensures StaysFinished(s.rows, ApplyWrite(s, y, epoch, o).rows, x)
  {
    if Fenced(s, y, epoch) && x in s.rows && Finished(s.rows[x].status) {
      var t, snap := s.rows, s.memory[(y, epoch)];
      assert RowOk(t[y]) && x != y;
      match o {
        case Conclude(status, task, e, phase) => StopFinished(t, y, UpdateRow(t[y], task, e, status, phase), x);
        case LandStop =>
          StopFinished(t, y, UpdateRow(t[y], snap.task, snap.taskEpoch, LandedStatus(snap.status), snap.phase), x);
        case _ =>
      }
    }
  }

  lemma VerbFinished(t: Table, root: Id, x: Id)
    ensures StaysFinished(t, Pause(t, root).0, x) && StaysFinished(t, Cancel(t, root).0, x)
    ensures StaysFinished(t, Resume(t, root).0, x)
  {
  }

  lemma RetryFinished(t: Table, root: Id, force: bool, onlyOnce: set<Id>, x: Id)
    ensures StaysFinished(t, Retry(t, root, force, onlyOnce).0, x)
  {
    if x in t && Finished(t[x].status) {
      RetryUntouched(t, root, x);
    }
  }

  lemma StepFinished(s: Sys, step: Step, x: Id)
    requires SysInv(s) && Enabled(s, step)
    ensures StaysFinished(s.rows, Apply(s, step).rows, x)
  {
    match step {
      case DoWrite(y, epoch, o) => WriteFinished(s, y, epoch, o, x);
      case DoRetry(root, force, onlyOnce) => RetryFinished(s.rows, root, force, onlyOnce, x);
      case DoPause(root) => VerbFinished(s.rows, root, x);
      case DoCancel(root) => VerbFinished(s.rows, root, x);
      case DoResume(root) => VerbFinished(s.rows, root, x);
      case _ =>
    }
  }

  /** Over every run a row that has completed, raised or been cancelled stays so: no retry, pause,
      cancel, resume, failure elsewhere in its tree or late write ever moves it. */
  lemma {:induction false} FinishedForGood(states: seq<Sys>, steps: seq<Step>, i: nat, j: nat, x: Id)
    requires IsRun(states, steps) && i <= j < |states| && x in states[i].rows && Finished(states[i].rows[x].status)
    ensures x in states[j].rows && states[j].rows[x].status == states[i].rows[x].status
    ensures states[j].rows[x].stack == states[i].rows[x].stack
    decreases j - i
  {
    if i < j {
      FinishedForGood(states, steps, i, j - 1, x);
      RunKeeps(states, steps, j - 1);
      assert states[j] == Apply(states[j - 1], steps[j - 1]);
      StepFinished(states[j - 1], steps[j - 1], x);
    }
  }
}
