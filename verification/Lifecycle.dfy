/**
 The lifecycle as a state machine: the row table, the instances workers hold in memory, and one
 atomic step per transaction.
 */
module Lifecycle {
  import opened Wrappers
  import opened Statuses
  import opened Tree
  import opened Statements
  import opened Settle
  import opened Writes
  import opened Verbs
  import opened Stops
  import opened Revive

  // ------------------------------------------------------------------------------------------
  // Engine writes
  // ------------------------------------------------------------------------------------------

  /** An instance as a claim handed it out.  It outlives the lease: a stalled worker keeps it. */
  datatype Snap = Snap(worker: WorkerId, status: Status, phase: Phase, task: TaskId, taskEpoch: nat)

  /** What one advance asks to be written.  Most writes clear the phase; a verdict on an interrupted
      task keeps the one it was claimed in. */
  datatype Outcome =
    | Progress(task: TaskId, taskEpoch: nat, phase: Phase)
    | Update(task: TaskId, taskEpoch: nat, phase: Phase)
    | Arm(task: TaskId, taskEpoch: nat)
    | Conclude(status: Status, task: TaskId, taskEpoch: nat, phase: Phase)
    | LandStop
    | Spawn(task: TaskId, taskEpoch: nat, ids: set<Id>)
    | Respawn(retired: set<Id>, ids: set<Id>)

  /** FinishChild: the stopped row, then the climb. */
  function FinishRows(t: Table, c: Id, row: Row): (t': Table) {
    SettleUp(t[c := row], row.stack, row.spawnTask, row.parentEpoch)
  }

  /** The first failure in a tree is the one that finds its root running, pausing or paused. */
  predicate Poisons(t: Table, root: Id) {
    root in t && (t[root].status.Running? || t[root].status.Pausing? || t[root].status.Paused?)
  }

  /** FailInstanceAndAncestors, up to the climb. */
  function FailRows(t: Table, c: Id, row: Row): (t': Table)
    requires row.stack != []
  {
    var marked := FailAncestors(t[c := row], row.stack);
    if Poisons(t, row.stack[0]) then PauseTree(marked, row.stack[0]) else marked
  }

  /** saveAndNotify: a root only saves itself, a failure spreads, any other stop settles up. */
  function StopRows(t: Table, c: Id, row: Row): (t': Table) {
    if row.stack == [] then t[c := row]
    else if row.status.Failed? then SettleUp(FailRows(t, c, row), row.stack, row.spawnTask, row.parentEpoch)
    else FinishRows(t, c, row)
  }

  function LandedStatus(s: Status): (s': Status) {
    if s.Pausing? then Paused else Cancelled
  }

  /** The table after a fenced write; None when the transaction finds the row in the wrong phase. */
  function WriteRows(t: Table, c: Id, snap: Snap, o: Outcome): (res: Option<Table>)
    requires c in t
  {
    match o
    case Progress(task, epoch, phase) => Some(t[c := ProgressRow(t[c], task, epoch, phase)])
    case Update(task, epoch, phase) => Some(t[c := UpdateRow(t[c], task, epoch, Running, phase)])
    case Arm(task, epoch) => Some(t[c := UpdateRow(t[c], task, epoch, Running, Parked)])
    case Conclude(status, task, epoch, phase) => Some(StopRows(t, c, UpdateRow(t[c], task, epoch, status, phase)))
    case LandStop =>
      Some(StopRows(t, c, UpdateRow(t[c], snap.task, snap.taskEpoch, LandedStatus(snap.status), snap.phase)))
    case Spawn(task, epoch, ids) =>
      if t[c].phase != NoPhase then None else Some(SpawnRows(t, c, task, epoch, ids, {}))
    case Respawn(retired, ids) =>
      if t[c].phase != Collecting then None else Some(SpawnRows(t, c, snap.task, snap.taskEpoch, ids, retired))
  }

  /** What `advance` may return for an instance claimed in this state. */
  ghost predicate Admissible(t: Table, snap: Snap, o: Outcome) {
    && (snap.status.Cancelling? ==> o.LandStop?)
    && (snap.status.Pausing? ==> o.LandStop? || o.Update? || o.Conclude?)
    && (snap.status.Running? ==> !o.LandStop?)
    && (o.Progress? || o.Update? || o.Conclude? ==> o.phase != Children)
    && (o.Conclude? ==> o.status.Completed? || o.status.Failed? || o.status.Raised?)
    && (o.Spawn? ==> o.task != NO_TASK && o.ids != {} && o.ids !! t.Keys)
    && (o.Respawn? ==> snap.task != NO_TASK && o.ids != {} && o.ids !! t.Keys &&
                       forall x :: x in o.retired ==> x in t && t[x].status == Raised)
  }

  /** A held row and the instance its holder has in memory. */
  predicate SnapOk(r: Row, snap: Snap) {
    && r.worker == Some(snap.worker)
    && snap.phase != Children
    && (snap.status.Running? || (snap.status == r.status && (r.status.Pausing? || r.status.Cancelling?)))
    && snap.task == r.task && snap.taskEpoch == r.taskEpoch
  }

  // ------------------------------------------------------------------------------------------
  // A fenced write keeps the tree
  // ------------------------------------------------------------------------------------------

  /** A busy row's parent waits on exactly the batch the row is in. */
  lemma ParentWaits(t: Table, c: Id)
    requires Inv(t) && c in t && Busy(t[c].status)
    ensures Waiting(t, t[c].stack, t[c].spawnTask, t[c].parentEpoch)
  {
    if t[c].stack != [] {
      var i := |t[c].stack| - 1;
      assert EdgeOk(t, c, i);
    }
  }

  lemma FinishKeeps(t: Table, c: Id, row: Row)
    requires Inv(t) && c in t && t[c].worker.Some? && SamePlace(t[c], row)
    requires StatusStep(t[c].status, row.status) && row.status != t[c].status
    requires RowOk(row) && (Live(row) ==> row.phase != Children)
    ensures Inv(FinishRows(t, c, row))
  {
    assert RowOk(t[c]);
    RowWriteKeeps(t, c, row);
    ParentWaits(t, c);
    NotOnPath(t, None, c, c);
    ClimbKeeps(t[c := row], row.stack, row.spawnTask, row.parentEpoch);
  }

  /** In a tree being cancelled a failure marks nothing: the operator's stop stands. */
  lemma FailUnderCancel(t: Table, c: Id, row: Row)
    requires Inv(t) && c in t && t[c].worker.Some? && SamePlace(t[c], row) && row.stack != []
    requires row.status == Failed && t[row.stack[0]].status == Cancelling
    ensures FailRows(t, c, row) == t[c := row]
  {
    var t1 := t[c := row];
    assert RowOk(t[c]);
    NotOnPath(t, None, c, c);
    forall x | x in row.stack
      ensures t1[x].status == Cancelling
    {
      var i :| 0 <= i < |row.stack| && row.stack[i] == x;
      BusyAncestors(t, None, c, i);
      RootThrough(t, c, x);
      assert Compat(t[RootOf(x, t[x])].status, t[x].status);
    }
    forall x | x in t1
      ensures FailStatus(row.stack, x, t1[x].status) == t1[x].status
    {
    }
    assert FailAncestors(t1, row.stack) == t1;
  }

  lemma FailIsReady(t: Table, c: Id, row: Row)
    requires Inv(t) && c in t && t[c].worker.Some? && SamePlace(t[c], row) && row.stack != []
    requires row.status == Failed && RowOk(row) && t[row.stack[0]].status != Cancelling
    ensures FailReady(t[c := row], c)
  {
    var t1 := t[c := row];
    assert RowOk(t[c]);
    RowWriteKeeps(t, c, row);
    NotOnPath(t, None, c, c);
    forall i {:trigger t1[c].stack[i]} | 0 <= i < |row.stack|
      ensures Busy(t1[row.stack[i]].status) && !t1[row.stack[i]].status.Cancelling?
      ensures t1[row.stack[i]].phase == Children
    {
      var a := row.stack[i];
      BusyAncestors(t, None, c, i);
      RootThrough(t, c, a);
      assert Compat(t[RootOf(a, t[a])].status, t[a].status);
    }
  }

  /** Marking the stack, and pausing the rest when this is the first failure, leaves only the
      parent to settle. */
  lemma FailMarks(t: Table, c: Id, row: Row)
    requires Inv(t) && c in t && t[c].worker.Some? && SamePlace(t[c], row) && row.stack != []
    requires row.status == Failed && RowOk(row) && t[row.stack[0]].status != Cancelling
    ensures InvExcept(FailRows(t, c, row), ParentOf(row))
  {
    var t1 := t[c := row];
    FailIsReady(t, c, row);
    var t2 := FailAncestors(t1, row.stack);
    assert FailedTo(t1, row.stack, t2);
    var root := row.stack[0];
    FailBusy(t1, c, t2, root);
    assert t1[root].stack == [];
    if t1[root].status == Running {
      FailFirst(t1, c, t2);
      PauseKeeps(t2, root, ParentOf(row));
    } else {
      FailLater(t1, c, t2);
      forall x | x in t2 && InTree(x, t2[x], root)
        ensures !t2[x].status.Running?
      {
        assert Live(t2[x]) ==> Compat(t2[RootOf(x, t2[x])].status, t2[x].status);
      }
      PauseNoop(t2, root);
    }
  }

  /** After the marks, the parent of the failed row is a busy row waiting on its batch. */
  lemma FailParentWaits(t: Table, c: Id, row: Row)
    requires Inv(t) && c in t && t[c].worker.Some? && SamePlace(t[c], row) && row.stack != []
    requires row.status == Failed && RowOk(row)
    ensures Waiting(FailRows(t, c, row), row.stack, row.spawnTask, row.parentEpoch)
  {
    assert RowOk(t[c]);
    ParentWaits(t, c);
    NotOnPath(t, None, c, c);
    var p := row.stack[|row.stack| - 1];
    var t1 := t[c := row];
    assert t1[p] == t[p];
    var t3 := FailRows(t, c, row);
    assert FailStatus(row.stack, p, t[p].status) == (if t[p].status.Cancelling? then Cancelling else Failing);
    assert t3[p] == t[p].(status := if t[p].status.Cancelling? then Cancelling else Failing);
  }

  lemma StopKeeps(t: Table, c: Id, row: Row)
    requires Inv(t) && c in t && t[c].worker.Some? && SamePlace(t[c], row)
    requires StatusStep(t[c].status, row.status) && row.status != t[c].status
    requires RowOk(row) && (Live(row) ==> row.phase != Children)
    ensures Inv(StopRows(t, c, row))
  {
    assert RowOk(t[c]);
    if row.stack == [] {
      RowWriteKeeps(t, c, row);
    } else if row.status.Failed? {
      FailParentWaits(t, c, row);
      if t[row.stack[0]].status == Cancelling {
        FailUnderCancel(t, c, row);
        RowWriteKeeps(t, c, row);
      } else {
        FailMarks(t, c, row);
      }
      ClimbKeeps(FailRows(t, c, row), row.stack, row.spawnTask, row.parentEpoch);
    } else {
      FinishKeeps(t, c, row);
    }
  }

  /** Every write an advance can make under its fence keeps the tree. */
  lemma WriteKeeps(t: Table, c: Id, snap: Snap, o: Outcome)
    requires Inv(t) && c in t && SnapOk(t[c], snap) && Admissible(t, snap, o) && WriteRows(t, c, snap, o).Some?
    ensures Inv(WriteRows(t, c, snap, o).value)
  {
    assert RowOk(t[c]);
    match o {
      case Progress(task, epoch, phase) =>
        RowWriteKeeps(t, c, ProgressRow(t[c], task, epoch, phase));
      case Update(task, epoch, phase) =>
        RowWriteKeeps(t, c, UpdateRow(t[c], task, epoch, Running, phase));
      case Arm(task, epoch) =>
        RowWriteKeeps(t, c, UpdateRow(t[c], task, epoch, Running, Parked));
      case Conclude(status, task, epoch, phase) =>
        StopKeeps(t, c, UpdateRow(t[c], task, epoch, status, phase));
      case LandStop =>
        StopKeeps(t, c, UpdateRow(t[c], snap.task, snap.taskEpoch, LandedStatus(snap.status), snap.phase));
      case Spawn(task, epoch, ids) =>
        SpawnKeeps(t, c, task, epoch, ids, {});
      case Respawn(retired, ids) =>
        SpawnKeeps(t, c, snap.task, snap.taskEpoch, ids, retired);
    }
  }
}
