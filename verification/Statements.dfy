/**
 The SQL statements a lifecycle transaction is made of, each as a function on the table, and
 the engine's in-memory instances that write through them.
 */
module Statements {
  import opened Wrappers
  import opened Statuses
  import opened Tree

  // ------------------------------------------------------------------------------------------
  // Batch counts
  // ------------------------------------------------------------------------------------------

  /** CountActiveSiblings > 0: some row of the batch has not concluded. */
  predicate AnyActive(t: Table, p: Id, task: TaskId, epoch: nat) {
    exists c {:trigger t[c].status} :: c in t && InBatch(t[c], p, task, epoch) && Live(t[c])
  }

  /** CountBusySiblings > 0: some row of the batch is still busy. */
  predicate AnyBusy(t: Table, p: Id, task: TaskId, epoch: nat) {
    exists c {:trigger t[c].status} :: c in t && InBatch(t[c], p, task, epoch) && Busy(t[c].status)
  }

  // ------------------------------------------------------------------------------------------
  // Single-row statements
  // ------------------------------------------------------------------------------------------

  function WakeParent(r: Row): (r': Row) {
    r.(phase := if r.status.Running? || r.status.Pausing? || r.status.Paused? then Collecting else NoPhase)
  }

  function SettleDrained(r: Row): (r': Row) {
    match r.status
    case Pausing => r.(status := Paused)
    case Cancelling => r.(status := Cancelled)
    case Failing => r.(status := Failed, phase := NoPhase)
    case _ => r
  }

  /** UpdateInstance: a stop that arrived under the lease survives a write of `running`. */
  function UpdateRow(r: Row, task: TaskId, epoch: nat, status: Status, phase: Phase): (r': Row) {
    r.(task := task,
       taskEpoch := epoch,
       status := if (r.status.Pausing? || r.status.Cancelling?) && status.Running? then r.status else status,
       phase := phase,
       worker := None)
  }

  /** UpdateInstanceProgress: the status column is left alone. */
  function ProgressRow(r: Row, task: TaskId, epoch: nat, phase: Phase): (r': Row) {
    r.(task := task, taskEpoch := epoch, phase := phase, worker := None)
  }

  // ------------------------------------------------------------------------------------------
  // Tree-wide statements
  // ------------------------------------------------------------------------------------------

  function FailStatus(ids: seq<Id>, x: Id, s: Status): (s': Status) {
    if x in ids && (s.Running? || s.Pausing? || s.Paused?) then Failing else s
  }

  function FailAncestors(t: Table, ids: seq<Id>): (t': Table)
    ensures t'.Keys == t.Keys
  {
    map x | x in t :: t[x].(status := FailStatus(ids, x, t[x].status))
  }

  /** Some row a worker holds in this tree has `x` on its call stack. */
  predicate AboveHeld(t: Table, root: Id, x: Id) {
    exists h {:trigger t[h].worker} :: h in t && InTree(h, t[h], root) && t[h].worker.Some? && x in t[h].stack
  }

  predicate Drains(t: Table, root: Id, x: Id)
    requires x in t
  {
    t[x].worker.Some? || AboveHeld(t, root, x)
  }

  function PauseStatus(t: Table, root: Id, x: Id): (s: Status)
    requires x in t
  {
    if InTree(x, t[x], root) && t[x].status.Running?
    then if Drains(t, root, x) then Pausing else Paused
    else t[x].status
  }

  function PauseTree(t: Table, root: Id): (t': Table)
    ensures t'.Keys == t.Keys
  {
    map x | x in t :: t[x].(status := PauseStatus(t, root, x))
  }

  function CancelStatus(t: Table, root: Id, x: Id): (s: Status)
    requires x in t
  {
    if InTree(x, t[x], root) && (t[x].status.Running? || t[x].status.Paused?)
    then if Drains(t, root, x) then Cancelling else Cancelled
    else t[x].status
  }

  function CancelTree(t: Table, root: Id): (t': Table)
    ensures t'.Keys == t.Keys
  {
    map x | x in t :: t[x].(status := CancelStatus(t, root, x))
  }

  /** SetStatusIn over the tree's paused rows. */
  function ResumeStatus(root: Id, x: Id, r: Row): (s: Status) {
    if InTree(x, r, root) && r.status.Paused? then Running else r.status
  }

  function ResumePaused(t: Table, root: Id): (t': Table)
    ensures t'.Keys == t.Keys
  {
    map x | x in t :: t[x].(status := ResumeStatus(root, x, t[x]))
  }

  // ------------------------------------------------------------------------------------------
  // Settling up
  // ------------------------------------------------------------------------------------------

  /** One turn of the climb: the new parent row, and whether it settled (so the climb goes on). */
  function SettleParent(t: Table, p: Id, task: TaskId, epoch: nat): (res: (Row, bool))
    requires p in t
  {
    if t[p].phase != Children then (t[p], false) else
    var active := AnyActive(t, p, task, epoch);
    var woken := if active then t[p] else WakeParent(t[p]);
    if !Draining(t[p].status) || (active && AnyBusy(t, p, task, epoch)) then (woken, false)
    else (SettleDrained(woken), true)
  }

  /** The climb over the ancestors in `path`, from a child of the batch `(last(path), task, epoch)`. */
  function SettleUp(t: Table, path: seq<Id>, task: TaskId, epoch: nat): (t': Table)
    decreases |path|
  {
    if path == [] then t else
    var p := path[|path| - 1];
    if p !in t then t else
    var (row, settled) := SettleParent(t, p, task, epoch);
    if settled then SettleUp(t[p := row], path[..|path| - 1], row.spawnTask, row.parentEpoch)
    else t[p := row]
  }
}
