/**
 The process-tree table: instance rows, the statuses and phases they carry, and the
 invariant that every lifecycle transaction keeps.

 Rows are linked by their call stack, root first.  The parent of a row is the last entry of
 its stack and the root of its tree is the first one (or the row itself).
 */
module Tree {

  import opened Wrappers
  import opened Statuses

  type Id = nat
  type TaskId = nat
  type WorkerId = nat

  /** NO_TASK is the empty task name of an instance that ran off the end of its task list. */
  const NO_TASK: TaskId := 0

  datatype Row = Row(
    stack: seq<Id>,
    spawnTask: TaskId,
    parentEpoch: nat,
    status: Status,
    phase: Phase,
    task: TaskId,
    taskEpoch: nat,
    worker: Option<WorkerId>,
    leaseEpoch: nat,
    superseded: bool)

  type Table = map<Id, Row>

  predicate Draining(s: Status) {
    s.Pausing? || s.Failing? || s.Cancelling?
  }

  predicate Busy(s: Status) {
    s.Running? || Draining(s)
  }

  /** A status whose subtree is being, or has been, brought down by a failure. */
  predicate Doomed(s: Status) {
    s.Failing? || s.Failed?
  }

  predicate Live(r: Row) {
    !Terminal(r.status)
  }

  function ParentOf(r: Row): (p: Option<Id>) {
    if r.stack == [] then None else Some(r.stack[|r.stack| - 1])
  }

  function RootOf(x: Id, r: Row): (root: Id) {
    if r.stack == [] then x else r.stack[0]
  }

  predicate InTree(x: Id, r: Row, root: Id) {
    RootOf(x, r) == root
  }

  /** Row `c` belongs to the batch `(p, task, epoch)`. */
  predicate InBatch(c: Row, p: Id, task: TaskId, epoch: nat) {
    ParentOf(c) == Some(p) && c.spawnTask == task && c.parentEpoch == epoch
  }

  // ------------------------------------------------------------------------------------------
  // The invariant
  // ------------------------------------------------------------------------------------------

  /** Every stack entry names a row, and that row's own stack is the prefix before it. */
  ghost predicate Linked(t: Table) {
    forall x, i {:trigger t[x].stack[i]} ::
      x in t && 0 <= i < |t[x].stack| ==>
        t[x].stack[i] in t && t[t[x].stack[i]].stack == t[x].stack[..i]
  }

  /** The row below `t[x].stack[i]` on the way down to `x`. */
  ghost function NextOn(t: Table, x: Id, i: nat): Id
    requires x in t && i < |t[x].stack|
  {
    if i + 1 < |t[x].stack| then t[x].stack[i + 1] else x
  }

  /** A row that may have live rows below it: waiting on its children, or failed above them. */
  predicate Open(r: Row) {
    (Live(r) && r.phase == Children) || r.status == Failed
  }

  /** What holds between a live row `x` and its ancestor at depth `i`. */
  ghost predicate EdgeOk(t: Table, x: Id, i: nat)
    requires Linked(t) && x in t && i < |t[x].stack|
  {
    var a := t[x].stack[i];
    var b := NextOn(t, x, i);
    && t[b].spawnTask == t[a].task && t[b].parentEpoch == t[a].taskEpoch
    && Open(t[a])
    && (Busy(t[x].status) ==> Busy(t[a].status))
    && (0 < i && t[a].status == Failed ==> Doomed(t[t[x].stack[i - 1]].status))
  }

  ghost predicate PathOk(t: Table)
    requires Linked(t)
  {
    forall x, i {:trigger EdgeOk(t, x, i)} ::
      x in t && Live(t[x]) && 0 <= i < |t[x].stack| ==> EdgeOk(t, x, i)
  }

  /** The statuses a live row may have under a root of the given status. */
  predicate Compat(root: Status, s: Status) {
    match root
    case Running => s.Running?
    case Pausing => s.Pausing? || s.Paused?
    case Paused => s.Paused?
    case Failing => s.Failing? || s.Pausing? || s.Paused?
    case Failed => s.Paused?
    case Cancelling => s.Cancelling?
    case _ => false
  }

  ghost predicate ModeOk(t: Table)
    requires Linked(t)
  {
    forall x {:trigger t[x].status} ::
      x in t && Live(t[x]) ==> Compat(t[RootOf(x, t[x])].status, t[x].status)
  }

  ghost predicate HasBusyChild(t: Table, p: Id) {
    exists c {:trigger t[c].status} :: c in t && Busy(t[c].status) && ParentOf(t[c]) == Some(p)
  }

  ghost predicate HasLiveChild(t: Table, p: Id) {
    exists c {:trigger t[c].status} :: c in t && Live(t[c]) && ParentOf(t[c]) == Some(p)
  }

  /** A waiting row has something to wait for; `except` is a row a transaction has yet to visit. */
  ghost predicate FedAt(t: Table, p: Id)
    requires p in t
  {
    t[p].phase == Children ==>
      && (Busy(t[p].status) ==> HasBusyChild(t, p))
      && (Live(t[p]) ==> HasLiveChild(t, p))
  }

  ghost predicate Fed(t: Table, except: Option<Id>) {
    forall p {:trigger FedAt(t, p)} :: p in t && Some(p) != except ==> FedAt(t, p)
  }

  /** `failing` spreads to the root, and only to rows that wait on children. */
  ghost predicate FailUp(t: Table)
    requires Linked(t)
  {
    forall x {:trigger t[x].status} :: x in t && t[x].status == Failing ==>
      && t[x].phase == Children
      && (t[x].stack != [] ==> t[t[x].stack[|t[x].stack| - 1]].status == Failing)
  }

  /** A held row is claimable and waits on no children; a retired one is a raised one; a child
      was spawned by a task. */
  predicate RowOk(r: Row) {
    && (r.worker.Some? ==> r.phase != Children && (r.status.Running? || r.status.Pausing? || r.status.Cancelling?))
    && (r.superseded ==> r.status == Raised)
    && (r.stack != [] ==> r.spawnTask != NO_TASK)
  }

  ghost predicate RowsOk(t: Table) {
    forall x {:trigger RowOk(t[x])} :: x in t ==> RowOk(t[x])
  }

  ghost predicate InvExcept(t: Table, except: Option<Id>) {
    && Linked(t)
    && PathOk(t)
    && ModeOk(t)
    && Fed(t, except)
    && FailUp(t)
    && RowsOk(t)
  }

  ghost predicate Inv(t: Table) {
    InvExcept(t, None)
  }

  // ------------------------------------------------------------------------------------------
  // What the invariant means
  // ------------------------------------------------------------------------------------------

  /** Drain safety: a busy row keeps every ancestor busy, the root included. */
  lemma BusyAncestors(t: Table, e: Option<Id>, x: Id, i: nat)
    requires InvExcept(t, e) && x in t && Busy(t[x].status) && i < |t[x].stack|
    ensures t[x].stack[i] in t && Busy(t[t[x].stack[i]].status) && t[t[x].stack[i]].phase == Children
  {
    assert EdgeOk(t, x, i);
  }

  /** A row that waits on no children and has not failed has no live row below it. */
  lemma NotOnPath(t: Table, e: Option<Id>, c: Id, x: Id)
    requires InvExcept(t, e) && c in t && !Open(t[c]) && x in t && Live(t[x])
    ensures c !in t[x].stack
  {
    forall i | 0 <= i < |t[x].stack|
      ensures t[x].stack[i] != c
    {
      assert EdgeOk(t, x, i);
    }
  }
}
