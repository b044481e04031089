/**
 What one row's write does to the others: which phase a parent is left in when its children are
 done, how a failure spreads over the tree, and that nothing else moves.
 */
module Wakes {
  import opened Wrappers
  import opened Statuses
  import opened Tree
  import opened Statements
  import opened Settle
  import opened Writes
  import opened Verbs
  import opened Stops
  import opened Revive
  import opened Lifecycle
  import opened Runs

  // ------------------------------------------------------------------------------------------
  // The climb, row by row
  // ------------------------------------------------------------------------------------------

  /** What a parent does once its children are done: one that still runs, or is only suspended,
      collects their results; one that is being brought down has nothing left to wait for. */
  function LeftPhase(s: Status): (phase: Phase) {
    if s.Running? || s.Pausing? || s.Paused? then Collecting else NoPhase
  }

  /** Where a draining status ends. */
  function Settled(s: Status): (s': Status) {
    match s
    case Pausing => Paused
    case Failing => Failed
    case Cancelling => Cancelled
    case _ => s
  }

  /** `r'` is a waiting row `r` after the climb: untouched, at rest above children that are, or
      done waiting. */
  predicate Climbed(r: Row, r': Row) {
    && r' == r.(status := r'.status, phase := r'.phase)
    && (r'.status == r.status || r'.status == Settled(r.status))
    && (r.phase != Children ==> r' == r)
    && (r.phase == Children && r'.phase != Children ==>
          r'.status == Settled(r.status) && r'.phase == LeftPhase(r'.status))
    && (r'.phase == Children && r'.status == Failed ==> r.status == Failed)
  }

  lemma TurnClimbs(t: Table, p: Id, task: TaskId, epoch: nat)
    requires p in t
    ensures Climbed(t[p], SettleParent(t, p, task, epoch).0)
  {
  }

  lemma {:induction false} ClimbClimbs(t: Table, path: seq<Id>, task: TaskId, epoch: nat, x: Id)
    requires x in t
    ensures x in SettleUp(t, path, task, epoch) && Climbed(t[x], SettleUp(t, path, task, epoch)[x])
    ensures x !in path ==> SettleUp(t, path, task, epoch)[x] == t[x]
    decreases |path|
  {
    if path != [] && path[|path| - 1] in t {
      var p := path[|path| - 1];
      var (row, settled) := SettleParent(t, p, task, epoch);
      TurnClimbs(t, p, task, epoch);
      if settled {
        ClimbClimbs(t[p := row], path[..|path| - 1], row.spawnTask, row.parentEpoch, x);
      }
    }
  }

  // ------------------------------------------------------------------------------------------
  // A stop, row by row
  // ------------------------------------------------------------------------------------------

  /** The status of `x` once a stop of `c` has marked the tree and before anything settles: a failure
      marks its call stack, and the first one pauses whatever else runs. */
  function MarkedStatus(t: Table, c: Id, failed: bool, x: Id): (s: Status)
    requires c in t && x in t
  {
    var s := t[x].status;
    if !failed || t[c].stack == [] then s
    else if x in t[c].stack then if s.Running? || s.Pausing? || s.Paused? then Failing else s
    else if Poisons(t, t[c].stack[0]) && s.Running? && InTree(x, t[x], t[c].stack[0])
    then if t[x].worker.Some? || AboveHeldElsewhere(t, c, x) then Pausing else Paused
    else s
  }

  /** Some row of the tree other than `c`, which is giving its lease up, is held below `x`. */
  predicate AboveHeldElsewhere(t: Table, c: Id, x: Id)
    requires c in t
  {
    exists h {:trigger t[h].worker} ::
      h in t && h != c && RootOf(h, t[h]) == RootOf(c, t[c]) && t[h].worker.Some? && x in t[h].stack
  }

  /** A row as the marks leave it. */
  function MarkedRow(t: Table, c: Id, failed: bool, x: Id): (r: Row)
    requires c in t && x in t
  {
    t[x].(status := MarkedStatus(t, c, failed, x))
  }

  /** The row a stopping holder leaves: in its place, let go of. */
  ghost predicate StopsAt(t: Table, c: Id, row: Row) {
    Inv(t) && c in t && t[c].worker.Some? && SamePlace(t[c], row) && row.worker.None? && !Busy(row.status)
  }

  lemma HeldElsewhere(t: Table, c: Id, row: Row, t1: Table, x: Id)
    requires StopsAt(t, c, row) && row.stack != [] && x in t && t1.Keys == t.Keys
    requires forall y {:trigger t1[y]} :: y in t ==> t1[y] == t[c := row][y].(status := t1[y].status)
    ensures AboveHeld(t1, row.stack[0], x) <==> AboveHeldElsewhere(t, c, x)
  {
    forall h {:trigger t[h].worker} | h in t && h != c
      ensures t1[h].worker == t[h].worker && t1[h].stack == t[h].stack
    {
      assert t1[h] == t[h].(status := t1[h].status);
    }
    assert t1[c].worker == None;
    if AboveHeldElsewhere(t, c, x) {
      var h :| h in t && h != c && RootOf(h, t[h]) == RootOf(c, t[c]) && t[h].worker.Some? && x in t[h].stack;
      assert t1[h].worker.Some? && x in t1[h].stack && InTree(h, t1[h], row.stack[0]);
    }
    if AboveHeld(t1, row.stack[0], x) {
      var h :| h in t1 && InTree(h, t1[h], row.stack[0]) && t1[h].worker.Some? && x in t1[h].stack;
      assert h != c && t[h].worker.Some?;
    }
  }

  /** The statements a failure is made of come to the marks, on every row but the failed one. */
  lemma FailMarksRow(t: Table, c: Id, row: Row, x: Id)
    requires StopsAt(t, c, row) && row.stack != [] && x in t
    ensures FailRows(t, c, row).Keys == t.Keys
    ensures FailRows(t, c, row)[x] == if x == c then row else MarkedRow(t, c, true, x)
  {
    var t0 := t[c := row];
    var t1 := FailAncestors(t0, row.stack);
    assert RowOk(t[c]);
    NotOnPath(t, None, c, c);
    HeldElsewhere(t, c, row, t1, x);
    FailsTo(t, c, row, x, t1);
  }

  lemma FailsTo(t: Table, c: Id, row: Row, x: Id, t1: Table)
    requires StopsAt(t, c, row) && row.stack != [] && x in t && c !in row.stack
    requires t1 == FailAncestors(t[c := row], row.stack)
    requires AboveHeld(t1, row.stack[0], x) <==> AboveHeldElsewhere(t, c, x)
    ensures FailRows(t, c, row).Keys == t.Keys
    ensures FailRows(t, c, row)[x] == if x == c then row else MarkedRow(t, c, true, x)
  {
    var t0 := t[c := row];
    assert t1[x] == t0[x].(status := FailStatus(row.stack, x, t0[x].status));
    if Poisons(t, row.stack[0]) {
      var t2 := PauseTree(t1, row.stack[0]);
      assert t2[x] == t1[x].(status := PauseStatus(t1, row.stack[0], x));
    }
  }

  /** A stop, whole: the stopped row is what was written, every row off its call stack is as the marks
      leave it, and every row on it has been through the climb. */
  lemma StopRow(t: Table, c: Id, row: Row, x: Id)
    requires StopsAt(t, c, row) && x in t
    ensures var t' := StopRows(t, c, row); var marked := MarkedRow(t, c, row.status.Failed?, x);
      && x in t'
      && (x == c ==> t'[x] == row)
      && (x != c && x !in row.stack ==> t'[x] == marked)
      && (x in row.stack ==> Climbed(marked, t'[x]))
  {
    assert RowOk(t[c]);
    NotOnPath(t, None, c, c);
    if row.stack != [] {
      if row.status.Failed? {
        FailMarksRow(t, c, row, x);
        ClimbClimbs(FailRows(t, c, row), row.stack, row.spawnTask, row.parentEpoch, x);
      } else {
        ClimbClimbs(t[c := row], row.stack, row.spawnTask, row.parentEpoch, x);
      }
    }
  }

  // ------------------------------------------------------------------------------------------
  // Every step
  // ------------------------------------------------------------------------------------------

  predicate IsStop(o: Outcome) {
    o.Conclude? || o.LandStop?
  }

  /** The row a stop writes. */
  function StopWrite(t: Table, c: Id, snap: Snap, o: Outcome): (row: Row)
    requires c in t && IsStop(o)
  {
    if o.Conclude? then UpdateRow(t[c], o.task, o.taskEpoch, o.status, o.phase)
    else UpdateRow(t[c], snap.task, snap.taskEpoch, LandedStatus(snap.status), snap.phase)
  }

  lemma StopWrites(t: Table, c: Id, snap: Snap, o: Outcome)
    requires Inv(t) && c in t && SnapOk(t[c], snap) && Admissible(t, snap, o) && IsStop(o)
    ensures StopsAt(t, c, StopWrite(t, c, snap, o))
    ensures WriteRows(t, c, snap, o) == Some(StopRows(t, c, StopWrite(t, c, snap, o)))
  {
    assert RowOk(t[c]);
  }

  /** `r` waited on its children, and `r'` no longer does: it is where it was, at the same task and
      epoch, and has settled if it was draining; it collects if it can still go on. */
  predicate Woken(r: Row, r': Row) {
    && r' == r.(status := r'.status, phase := r'.phase)
    && !Draining(r'.status)
    && (r'.status == Settled(r.status) || r'.status == Failed)
    && r'.phase == LeftPhase(r'.status)
  }

  lemma StopWakes(t: Table, c: Id, row: Row, p: Id)
    requires StopsAt(t, c, row) && p in t && Live(t[p]) && t[p].phase == Children
    ensures p in StopRows(t, c, row)
    ensures var r' := StopRows(t, c, row)[p];
      r' == t[p].(status := r'.status) || (p in t[c].stack && Woken(t[p], r'))
  {
    assert RowOk(t[c]);
    StopRow(t, c, row, p);
  }

  lemma WriteWakes(t: Table, c: Id, snap: Snap, o: Outcome, p: Id)
    requires Inv(t) && c in t && SnapOk(t[c], snap) && Admissible(t, snap, o) && WriteRows(t, c, snap, o).Some?
    requires p in t && Live(t[p]) && t[p].phase == Children
    ensures p in WriteRows(t, c, snap, o).value
    ensures var r' := WriteRows(t, c, snap, o).value[p];
      r' == t[p].(status := r'.status) || (IsStop(o) && p in t[c].stack && Woken(t[p], r'))
  {
    assert RowOk(t[p]);
    if IsStop(o) {
      StopWrites(t, c, snap, o);
      StopWakes(t, c, StopWrite(t, c, snap, o), p);
    }
  }

  /** No step but the stop of a row below it takes a row out of its wait for its children. */
  lemma StepWakes(s: Sys, step: Step, p: Id)
    requires SysInv(s) && Enabled(s, step)
    requires p in s.rows && Live(s.rows[p]) && s.rows[p].phase == Children
    ensures p in Apply(s, step).rows
    ensures var r' := Apply(s, step).rows[p];
      || r' == s.rows[p].(status := r'.status)
      || (step.DoWrite? && IsStop(step.outcome) && Fenced(s, step.x, step.epoch) &&
          p in s.rows[step.x].stack && Woken(s.rows[p], r'))
  {
    var t := s.rows;
    match step {
      case DoWrite(c, epoch, o) =>
        if Fenced(s, c, epoch) && WriteRows(t, c, s.memory[(c, epoch)], o).Some? {
          assert t[c].leaseEpoch == epoch;
          WriteWakes(t, c, s.memory[(c, epoch)], o, p);
        }
      case DoRetry(root, force, onlyOnce) =>
        assert !Reached(t, p);
      case _ =>
    }
  }

  /** Over every run: whenever a live row stops waiting on its children, a row below it has just
      stopped; it is Collecting if it runs or is suspended and at no phase if it is brought down, at the
      task and epoch it waited at, and nothing live is left under a row that collects. */
  lemma WokenParent(states: seq<Sys>, steps: seq<Step>, k: nat, p: Id)
    requires IsRun(states, steps) && k < |steps|
    requires p in states[k].rows && Live(states[k].rows[p]) && states[k].rows[p].phase == Children
    requires p in states[k + 1].rows ==> states[k + 1].rows[p].phase != Children
    ensures p in states[k + 1].rows
    ensures var r, r' := states[k].rows[p], states[k + 1].rows[p];
      && r'.task == r.task && r'.taskEpoch == r.taskEpoch && r'.worker.None?
      && (r'.status == Settled(r.status) || r'.status == Failed)
      && r'.phase == (if r'.status == Running || r'.status == Paused then Collecting else NoPhase)
    ensures steps[k].DoWrite? && IsStop(steps[k].outcome) && steps[k].x in states[k].rows &&
            p in states[k].rows[steps[k].x].stack
    ensures states[k + 1].rows[p].phase == Collecting ==>
      forall x {:trigger states[k + 1].rows[x]} ::
        x in states[k + 1].rows && p in states[k + 1].rows[x].stack ==> Terminal(states[k + 1].rows[x].status)
  {
    RunKeeps(states, steps, k);
    RunKeeps(states, steps, k + 1);
    assert Enabled(states[k], steps[k]) && states[k + 1] == Apply(states[k], steps[k]);
    StepWakes(states[k], steps[k], p);
    assert RowOk(states[k].rows[p]);
    var t' := states[k + 1].rows;
    if t'[p].phase == Collecting {
      forall x {:trigger t'[x]} | x in t' && p in t'[x].stack
        ensures Terminal(t'[x].status)
      {
        NothingBelow(t', p, x);
      }
    }
  }

  lemma NothingBelow(t: Table, p: Id, x: Id)
    requires Inv(t) && p in t && !Open(t[p]) && x in t && p in t[x].stack
    ensures Terminal(t[x].status)
  {
    if Live(t[x]) {
      NotOnPath(t, None, p, x);
    }
  }

  // ------------------------------------------------------------------------------------------
  // The parent of a row that stops
  // ------------------------------------------------------------------------------------------

  /** What becomes of a parent when one of its children stops: a failure fails it unless it is being
      cancelled, it settles once nothing in the batch is busy, and it waits on while anything is. */
  function ParentAfter(r: Row, failed: bool, busy: bool, active: bool): (r': Row) {
    var marked := if failed && !r.status.Cancelling? then Failing else r.status;
    if busy then r.(status := marked)
    else
      var s := Settled(marked);
      r.(status := s, phase := if s.Paused? && active then Children else LeftPhase(s))
  }

  lemma ParentMarked(t: Table, c: Id, failed: bool, p: Id)
    requires Inv(t) && c in t && Busy(t[c].status) && p in t && ParentOf(t[c]) == Some(p)
    ensures Busy(t[p].status) && t[p].phase == Children && t[p].task == t[c].spawnTask
    ensures t[p].taskEpoch == t[c].parentEpoch && p in t[c].stack
    ensures MarkedStatus(t, c, failed, p) == if failed && !t[p].status.Cancelling? then Failing else t[p].status
  {
    assert EdgeOk(t, c, |t[c].stack| - 1);
  }

  /** Whether anything under `p` is busy or live is a question about its current batch. */
  lemma BatchSays(t: Table, p: Id)
    requires Inv(t) && p in t && Live(t[p]) && t[p].phase == Children
    ensures Busy(t[p].status) <==> AnyBusy(t, p, t[p].task, t[p].taskEpoch)
    ensures AnyActive(t, p, t[p].task, t[p].taskEpoch)
  {
    assert FedAt(t, p);
    var d := FedChild(t, p);
    assert EdgeOk(t, d, |t[d].stack| - 1);
    assert InBatch(t[d], p, t[p].task, t[p].taskEpoch);
    forall x {:trigger t[x].status} | x in t && InBatch(t[x], p, t[p].task, t[p].taskEpoch) && Busy(t[x].status)
      ensures Busy(t[p].status)
    {
      assert EdgeOk(t, x, |t[x].stack| - 1);
    }
  }

  lemma NoneBusyBelow(t: Table, p: Id, task: TaskId, epoch: nat)
    requires Inv(t) && p in t && (t[p].phase != Children || Terminal(t[p].status))
    ensures !AnyBusy(t, p, task, epoch)
    ensures t[p].status != Failed ==> !AnyActive(t, p, task, epoch)
  {
    forall x {:trigger t[x].status} | x in t && InBatch(t[x], p, task, epoch)
      ensures !Busy(t[x].status)
    {
      if Live(t[x]) {
        assert EdgeOk(t, x, |t[x].stack| - 1);
      }
    }
    if AnyActive(t, p, task, epoch) {
      var x :| x in t && InBatch(t[x], p, task, epoch) && Live(t[x]);
      assert EdgeOk(t, x, |t[x].stack| - 1);
    }
  }

  /** Everything live under a row being cancelled is being cancelled too. */
  ghost predicate CancellingBelow(t: Table, p: Id) {
    forall x {:trigger t[x].status} :: x in t && ParentOf(t[x]) == Some(p) ==>
      Terminal(t[x].status) || t[x].status == Cancelling
  }

  lemma CancellingBusy(t: Table, p: Id, task: TaskId, epoch: nat)
    requires CancellingBelow(t, p) && AnyActive(t, p, task, epoch)
    ensures AnyBusy(t, p, task, epoch)
  {
    var x :| x in t && InBatch(t[x], p, task, epoch) && Live(t[x]);
    assert t[x].status == Cancelling;
  }

  lemma {:induction false} ClimbCancelling(t: Table, path: seq<Id>, task: TaskId, epoch: nat, p: Id)
    requires p in t && CancellingBelow(t, p) && t[p].status == Cancelling
    ensures p in SettleUp(t, path, task, epoch)
    ensures SettleUp(t, path, task, epoch)[p].phase == Children ==>
      SettleUp(t, path, task, epoch)[p].status == Cancelling
    decreases |path|
  {
    ClimbClimbs(t, path, task, epoch, p);
    if path != [] && path[|path| - 1] in t {
      var q := path[|path| - 1];
      var (row, settled) := SettleParent(t, q, task, epoch);
      if settled {
        var rest := path[..|path| - 1];
        assert CancellingBelow(t[q := row], p);
        if q == p {
          if AnyActive(t, p, task, epoch) {
            CancellingBusy(t, p, task, epoch);
          }
          ClimbClimbs(t[q := row], rest, row.spawnTask, row.parentEpoch, p);
        } else {
          ClimbCancelling(t[q := row], rest, row.spawnTask, row.parentEpoch, p);
        }
      }
    }
  }

  lemma StopCancelling(t: Table, c: Id, row: Row, p: Id)
    requires StopsAt(t, c, row) && p in t && ParentOf(t[c]) == Some(p) && t[p].status == Cancelling
    requires Terminal(row.status)
    ensures p in StopRows(t, c, row)
    ensures StopRows(t, c, row)[p].phase == Children ==> StopRows(t, c, row)[p].status == Cancelling
  {
    assert RowOk(t[c]);
    NotOnPath(t, None, c, c);
    RootThrough(t, c, p);
    assert Compat(t[RootOf(p, t[p])].status, t[p].status);
    var t1 := t[c := row];
    forall x {:trigger t1[x].status} | x in t1 && ParentOf(t1[x]) == Some(p)
      ensures Terminal(t1[x].status) || t1[x].status == Cancelling
    {
      RootThrough(t, x, p);
      assert Live(t[x]) ==> Compat(t[RootOf(x, t[x])].status, t[x].status);
    }
    if row.status.Failed? {
      FailUnderCancel(t, c, row);
    }
    ClimbCancelling(t1, row.stack, row.spawnTask, row.parentEpoch, p);
  }

  lemma StopParent(t: Table, c: Id, row: Row, p: Id, t': Table)
    requires StopsAt(t, c, row) && p in t && ParentOf(t[c]) == Some(p) && t' == StopRows(t, c, row) && Inv(t')
    requires t[p].status == Cancelling ==> Terminal(row.status)
    ensures p in t' && t[p].task == t[c].spawnTask && t[p].taskEpoch == t[c].parentEpoch
    ensures t'[p] == ParentAfter(t[p], row.status.Failed?, AnyBusy(t', p, t[p].task, t[p].taskEpoch),
                                 AnyActive(t', p, t[p].task, t[p].taskEpoch))
  {
    assert RowOk(t[c]);
    ParentMarked(t, c, row.status.Failed?, p);
    StopRow(t, c, row, p);
    var marked := MarkedRow(t, c, row.status.Failed?, p);
    assert Climbed(marked, t'[p]);
    if t[p].status == Cancelling {
      assert Compat(t[RootOf(c, t[c])].status, t[c].status);
      StopCancelling(t, c, row, p);
    }
    if t'[p].phase == Children && Live(t'[p]) {
      BatchSays(t', p);
    } else {
      NoneBusyBelow(t', p, t[p].task, t[p].taskEpoch);
    }
  }

  /** Over every run, the parent of a row whose stop lands, whole row and exactly: in particular the
      last child of a running parent to conclude leaves it Running and Collecting, unless that child
      failed, which fails the parent. */
  lemma StopReachesParent(states: seq<Sys>, steps: seq<Step>, k: nat, c: Id, p: Id)
    requires IsRun(states, steps) && k < |steps| && steps[k].DoWrite? && steps[k].x == c
    requires Fenced(states[k], c, steps[k].epoch) && IsStop(steps[k].outcome)
    requires ParentOf(states[k].rows[c]) == Some(p)
    ensures var t, t' := states[k].rows, states[k + 1].rows;
      && p in t && p in t' && c in t' && Busy(t[p].status) && t[p].phase == Children
      && InBatch(t[c], p, t[p].task, t[p].taskEpoch)
      && t'[p] == ParentAfter(t[p], t'[c].status == Failed, AnyBusy(t', p, t[p].task, t[p].taskEpoch),
                              AnyActive(t', p, t[p].task, t[p].taskEpoch))
  {
    RunKeeps(states, steps, k);
    RunKeeps(states, steps, k + 1);
    assert Enabled(states[k], steps[k]) && states[k + 1] == Apply(states[k], steps[k]);
    var t, snap := states[k].rows, states[k].memory[(c, steps[k].epoch)];
    assert t[c].leaseEpoch == steps[k].epoch;
    assert RowOk(t[c]);
    assert t[c].stack[|t[c].stack| - 1] == p;
    StopWrites(t, c, snap, steps[k].outcome);
    var row := StopWrite(t, c, snap, steps[k].outcome);
    StopRow(t, c, row, c);
    ParentMarked(t, c, row.status.Failed?, p);
    StopParent(t, c, row, p, states[k + 1].rows);
  }

  // ------------------------------------------------------------------------------------------
  // What a landed write does to every row
  // ------------------------------------------------------------------------------------------

  /** The first failure of a running tree finds running rows; after it none is left. */
  lemma RunningPoisons(t: Table, c: Id, x: Id)
    requires Inv(t) && c in t && x in t && t[c].stack != [] && InTree(x, t[x], t[c].stack[0]) && t[x].status == Running
    ensures Poisons(t, t[c].stack[0])
  {
    assert Compat(t[RootOf(x, t[x])].status, t[x].status);
  }

  /** The ancestors of a busy row are busy, and all being cancelled or none. */
  lemma StackStatus(t: Table, c: Id, x: Id)
    requires Inv(t) && c in t && Busy(t[c].status) && x in t[c].stack
    ensures x in t && Busy(t[x].status) && t[c].stack[0] in t
    ensures t[x].status == Cancelling <==> t[t[c].stack[0]].status == Cancelling
  {
    var i :| 0 <= i < |t[c].stack| && t[c].stack[i] == x;
    BusyAncestors(t, None, c, i);
    RootThrough(t, c, x);
    RootThrough(t, c, t[c].stack[0]);
    assert Compat(t[RootOf(x, t[x])].status, t[x].status);
  }

  /** Over every run, a child's failure that lands spreads to the whole tree at once: every row above
      it is failing or failed, whatever else ran has stopped or drains, and no other row moves; only a
      tree being cancelled goes on being cancelled. */
  lemma FailureSpreads(states: seq<Sys>, steps: seq<Step>, k: nat, c: Id, x: Id)
    requires IsRun(states, steps) && k < |steps| && steps[k].DoWrite? && steps[k].x == c
    requires Fenced(states[k], c, steps[k].epoch) && steps[k].outcome.Conclude? && steps[k].outcome.status == Failed
    requires states[k].rows[c].stack != [] && x in states[k].rows && x != c
    ensures var t, t', root := states[k].rows, states[k + 1].rows, states[k].rows[c].stack[0];
      && root in t && x in t' && c in t' && t'[c].status == Failed
      && (x in t[c].stack ==>
            if t[root].status == Cancelling then t'[x].status == Cancelling || t'[x].status == Cancelled
            else t'[x].status == Failing || t'[x].status == Failed)
      && (x !in t[c].stack ==>
            t'[x] == if t[x].status != Running || !InTree(x, t[x], root) then t[x]
                     else if t[x].worker.Some? || AboveHeldElsewhere(t, c, x) then t[x].(status := Pausing)
                     else t[x].(status := Paused))
  {
    RunKeeps(states, steps, k);
    assert Enabled(states[k], steps[k]) && states[k + 1] == Apply(states[k], steps[k]);
    var t, snap, o := states[k].rows, states[k].memory[(c, steps[k].epoch)], steps[k].outcome;
    assert t[c].leaseEpoch == steps[k].epoch;
    assert RowOk(t[c]);
    StopWrites(t, c, snap, o);
    var row := StopWrite(t, c, snap, o);
    StopRow(t, c, row, c);
    StopRow(t, c, row, x);
    StackStatus(t, c, t[c].stack[0]);
    if x in t[c].stack {
      StackStatus(t, c, x);
    } else if t[x].status == Running && InTree(x, t[x], t[c].stack[0]) {
      RunningPoisons(t, c, x);
    }
  }

  /** Over every run, a landed checkpoint: the writer's row stands at the task, epoch and phase asked
      for, let go of, a stop that reached it meanwhile still pending; no other row moves. */
  lemma CheckpointLands(states: seq<Sys>, steps: seq<Step>, k: nat, c: Id)
    requires IsRun(states, steps) && k < |steps| && steps[k].DoWrite? && steps[k].x == c
    requires Fenced(states[k], c, steps[k].epoch)
    requires steps[k].outcome.Progress? || steps[k].outcome.Update? || steps[k].outcome.Arm?
    ensures var t, t', o := states[k].rows, states[k + 1].rows, steps[k].outcome;
      && t' == t[c := t'[c]]
      && t'[c].task == o.task && t'[c].taskEpoch == o.taskEpoch
      && t'[c].phase == (if o.Arm? then Parked else o.phase)
      && t'[c].worker.None? && t'[c].leaseEpoch == t[c].leaseEpoch && t'[c].stack == t[c].stack
      && t'[c].status == t[c].status && Busy(t[c].status)
  {
    RunKeeps(states, steps, k);
    assert Enabled(states[k], steps[k]) && states[k + 1] == Apply(states[k], steps[k]);
    assert states[k].rows[c].leaseEpoch == steps[k].epoch;
    assert RowOk(states[k].rows[c]);
  }

  /** Over every run, a landed batch: exactly the new rows appear, each a child of the writer in the
      batch it now waits on and as ready to run as it was; only the replaced attempts are retired. */
  lemma BatchLands(states: seq<Sys>, steps: seq<Step>, k: nat, c: Id, x: Id)
    requires IsRun(states, steps) && k < |steps| && steps[k].DoWrite? && steps[k].x == c
    requires Fenced(states[k], c, steps[k].epoch) && (steps[k].outcome.Spawn? || steps[k].outcome.Respawn?)
    requires states[k].rows[c].phase == (if steps[k].outcome.Spawn? then NoPhase else Collecting)
    ensures var t, t', o := states[k].rows, states[k + 1].rows, steps[k].outcome;
      && t'.Keys == t.Keys + o.ids && o.ids !! t.Keys && c in t'
      && t'[c].phase == Children && t'[c].worker.None? && t'[c].status == t[c].status
      && (o.Respawn? ==> t'[c].task == t[c].task && t'[c].taskEpoch == t[c].taskEpoch)
      && (o.Spawn? ==> t'[c].task == o.task && t'[c].taskEpoch == o.taskEpoch)
      && (x in o.ids ==>
            && InBatch(t'[x], c, t'[c].task, t'[c].taskEpoch) && t'[x].stack == t[c].stack + [c]
            && t'[x].status == t'[c].status && Claimable(t'[x]) && t'[x].worker.None?)
      && (x in t && x != c ==>
            t'[x] == if o.Respawn? && x in o.retired then t[x].(superseded := true) else t[x])
  {
    RunKeeps(states, steps, k);
    assert Enabled(states[k], steps[k]) && states[k + 1] == Apply(states[k], steps[k]);
    assert states[k].rows[c].leaseEpoch == steps[k].epoch;
    assert RowOk(states[k].rows[c]);
  }

  /** Over every run, an answer takes a parked row that still takes answers out of its park and touches
      nothing else; and a parked row leaves its park in no other way than that, its own holder's write, or
      the retry of its tree. */
  lemma ParkEnds(states: seq<Sys>, steps: seq<Step>, k: nat, x: Id)
    requires IsRun(states, steps) && k < |steps| && x in states[k].rows && states[k].rows[x].phase == Parked
    ensures var t, t', step := states[k].rows, states[k + 1].rows, steps[k];
      && (step == DoUnpark(x) ==>
            t' == if AcceptsOutcome(t[x].status) then t[x := t[x].(phase := NoPhase)] else t)
      && (step != DoUnpark(x) && !(step.DoWrite? && step.x == x) && !step.DoRetry? ==>
            x in t' && t'[x].phase == Parked)
  {
    RunKeeps(states, steps, k);
    var s, step := states[k], steps[k];
    assert Enabled(s, step) && states[k + 1] == Apply(s, step);
    if step.DoWrite? && step.x != x && Fenced(s, step.x, step.epoch) {
      assert s.rows[step.x].leaseEpoch == step.epoch;
      WriteParked(s.rows, step.x, s.memory[(step.x, step.epoch)], step.outcome, x);
    } else if step.DoPause? || step.DoCancel? || step.DoResume? {
      VerbParked(s.rows, step.root, x);
    }
  }

  lemma VerbParked(t: Table, root: Id, x: Id)
    requires x in t
    ensures x in Pause(t, root).0 && Pause(t, root).0[x].phase == t[x].phase
    ensures x in Cancel(t, root).0 && Cancel(t, root).0[x].phase == t[x].phase
    ensures x in Resume(t, root).0 && Resume(t, root).0[x].phase == t[x].phase
  {
  }

  lemma WriteParked(t: Table, c: Id, snap: Snap, o: Outcome, x: Id)
    requires Inv(t) && c in t && SnapOk(t[c], snap) && Admissible(t, snap, o)
    requires x in t && x != c && t[x].phase == Parked
    ensures WriteRows(t, c, snap, o).Some? ==>
      x in WriteRows(t, c, snap, o).value && WriteRows(t, c, snap, o).value[x].phase == Parked
  {
    if IsStop(o) {
      StopWrites(t, c, snap, o);
      StopRow(t, c, StopWrite(t, c, snap, o), x);
    }
  }

  /** Over every run, a landed stop: the writer's own row ends as its advance concluded, or, when it lands an
      operator's stop, at rest or cancelled as that stop asked, with everything else it was doing kept. */
  lemma StopLands(states: seq<Sys>, steps: seq<Step>, k: nat, c: Id)
    requires IsRun(states, steps) && k < |steps| && steps[k].DoWrite? && steps[k].x == c
    requires Fenced(states[k], c, steps[k].epoch) && IsStop(steps[k].outcome)
    ensures var r, o := states[k].rows[c], steps[k].outcome;
      && c in states[k + 1].rows
      && var r' := states[k + 1].rows[c];
        && r'.worker.None? && r'.stack == r.stack && r'.leaseEpoch == r.leaseEpoch
        && (o.Conclude? ==>
              r'.status == o.status && r'.task == o.task && r'.taskEpoch == o.taskEpoch && r'.phase == o.phase)
        && (o.LandStop? ==>
              && (r.status == Pausing || r.status == Cancelling)
              && r' == r.(status := r'.status, phase := r'.phase, worker := None)
              && r'.status == (if r.status == Pausing then Paused else Cancelled)
              && r'.phase == states[k].memory[(c, steps[k].epoch)].phase)
  {
    RunKeeps(states, steps, k);
    assert Enabled(states[k], steps[k]) && states[k + 1] == Apply(states[k], steps[k]);
    var t, snap, o := states[k].rows, states[k].memory[(c, steps[k].epoch)], steps[k].outcome;
    assert t[c].leaseEpoch == steps[k].epoch;
    StopWrites(t, c, snap, o);
    StopRow(t, c, StopWrite(t, c, snap, o), c);
  }

  /** Over every run, a batch is refused whole when its writer no longer holds its grant or is not in the
      phase a batch is spawned from. */
  lemma BatchRefused(states: seq<Sys>, steps: seq<Step>, k: nat)
    requires IsRun(states, steps) && k < |steps| && steps[k].DoWrite?
    requires steps[k].outcome.Spawn? || steps[k].outcome.Respawn?
    ensures var phase := if steps[k].outcome.Spawn? then NoPhase else Collecting;
      states[k + 1] != states[k] ==>
        Fenced(states[k], steps[k].x, steps[k].epoch) && states[k].rows[steps[k].x].phase == phase
  {
    assert Enabled(states[k], steps[k]) && states[k + 1] == Apply(states[k], steps[k]);
  }
}
