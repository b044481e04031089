/**
 The climb keeps the tree: after a row stops, settling its ancestors bottom-up restores the
 whole invariant, so nothing above is left waiting for a child that will never report.
 */
module Settle {
  import opened Wrappers
  import opened Statuses
  import opened Tree
  import opened Statements

  /** `p` waits, busy, on the batch `(task, epoch)`, and `path` is its stack with itself on top. */
  ghost predicate Waiting(t: Table, path: seq<Id>, task: TaskId, epoch: nat) {
    path != [] ==>
      var p := path[|path| - 1];
      && p in t && t[p].stack == path[..|path| - 1]
      && t[p].phase == Children && Busy(t[p].status)
      && t[p].task == task && t[p].taskEpoch == epoch
  }

  ghost function Top(path: seq<Id>): Option<Id> {
    if path == [] then None else Some(path[|path| - 1])
  }

  /** What a live row under a waiting row `p` says about the child of `p` on the way to it. */
  lemma BelowWaiting(t: Table, p: Id, x: Id, i: nat)
    requires InvExcept(t, Some(p)) && p in t && t[p].phase == Children && Busy(t[p].status)
    requires x in t && Live(t[x]) && i < |t[x].stack| && t[x].stack[i] == p
    ensures var b := NextOn(t, x, i);
      && b in t && InBatch(t[b], p, t[p].task, t[p].taskEpoch)
      && (Live(t[b]) || t[p].status == Failing)
      && (Busy(t[x].status) ==> Busy(t[b].status))
  {
    assert EdgeOk(t, x, i);
    var b := NextOn(t, x, i);
    if i + 1 < |t[x].stack| {
      assert EdgeOk(t, x, i + 1);
      assert t[b].stack == t[x].stack[..i + 1];
    }
  }

  /** With nothing busy in the batch, what is left below `p` is paused; with nothing active and
      `p` not failing, nothing is left at all. */
  lemma QuietBelow(t: Table, p: Id, x: Id)
    requires InvExcept(t, Some(p)) && p in t && t[p].phase == Children && Busy(t[p].status)
    requires x in t && Live(t[x]) && p in t[x].stack
    ensures !AnyBusy(t, p, t[p].task, t[p].taskEpoch) ==> t[x].status == Paused
    ensures !AnyActive(t, p, t[p].task, t[p].taskEpoch) ==> t[p].status == Failing && t[x].status == Paused
  {
    var i :| 0 <= i < |t[x].stack| && t[x].stack[i] == p;
    BelowWaiting(t, p, x, i);
    var b := NextOn(t, x, i);
    assert Live(t[b]) ==> AnyActive(t, p, t[p].task, t[p].taskEpoch);
    assert Busy(t[b].status) ==> AnyBusy(t, p, t[p].task, t[p].taskEpoch);
  }

  /** A running parent's live children are running. */
  lemma RunningBelow(t: Table, p: Id, x: Id)
    requires InvExcept(t, Some(p)) && p in t && x in t && Live(t[x]) && RootOf(x, t[x]) == RootOf(p, t[p])
    ensures t[p].status == Running ==> t[x].status == Running
    ensures t[p].status == Cancelling ==> t[x].status == Cancelling
  {
  }

  lemma RootThrough(t: Table, x: Id, p: Id)
    requires Linked(t) && x in t && p in t[x].stack
    ensures p in t && RootOf(x, t[x]) == RootOf(p, t[p])
  {
    var i :| 0 <= i < |t[x].stack| && t[x].stack[i] == p;
    assert t[p].stack == t[x].stack[..i];
    if i > 0 {
      assert t[p].stack[0] == t[x].stack[0];
    }
  }

  lemma SameLinks(t: Table, p: Id, row: Row)
    requires Linked(t) && p in t && row.stack == t[p].stack
    ensures Linked(t[p := row])
  {
  }

  /** Only status and phase differ between `row` and the row it replaces. */
  predicate SameIdentity(r: Row, row: Row) {
    && row.stack == r.stack && row.spawnTask == r.spawnTask && row.parentEpoch == r.parentEpoch
    && row.task == r.task && row.taskEpoch == r.taskEpoch
  }

  /** Replacing one row keeps the edge from `x` to its ancestor at depth `i`. */
  lemma ReplaceEdge(t: Table, e: Option<Id>, p: Id, row: Row, x: Id, i: nat)
    requires InvExcept(t, e) && p in t && SameIdentity(t[p], row)
    requires x in t && Live(t[x]) && i < |t[x].stack|
    requires p in t[x].stack ==> Open(row) && (Busy(t[x].status) ==> Busy(row.status))
    requires row.status == Failed && t[p].stack != [] ==> Doomed(t[t[p].stack[|t[p].stack| - 1]].status)
    requires Doomed(t[p].status) ==> Doomed(row.status)
    requires Busy(row.status) ==> Busy(t[p].status)
    ensures Linked(t[p := row]) && EdgeOk(t[p := row], x, i)
  {
    SameLinks(t, p, row);
    assert EdgeOk(t, x, i);
    StackAbove(t, x, i);
    EdgeMoved(t, p, row, x, i);
  }

  /** The stack above an ancestor is the row's own, up to it. */
  lemma StackAbove(t: Table, x: Id, i: nat)
    requires Linked(t) && x in t && i < |t[x].stack|
    ensures t[x].stack[i] in t && t[t[x].stack[i]].stack == t[x].stack[..i]
    ensures 0 < i ==> t[x].stack[i - 1] in t && t[t[x].stack[i - 1]].stack == t[x].stack[..i - 1]
  {
    assert t[t[x].stack[i]].stack == t[x].stack[..i];
    if 0 < i {
      assert t[t[x].stack[i - 1]].stack == t[x].stack[..i - 1];
    }
  }

  lemma EdgeMoved(t: Table, p: Id, row: Row, x: Id, i: nat)
    requires Linked(t) && Linked(t[p := row]) && p in t && SameIdentity(t[p], row)
    requires x in t && i < |t[x].stack| && t[x].stack[i] in t && t[t[x].stack[i]].stack == t[x].stack[..i]
    requires EdgeOk(t, x, i)
    requires p in t[x].stack ==> Open(row) && (Busy(t[x].status) ==> Busy(row.status))
    requires row.status == Failed && t[p].stack != [] ==> Doomed(t[t[p].stack[|t[p].stack| - 1]].status)
    requires Doomed(t[p].status) ==> Doomed(row.status)
    requires Busy(row.status) ==> Busy(t[p].status)
    ensures EdgeOk(t[p := row], x, i)
  {
    var t', a := t[p := row], t[x].stack[i];
    if 0 < i {
      assert t[a].stack[|t[a].stack| - 1] == t[x].stack[i - 1];
    }
    assert Open(t'[a]);
    assert t'[x].stack == t[x].stack;
    assert NextOn(t', x, i) == NextOn(t, x, i);
  }

  /** What the climb makes of a waiting row, given what is below it. */
  lemma SettledRow(t: Table, p: Id)
    requires InvExcept(t, Some(p)) && p in t && t[p].phase == Children && Busy(t[p].status)
    ensures var row := SettleParent(t, p, t[p].task, t[p].taskEpoch).0;
      && SameIdentity(t[p], row)
      && (row.status == Failed ==> t[p].status == Failing)
      && (Doomed(t[p].status) ==> Doomed(row.status))
      && (Busy(row.status) ==> row.status == t[p].status)
      && row.worker == t[p].worker && row.superseded == t[p].superseded
  {
  }

  lemma SettledRowBelow(t: Table, p: Id, x: Id)
    requires InvExcept(t, Some(p)) && p in t && t[p].phase == Children && Busy(t[p].status)
    requires x in t && Live(t[x]) && p in t[x].stack
    ensures var row := SettleParent(t, p, t[p].task, t[p].taskEpoch).0;
      Open(row) && (Busy(t[x].status) ==> Busy(row.status))
  {
    QuietBelow(t, p, x);
    RootThrough(t, x, p);
    RunningBelow(t, p, x);
  }

  /** Replacing one waiting row by what the climb makes of it keeps the paths. */
  lemma SettlePath(t: Table, p: Id)
    requires InvExcept(t, Some(p)) && p in t && t[p].phase == Children && Busy(t[p].status)
    ensures var t' := t[p := SettleParent(t, p, t[p].task, t[p].taskEpoch).0]; Linked(t') && PathOk(t')
  {
    var row := SettleParent(t, p, t[p].task, t[p].taskEpoch).0;
    SettledRow(t, p);
    SameLinks(t, p, row);
    var t' := t[p := row];
    forall x, i | x in t' && Live(t'[x]) && 0 <= i < |t'[x].stack|
      ensures EdgeOk(t', x, i)
    {
      if p in t[x].stack {
        SettledRowBelow(t, p, x);
      }
      ReplaceEdge(t, Some(p), p, row, x, i);
    }
  }

  lemma SettleMode(t: Table, p: Id)
    requires InvExcept(t, Some(p)) && p in t && t[p].phase == Children && Busy(t[p].status)
    ensures var t' := t[p := SettleParent(t, p, t[p].task, t[p].taskEpoch).0]; Linked(t') && ModeOk(t')
  {
    var row := SettleParent(t, p, t[p].task, t[p].taskEpoch).0;
    SettledRow(t, p);
    SameLinks(t, p, row);
    var t' := t[p := row];
    forall x | x in t' && Live(t'[x])
      ensures Compat(t'[RootOf(x, t'[x])].status, t'[x].status)
    {
      assert Compat(t[RootOf(x, t[x])].status, t[x].status);
      if RootOf(x, t[x]) == p && x != p {
        SettledRowBelow(t, p, x);
        QuietBelow(t, p, x);
      }
    }
  }

  lemma SettleFailUp(t: Table, p: Id)
    requires InvExcept(t, Some(p)) && p in t && t[p].phase == Children && Busy(t[p].status)
    ensures var t' := t[p := SettleParent(t, p, t[p].task, t[p].taskEpoch).0]; Linked(t') && FailUp(t')
  {
    var row := SettleParent(t, p, t[p].task, t[p].taskEpoch).0;
    SettledRow(t, p);
    SameLinks(t, p, row);
    var t' := t[p := row];
    forall x | x in t' && t'[x].status == Failing
      ensures t'[x].phase == Children
      ensures t'[x].stack != [] ==> t'[t'[x].stack[|t'[x].stack| - 1]].status == Failing
    {
      if x != p && t[x].stack != [] && t[x].stack[|t[x].stack| - 1] == p {
        BelowWaiting(t, p, x, |t[x].stack| - 1);
        assert AnyBusy(t, p, t[p].task, t[p].taskEpoch);
      }
    }
  }

  /** Rows off the settled one are fed as before; its parent is the next one to visit. */
  lemma SettleFed(t: Table, p: Id)
    requires InvExcept(t, Some(p)) && p in t && t[p].phase == Children && Busy(t[p].status)
    ensures var (row, settled) := SettleParent(t, p, t[p].task, t[p].taskEpoch);
      Fed(t[p := row], if settled then ParentOf(t[p]) else None)
  {
    var (row, settled) := SettleParent(t, p, t[p].task, t[p].taskEpoch);
    SettledRow(t, p);
    var t' := t[p := row];
    forall q | q in t' && (settled ==> Some(q) != ParentOf(t[p]))
      ensures FedAt(t', q)
    {
      if q == p {
        SettledFed(t, p);
      } else {
        assert FedAt(t, q);
        StillFed(t, p, row, q);
      }
    }
  }

  lemma StillFed(t: Table, p: Id, row: Row, q: Id)
    requires p in t && q in t && q != p && FedAt(t, q)
    requires row.stack == t[p].stack
    requires ParentOf(t[p]) != Some(q) || row.status == t[p].status
    ensures FedAt(t[p := row], q)
  {
    var t' := t[p := row];
    if HasBusyChild(t, q) {
      var c :| c in t && Busy(t[c].status) && ParentOf(t[c]) == Some(q);
      assert Busy(t'[c].status) && ParentOf(t'[c]) == Some(q);
    }
    if HasLiveChild(t, q) {
      var c :| c in t && Live(t[c]) && ParentOf(t[c]) == Some(q);
      assert !Terminal(t'[c].status) && ParentOf(t'[c]) == Some(q);
    }
  }

  lemma SettledFed(t: Table, p: Id)
    requires InvExcept(t, Some(p)) && p in t && t[p].phase == Children && Busy(t[p].status)
    ensures FedAt(t[p := SettleParent(t, p, t[p].task, t[p].taskEpoch).0], p)
  {
    var task, epoch := t[p].task, t[p].taskEpoch;
    var row := SettleParent(t, p, task, epoch).0;
    var t' := t[p := row];
    if AnyActive(t, p, task, epoch) {
      var c :| c in t && InBatch(t[c], p, task, epoch) && Live(t[c]);
      assert EdgeOk(t, c, |t[c].stack| - 1);
      assert t[p].stack == t[c].stack[..|t[c].stack| - 1];
      RootThrough(t, c, p);
      RunningBelow(t, p, c);
      assert !Terminal(t'[c].status) && ParentOf(t'[c]) == Some(p);
      if AnyBusy(t, p, task, epoch) {
        var d :| d in t && InBatch(t[d], p, task, epoch) && Busy(t[d].status);
        assert d != p;
        assert Busy(t'[d].status) && ParentOf(t'[d]) == Some(p);
      }
    }
  }

  lemma SettleHeld(t: Table, p: Id, row: Row)
    requires RowsOk(t) && p in t && RowOk(row)
    ensures RowsOk(t[p := row])
  {
    var t' := t[p := row];
    forall x | x in t'
      ensures RowOk(t'[x])
    {
      assert x != p ==> RowOk(t[x]);
    }
  }

  /** The parent's row as the turn leaves it: only what its own parent is owed may be open. */
  lemma SettleKeeps(t: Table, p: Id, row: Row, settled: bool)
    requires InvExcept(t, Some(p)) && p in t && t[p].phase == Children && Busy(t[p].status)
    requires SettleParent(t, p, t[p].task, t[p].taskEpoch) == (row, settled)
    ensures InvExcept(t[p := row], if settled then ParentOf(t[p]) else None)
  {
    SettledRow(t, p);
    SettlePath(t, p);
    SettleMode(t, p);
    SettleFailUp(t, p);
    SettleFed(t, p);
    assert RowOk(t[p]);
    SettleHeld(t, p, row);
  }

  /** One turn of the climb restores the invariant, or hands the gap on to the next ancestor. */
  lemma SettleStep(t: Table, path: seq<Id>, task: TaskId, epoch: nat)
    requires path != [] && Waiting(t, path, task, epoch) && InvExcept(t, Top(path))
    ensures var p := path[|path| - 1]; var rest := path[..|path| - 1];
      var (row, settled) := SettleParent(t, p, task, epoch);
      if settled
      then InvExcept(t[p := row], Top(rest)) && Waiting(t[p := row], rest, row.spawnTask, row.parentEpoch)
      else Inv(t[p := row])
  {
    var p := path[|path| - 1];
    var rest := path[..|path| - 1];
    var (row, settled) := SettleParent(t, p, task, epoch);
    SettleKeeps(t, p, row, settled);
    assert ParentOf(t[p]) == Top(rest);
    if settled {
      WaitsAbove(t, p, row, rest);
    }
  }

  /** The parent of a waiting row waits on that row's batch. */
  lemma WaitsAbove(t: Table, p: Id, row: Row, rest: seq<Id>)
    requires InvExcept(t, Some(p)) && p in t && t[p].stack == rest && Busy(t[p].status)
    requires row.spawnTask == t[p].spawnTask && row.parentEpoch == t[p].parentEpoch
    ensures Waiting(t[p := row], rest, row.spawnTask, row.parentEpoch)
  {
    if rest != [] {
      var a := rest[|rest| - 1];
      assert EdgeOk(t, p, |rest| - 1);
      assert t[a].stack == rest[..|rest| - 1];
    }
  }

  /** The whole climb: from a row that has just stopped, every ancestor that should wake or
      settle does, and no waiting row is left without something to wait for. */
  lemma ClimbKeeps(t: Table, path: seq<Id>, task: TaskId, epoch: nat)
    requires Waiting(t, path, task, epoch) && InvExcept(t, Top(path))
    ensures Inv(SettleUp(t, path, task, epoch))
    decreases |path|
  {
    if path != [] {
      var p := path[|path| - 1];
      var (row, settled) := SettleParent(t, p, task, epoch);
      SettleStep(t, path, task, epoch);
      if settled {
        ClimbKeeps(t[p := row], path[..|path| - 1], row.spawnTask, row.parentEpoch);
      }
    }
  }
}
