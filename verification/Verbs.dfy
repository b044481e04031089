/**
 The tree-wide statements keep the tree: pause, cancel, resume, and the failure that marks a
 call stack `failing` and pauses the rest.
 */
module Verbs {
  import opened Wrappers
  import opened Statuses
  import opened Tree
  import opened Statements
  import opened Settle

  /** Two tables that differ in statuses only. */
  ghost predicate StatusOnly(t: Table, t': Table) {
    && t'.Keys == t.Keys
    && (forall x {:trigger t'[x]} :: x in t ==> t'[x] == t[x].(status := t'[x].status))
  }

  lemma StatusOnlyLinks(t: Table, t': Table)
    requires Linked(t) && StatusOnly(t, t')
    ensures Linked(t')
  {
    forall x, i | x in t' && 0 <= i < |t'[x].stack|
      ensures t'[x].stack[i] in t' && t'[t'[x].stack[i]].stack == t'[x].stack[..i]
    {
      assert t'[x].stack == t[x].stack;
      var a := t[x].stack[i];
      assert t'[a].stack == t[a].stack;
    }
  }

  /** An edge survives a status change that keeps its ends compatible. */
  lemma StatusOnlyEdge(t: Table, t': Table, x: Id, i: nat)
    requires Linked(t) && Linked(t') && StatusOnly(t, t')
    requires x in t && i < |t[x].stack| && EdgeOk(t, x, i)
    requires var a := t[x].stack[i];
      && (Live(t[a]) ==> Live(t'[a])) && (t[a].status == Failed <==> t'[a].status == Failed)
      && (Busy(t'[x].status) ==> Busy(t'[a].status))
    requires 0 < i && Doomed(t[t[x].stack[i - 1]].status) ==> Doomed(t'[t[x].stack[i - 1]].status)
    ensures x in t' && t'[x].stack == t[x].stack && EdgeOk(t', x, i)
  {
    var a, b := t[x].stack[i], NextOn(t, x, i);
    assert t'[a] == t[a].(status := t'[a].status);
    assert t'[b] == t[b].(status := t'[b].status);
    assert t'[x] == t[x].(status := t'[x].status);
  }

  /** An ancestor of a row above a held row is above it too. */
  lemma AboveHeldUp(t: Table, root: Id, x: Id, a: Id)
    requires Linked(t) && x in t && InTree(x, t[x], root) && a in t[x].stack && Drains(t, root, x)
    ensures AboveHeld(t, root, a)
  {
    if t[x].worker.None? {
      var h :| h in t && InTree(h, t[h], root) && t[h].worker.Some? && x in t[h].stack;
      var k :| 0 <= k < |t[h].stack| && t[h].stack[k] == x;
      assert t[x].stack == t[h].stack[..k];
      assert a in t[h].stack;
    }
  }

  /** A waiting row above a held one has a live child that drains with it. */
  lemma DrainsDown(t: Table, root: Id, q: Id) returns (b: Id)
    requires Linked(t) && PathOk(t) && RowsOk(t)
    requires q in t && AboveHeld(t, root, q)
    ensures b in t && ParentOf(t[b]) == Some(q) && InTree(b, t[b], root) && Busy(t[b].status)
    ensures Drains(t, root, b)
  {
    var h :| h in t && InTree(h, t[h], root) && t[h].worker.Some? && q in t[h].stack;
    assert RowOk(t[h]);
    var k :| 0 <= k < |t[h].stack| && t[h].stack[k] == q;
    b := NextOn(t, h, k);
    if k + 1 < |t[h].stack| {
      assert EdgeOk(t, h, k + 1);
      assert t[b].stack == t[h].stack[..k + 1];
      assert b in t[h].stack;
    }
  }

  // ------------------------------------------------------------------------------------------
  // Pausing
  // ------------------------------------------------------------------------------------------

  ghost predicate HasFailingChild(t: Table, q: Id) {
    exists c {:trigger t[c].status} :: c in t && t[c].status == Failing && ParentOf(t[c]) == Some(q)
  }

  /** The trees a pause finds: every live row of `root`'s tree is running, or failing on the call
      stack of a failure; the other trees are as they should be. */
  ghost predicate Pausable(t: Table, root: Id, e: Option<Id>) {
    && Linked(t) && PathOk(t) && Fed(t, e) && FailUp(t) && RowsOk(t)
    && root in t && t[root].stack == [] && Busy(t[root].status)
    && (forall x {:trigger t[x].status} :: x in t && Live(t[x]) ==>
          if InTree(x, t[x], root) then t[x].status.Running? || t[x].status.Failing?
          else Compat(t[RootOf(x, t[x])].status, t[x].status))
    && (forall q {:trigger HasFailingChild(t, q)} ::
          q in t && InTree(q, t[q], root) && t[q].status == Failing && Some(q) != e ==> HasFailingChild(t, q))
  }

  /** `t'` is what PauseTree makes of `t`. */
  ghost predicate PausedTo(t: Table, root: Id, t': Table) {
    StatusOnly(t, t') && forall x {:trigger t'[x]} :: x in t ==> t'[x].status == PauseStatus(t, root, x)
  }

  lemma FailingUp(t: Table, x: Id, i: nat)
    requires Linked(t) && FailUp(t) && x in t && t[x].status == Failing && i < |t[x].stack|
    ensures t[t[x].stack[i]].status == Failing
    decreases |t[x].stack|
  {
    var p := t[x].stack[|t[x].stack| - 1];
    if i < |t[x].stack| - 1 {
      assert t[p].stack == t[x].stack[..|t[x].stack| - 1];
      FailingUp(t, p, i);
    }
  }

  lemma PauseEdge(t: Table, root: Id, e: Option<Id>, x: Id, i: nat)
    requires Pausable(t, root, e) && x in t && Live(t[x]) && i < |t[x].stack|
    ensures Busy(PauseStatus(t, root, x)) ==> Busy(PauseStatus(t, root, t[x].stack[i]))
  {
    assert EdgeOk(t, x, i);
    var a := t[x].stack[i];
    RootThrough(t, x, a);
    if InTree(x, t[x], root) {
      if t[x].status == Failing {
        FailingUp(t, x, i);
      } else if Drains(t, root, x) {
        AboveHeldUp(t, root, x, a);
      }
    }
  }

  lemma PausePath(t: Table, root: Id, e: Option<Id>, t': Table)
    requires Pausable(t, root, e) && PausedTo(t, root, t')
    ensures Linked(t') && PathOk(t')
  {
    StatusOnlyLinks(t, t');
    forall x, i | x in t' && Live(t'[x]) && 0 <= i < |t'[x].stack|
      ensures EdgeOk(t', x, i)
    {
      assert EdgeOk(t, x, i);
      PauseEdge(t, root, e, x, i);
      StatusOnlyEdge(t, t', x, i);
    }
  }

  lemma PauseBusyChild(t: Table, root: Id, e: Option<Id>, q: Id) returns (d: Id)
    requires Pausable(t, root, e) && q in t && Some(q) != e
    requires t[q].phase == Children && Busy(PauseStatus(t, root, q))
    ensures d in t && ParentOf(t[d]) == Some(q) && Busy(PauseStatus(t, root, d))
  {
    assert FedAt(t, q);
    assert RowOk(t[q]);
    if InTree(q, t[q], root) && t[q].status == Failing {
      assert HasFailingChild(t, q);
      d :| d in t && t[d].status == Failing && ParentOf(t[d]) == Some(q);
    } else if InTree(q, t[q], root) {
      d := DrainsDown(t, root, q);
    } else {
      d :| d in t && Busy(t[d].status) && ParentOf(t[d]) == Some(q);
      RootThrough(t, d, q);
    }
  }

  lemma PauseFedAt(t: Table, root: Id, e: Option<Id>, t': Table, q: Id)
    requires Pausable(t, root, e) && PausedTo(t, root, t') && q in t && Some(q) != e
    ensures FedAt(t', q)
  {
    assert FedAt(t, q);
    if t[q].phase == Children && Busy(PauseStatus(t, root, q)) {
      var d := PauseBusyChild(t, root, e, q);
      PausedChild(t, root, t', q, d);
    } else {
      PausedQuiet(t, root, t', q);
    }
  }

  lemma PausedChild(t: Table, root: Id, t': Table, q: Id, d: Id)
    requires PausedTo(t, root, t') && q in t && d in t && ParentOf(t[d]) == Some(q) && Busy(PauseStatus(t, root, d))
    ensures FedAt(t', q)
  {
    assert t'[d] == t[d].(status := PauseStatus(t, root, d));
    FedFrom(t, t', q, d);
  }

  /** A row the pause leaves at rest keeps a child that has not concluded. */
  lemma PausedQuiet(t: Table, root: Id, t': Table, q: Id)
    requires PausedTo(t, root, t') && q in t && FedAt(t, q)
    requires !(t[q].phase == Children && Busy(PauseStatus(t, root, q)))
    ensures FedAt(t', q)
  {
    assert t'[q] == t[q].(status := PauseStatus(t, root, q));
    FedLive(t, t', q);
  }

  lemma StillChild(t: Table, t': Table, d: Id, q: Id)
    requires StatusOnly(t, t') && d in t && ParentOf(t[d]) == Some(q) && Busy(t'[d].status)
    ensures HasBusyChild(t', q)
  {
    assert t'[d] == t[d].(status := t'[d].status);
  }

  /** The child a waiting row is waiting for. */
  lemma FedChild(t: Table, q: Id) returns (d: Id)
    requires q in t && FedAt(t, q) && t[q].phase == Children && Live(t[q])
    ensures d in t && ParentOf(t[d]) == Some(q) && Live(t[d]) && (Busy(t[q].status) ==> Busy(t[d].status))
  {
    if Busy(t[q].status) {
      d :| d in t && Busy(t[d].status) && ParentOf(t[d]) == Some(q);
    } else {
      d :| d in t && Live(t[d]) && ParentOf(t[d]) == Some(q);
    }
  }

  lemma FedFrom(t: Table, t': Table, q: Id, d: Id)
    requires StatusOnly(t, t') && q in t && d in t && ParentOf(t[d]) == Some(q)
    requires Live(t'[d]) && (Busy(t'[q].status) ==> Busy(t'[d].status))
    ensures FedAt(t', q)
  {
    assert t'[d] == t[d].(status := t'[d].status);
  }

  /** A waiting row keeps its live child when no live row concludes. */
  lemma FedLive(t: Table, t': Table, q: Id)
    requires StatusOnly(t, t') && q in t && FedAt(t, q)
    requires forall x {:trigger t'[x]} :: x in t && Live(t[x]) ==> Live(t'[x])
    ensures t[q].phase == Children && Live(t[q]) ==> HasLiveChild(t', q)
  {
    if t[q].phase == Children && Live(t[q]) {
      var c :| c in t && Live(t[c]) && ParentOf(t[c]) == Some(q);
      assert t'[c] == t[c].(status := t'[c].status);
    }
  }

  lemma PauseFed(t: Table, root: Id, e: Option<Id>, t': Table)
    requires Pausable(t, root, e) && PausedTo(t, root, t')
    ensures Fed(t', e)
  {
    forall q | q in t' && Some(q) != e
      ensures FedAt(t', q)
    {
      PauseFedAt(t, root, e, t', q);
    }
  }

  lemma PauseMode(t: Table, root: Id, e: Option<Id>, t': Table)
    requires Pausable(t, root, e) && PausedTo(t, root, t') && Linked(t')
    ensures ModeOk(t')
  {
    forall x | x in t' && Live(t'[x])
      ensures Compat(t'[RootOf(x, t'[x])].status, t'[x].status)
    {
      assert t'[x].stack == t[x].stack;
      if InTree(x, t[x], root) && x != root {
        PauseEdge(t, root, e, x, 0);
        if t[x].status == Failing {
          FailingUp(t, x, 0);
        }
      }
    }
  }

  lemma StatusOnlyHeld(t: Table, t': Table)
    requires RowsOk(t) && StatusOnly(t, t')
    requires forall x {:trigger t'[x]} :: x in t && t[x].status != t'[x].status && t[x].worker.Some? ==>
      t'[x].status.Pausing? || t'[x].status.Cancelling?
    requires forall x {:trigger t'[x]} :: x in t && t[x].status == Raised ==> t'[x].status == Raised
    ensures RowsOk(t')
  {
    forall x | x in t'
      ensures RowOk(t'[x])
    {
      assert RowOk(t[x]);
    }
  }

  lemma PauseFailUp(t: Table, root: Id, e: Option<Id>, t': Table)
    requires Pausable(t, root, e) && PausedTo(t, root, t') && Linked(t')
    ensures FailUp(t')
  {
    forall x | x in t' && t'[x].status == Failing
      ensures t'[x].phase == Children
      ensures t'[x].stack != [] ==> t'[t'[x].stack[|t'[x].stack| - 1]].status == Failing
    {
      assert t'[x] == t[x];
      if t[x].stack != [] {
        var p := t[x].stack[|t[x].stack| - 1];
        assert t[p].status == Failing;
        assert t'[p].status == PauseStatus(t, root, p);
      }
    }
  }

  /** PauseTree keeps the tree: what drains is exactly what has a held row at or below it. */
  lemma PauseKeeps(t: Table, root: Id, e: Option<Id>)
    requires Pausable(t, root, e)
    ensures InvExcept(PauseTree(t, root), e)
  {
    var t' := PauseTree(t, root);
    PausePath(t, root, e, t');
    PauseFed(t, root, e, t');
    PauseMode(t, root, e, t');
    PauseFailUp(t, root, e, t');
    StatusOnlyHeld(t, t');
  }

  /** With nothing running in the tree, PauseTree changes nothing. */
  lemma PauseNoop(t: Table, root: Id)
    requires forall x {:trigger t[x].status} :: x in t && InTree(x, t[x], root) ==> !t[x].status.Running?
    ensures PauseTree(t, root) == t
  {
  }

  // ------------------------------------------------------------------------------------------
  // Failing
  // ------------------------------------------------------------------------------------------

  /** A row has just failed under a tree that is not being cancelled. */
  ghost predicate FailReady(t: Table, c: Id) {
    && c in t && t[c].stack != [] && t[c].status == Failed
    && InvExcept(t, ParentOf(t[c]))
    && (forall i {:trigger t[c].stack[i]} :: 0 <= i < |t[c].stack| ==>
          && Busy(t[t[c].stack[i]].status) && !t[t[c].stack[i]].status.Cancelling?
          && t[t[c].stack[i]].phase == Children)
  }

  ghost predicate FailedTo(t: Table, ids: seq<Id>, t': Table) {
    && StatusOnly(t, t')
    && forall x {:trigger t'[x]} :: x in t ==> t'[x].status == FailStatus(ids, x, t[x].status)
  }

  lemma FailBusy(t: Table, c: Id, t': Table, x: Id)
    requires FailReady(t, c) && FailedTo(t, t[c].stack, t') && x in t
    ensures Busy(t'[x].status) <==> Busy(t[x].status)
    ensures Live(t'[x]) <==> Live(t[x])
    ensures t'[x].status == Failed <==> t[x].status == Failed
    ensures x in t[c].stack ==> t'[x].status == Failing
    ensures t[x].status == Failing ==> t'[x].status == Failing
  {
    if x in t[c].stack {
      var i :| 0 <= i < |t[c].stack| && t[c].stack[i] == x;
    }
  }

  lemma FailPath(t: Table, c: Id, t': Table)
    requires FailReady(t, c) && FailedTo(t, t[c].stack, t')
    ensures Linked(t') && PathOk(t')
  {
    StatusOnlyLinks(t, t');
    forall x, i | x in t' && Live(t'[x]) && 0 <= i < |t'[x].stack|
      ensures EdgeOk(t', x, i)
    {
      FailBusy(t, c, t', x);
      assert EdgeOk(t, x, i);
      FailBusy(t, c, t', t[x].stack[i]);
      if 0 < i {
        FailBusy(t, c, t', t[x].stack[i - 1]);
      }
      StatusOnlyEdge(t, t', x, i);
    }
  }

  lemma FailFed(t: Table, c: Id, t': Table)
    requires FailReady(t, c) && FailedTo(t, t[c].stack, t')
    ensures Fed(t', ParentOf(t[c]))
  {
    forall q | q in t' && Some(q) != ParentOf(t[c])
      ensures FedAt(t', q)
    {
      assert FedAt(t, q);
      FailBusy(t, c, t', q);
      if t[q].phase == Children && Busy(t[q].status) {
        var d :| d in t && Busy(t[d].status) && ParentOf(t[d]) == Some(q);
        FailBusy(t, c, t', d);
        StillChild(t, t', d, q);
      }
      forall x | x in t && Live(t[x])
        ensures Live(t'[x])
      {
        FailBusy(t, c, t', x);
      }
      FedLive(t, t', q);
    }
  }

  lemma FailFailUp(t: Table, c: Id, t': Table)
    requires FailReady(t, c) && FailedTo(t, t[c].stack, t') && Linked(t')
    ensures FailUp(t')
  {
    forall x | x in t' && t'[x].status == Failing
      ensures t'[x].phase == Children
      ensures t'[x].stack != [] ==> t'[t'[x].stack[|t'[x].stack| - 1]].status == Failing
    {
      assert t'[x] == t[x].(status := t'[x].status);
      if x in t[c].stack {
        var k :| 0 <= k < |t[c].stack| && t[c].stack[k] == x;
        assert t[x].stack == t[c].stack[..k];
        if 0 < k {
          FailBusy(t, c, t', t[c].stack[k - 1]);
        }
      } else if t[x].stack != [] {
        FailBusy(t, c, t', t[x].stack[|t[x].stack| - 1]);
      }
    }
  }

  lemma FailHeld(t: Table, c: Id, t': Table)
    requires FailReady(t, c) && FailedTo(t, t[c].stack, t')
    ensures RowsOk(t')
  {
    forall x | x in t'
      ensures RowOk(t'[x])
    {
      assert RowOk(t[x]);
      FailBusy(t, c, t', x);
    }
  }

  /** A later failure: the tree is already stopping, and marking the stack is all there is to do. */
  lemma FailLater(t: Table, c: Id, t': Table)
    requires FailReady(t, c) && FailedTo(t, t[c].stack, t') && t[t[c].stack[0]].status != Running
    ensures InvExcept(t', ParentOf(t[c]))
  {
    FailPath(t, c, t');
    FailFed(t, c, t');
    FailFailUp(t, c, t');
    FailHeld(t, c, t');
    forall x | x in t' && Live(t'[x])
      ensures Compat(t'[RootOf(x, t'[x])].status, t'[x].status)
    {
      FailBusy(t, c, t', x);
      FailBusy(t, c, t', RootOf(x, t[x]));
      if x in t[c].stack {
        RootThrough(t, c, x);
      }
      assert Compat(t[RootOf(x, t[x])].status, t[x].status);
    }
  }

  /** The failure that poisons a running tree leaves a tree ready to be paused. */
  lemma FailFirst(t: Table, c: Id, t': Table)
    requires FailReady(t, c) && FailedTo(t, t[c].stack, t') && t[t[c].stack[0]].status == Running
    ensures Pausable(t', t[c].stack[0], ParentOf(t[c]))
  {
    var root := t[c].stack[0];
    FailPath(t, c, t');
    FailFed(t, c, t');
    FailFailUp(t, c, t');
    FailHeld(t, c, t');
    FailBusy(t, c, t', root);
    forall x | x in t' && Live(t'[x])
      ensures if InTree(x, t'[x], root) then t'[x].status.Running? || t'[x].status.Failing?
              else Compat(t'[RootOf(x, t'[x])].status, t'[x].status)
    {
      FailFirstMode(t, c, t', x);
    }
    forall q | q in t' && InTree(q, t'[q], root) && t'[q].status == Failing && Some(q) != ParentOf(t[c])
      ensures HasFailingChild(t', q)
    {
      FailFirstChild(t, c, t', q);
    }
  }

  lemma FailFirstMode(t: Table, c: Id, t': Table, x: Id)
    requires FailReady(t, c) && FailedTo(t, t[c].stack, t') && t[t[c].stack[0]].status == Running
    requires x in t' && Live(t'[x])
    ensures RootOf(x, t'[x]) in t'
    ensures if InTree(x, t'[x], t[c].stack[0]) then t'[x].status.Running? || t'[x].status.Failing?
            else Compat(t'[RootOf(x, t'[x])].status, t'[x].status)
  {
    FailBusy(t, c, t', x);
    FailBusy(t, c, t', RootOf(x, t[x]));
    if x in t[c].stack {
      RootThrough(t, c, x);
    }
    if RootOf(x, t[x]) in t[c].stack {
      RootThrough(t, c, RootOf(x, t[x]));
    }
    assert Compat(t[RootOf(x, t[x])].status, t[x].status);
  }

  lemma FailFirstChild(t: Table, c: Id, t': Table, q: Id)
    requires FailReady(t, c) && FailedTo(t, t[c].stack, t') && t[t[c].stack[0]].status == Running
    requires q in t' && InTree(q, t'[q], t[c].stack[0]) && t'[q].status == Failing && Some(q) != ParentOf(t[c])
    ensures HasFailingChild(t', q)
  {
    FailBusy(t, c, t', q);
    assert Compat(t[RootOf(q, t[q])].status, t[q].status);
    assert q in t[c].stack;
    var k :| 0 <= k < |t[c].stack| && t[c].stack[k] == q;
    var d := t[c].stack[k + 1];
    FailBusy(t, c, t', d);
    assert t[d].stack == t[c].stack[..k + 1];
    assert t'[d] == t[d].(status := t'[d].status);
  }
}
