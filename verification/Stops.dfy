/**
 Cancelling and resuming keep the tree.
 */
module Stops {
  import opened Wrappers
  import opened Statuses
  import opened Tree
  import opened Statements
  import opened Settle
  import opened Verbs

  // ------------------------------------------------------------------------------------------
  // Cancelling
  // ------------------------------------------------------------------------------------------

  ghost predicate CancelledTo(t: Table, root: Id, t': Table) {
    StatusOnly(t, t') && forall x {:trigger t'[x]} :: x in t ==> t'[x].status == CancelStatus(t, root, x)
  }

  ghost predicate Cancellable(t: Table, root: Id) {
    Inv(t) && root in t && t[root].stack == [] && (t[root].status.Running? || t[root].status.Paused?)
  }

  /** Only a running tree has held rows to drain. */
  lemma DrainsRunning(t: Table, root: Id, x: Id)
    requires Cancellable(t, root) && x in t && InTree(x, t[x], root) && Drains(t, root, x)
    ensures t[root].status == Running
  {
    var h :| h in t && InTree(h, t[h], root) && t[h].worker.Some?;
    assert RowOk(t[h]);
    assert Live(t[h]) && InTree(h, t[h], root);
    assert Compat(t[root].status, t[h].status);
  }

  /** After a cancel, what is still live in the tree drains, and so does everything above it. */
  lemma CancelLive(t: Table, root: Id, x: Id)
    requires Cancellable(t, root) && x in t && InTree(x, t[x], root) && !Terminal(CancelStatus(t, root, x))
    ensures t[x].status == Running && CancelStatus(t, root, x) == Cancelling && Drains(t, root, x)
    ensures forall i {:trigger t[x].stack[i]} :: 0 <= i < |t[x].stack| ==>
      CancelStatus(t, root, t[x].stack[i]) == Cancelling
  {
    assert Compat(t[RootOf(x, t[x])].status, t[x].status);
    DrainsRunning(t, root, x);
    forall i {:trigger t[x].stack[i]} | 0 <= i < |t[x].stack|
      ensures CancelStatus(t, root, t[x].stack[i]) == Cancelling
    {
      var a := t[x].stack[i];
      assert EdgeOk(t, x, i);
      RootThrough(t, x, a);
      AboveHeldUp(t, root, x, a);
      assert Compat(t[RootOf(a, t[a])].status, t[a].status);
    }
  }

  lemma CancelPath(t: Table, root: Id, t': Table)
    requires Cancellable(t, root) && CancelledTo(t, root, t')
    ensures Linked(t') && PathOk(t')
  {
    StatusOnlyLinks(t, t');
    forall x, i | x in t' && Live(t'[x]) && 0 <= i < |t'[x].stack|
      ensures EdgeOk(t', x, i)
    {
      CancelEdge(t, root, t', x, i);
    }
  }

  lemma CancelEdge(t: Table, root: Id, t': Table, x: Id, i: nat)
    requires Cancellable(t, root) && CancelledTo(t, root, t') && Linked(t')
    requires x in t && Live(t'[x]) && i < |t[x].stack|
    ensures x in t' && t'[x].stack == t[x].stack && EdgeOk(t', x, i)
  {
    assert t'[x].stack == t[x].stack;
    var a := t[x].stack[i];
    assert t'[a].status == CancelStatus(t, root, a);
    RootThrough(t, x, a);
    if InTree(x, t[x], root) {
      CancelLive(t, root, x);
    }
    assert EdgeOk(t, x, i);
    if 0 < i {
      RootThrough(t, x, t[x].stack[i - 1]);
      assert t'[t[x].stack[i - 1]].status == CancelStatus(t, root, t[x].stack[i - 1]);
    }
    StatusOnlyEdge(t, t', x, i);
  }

  lemma CancelFedIn(t: Table, root: Id, q: Id) returns (d: Id)
    requires Cancellable(t, root) && q in t && InTree(q, t[q], root)
    requires t[q].phase == Children && !Terminal(CancelStatus(t, root, q))
    ensures d in t && ParentOf(t[d]) == Some(q) && CancelStatus(t, root, d) == Cancelling
  {
    CancelLive(t, root, q);
    assert RowOk(t[q]);
    d := DrainsDown(t, root, q);
    assert Compat(t[RootOf(d, t[d])].status, t[d].status);
  }

  lemma CancelFedAt(t: Table, root: Id, t': Table, q: Id)
    requires Cancellable(t, root) && CancelledTo(t, root, t') && q in t
    ensures FedAt(t', q)
  {
    assert t'[q] == t[q].(status := CancelStatus(t, root, q));
    if t[q].phase == Children && !Terminal(CancelStatus(t, root, q)) {
      var d;
      if InTree(q, t[q], root) {
        d := CancelFedIn(t, root, q);
      } else {
        assert FedAt(t, q);
        d := FedChild(t, q);
        RootThrough(t, d, q);
      }
      assert t'[d].status == CancelStatus(t, root, d);
      FedFrom(t, t', q, d);
    }
  }

  lemma CancelMode(t: Table, root: Id, t': Table)
    requires Cancellable(t, root) && CancelledTo(t, root, t') && Linked(t')
    ensures ModeOk(t')
  {
    forall x | x in t' && Live(t'[x])
      ensures Compat(t'[RootOf(x, t'[x])].status, t'[x].status)
    {
      assert t'[x].stack == t[x].stack;
      if InTree(x, t[x], root) {
        CancelLive(t, root, x);
      } else {
        assert Compat(t[RootOf(x, t[x])].status, t[x].status);
      }
    }
  }

  lemma CancelFailUp(t: Table, root: Id, t': Table)
    requires Cancellable(t, root) && CancelledTo(t, root, t') && Linked(t')
    ensures FailUp(t')
  {
    forall x | x in t' && t'[x].status == Failing
      ensures t'[x].phase == Children
      ensures t'[x].stack != [] ==> t'[t'[x].stack[|t'[x].stack| - 1]].status == Failing
    {
      assert t'[x] == t[x];
      if t[x].stack != [] {
        var p := t[x].stack[|t[x].stack| - 1];
        assert t[p].status == Failing;
        assert t'[p].status == CancelStatus(t, root, p);
      }
    }
  }

  /** CancelTree keeps the tree. */
  lemma CancelKeeps(t: Table, root: Id)
    requires Cancellable(t, root)
    ensures Inv(CancelTree(t, root))
  {
    var t' := CancelTree(t, root);
    CancelPath(t, root, t');
    CancelMode(t, root, t');
    CancelFailUp(t, root, t');
    forall q | q in t'
      ensures FedAt(t', q)
    {
      CancelFedAt(t, root, t', q);
    }
    StatusOnlyHeld(t, t');
  }

  lemma CancelNoop(t: Table, root: Id)
    requires forall x {:trigger t[x].status} ::
      x in t && InTree(x, t[x], root) ==> !t[x].status.Running? && !t[x].status.Paused?
    ensures CancelTree(t, root) == t
  {
  }

  // ------------------------------------------------------------------------------------------
  // Resuming
  // ------------------------------------------------------------------------------------------

  ghost predicate ResumedTo(t: Table, root: Id, t': Table) {
    StatusOnly(t, t') && forall x {:trigger t'[x]} :: x in t ==> t'[x].status == ResumeStatus(root, x, t[x])
  }

  ghost predicate Resumable(t: Table, root: Id) {
    Inv(t) && root in t && t[root].stack == [] && t[root].status == Paused
  }

  /** A failed row above a live one has only failing and failed rows above it. */
  lemma DoomedAbove(t: Table, e: Option<Id>, x: Id, i: nat, j: nat)
    requires InvExcept(t, e) && x in t && Live(t[x]) && j <= i < |t[x].stack| && t[t[x].stack[i]].status == Failed
    ensures Doomed(t[t[x].stack[j]].status)
    decreases i - j
  {
    if j < i {
      DoomedAbove(t, e, x, i, j + 1);
      assert EdgeOk(t, x, j + 1);
      var b := t[x].stack[j + 1];
      assert t[b].stack == t[x].stack[..j + 1];
      if t[b].status == Failing {
        assert t[b].stack[j] == t[x].stack[j];
      }
    }
  }

  lemma ResumeEdge(t: Table, root: Id, t': Table, x: Id, i: nat)
    requires Resumable(t, root) && ResumedTo(t, root, t') && Linked(t')
    requires x in t && Live(t[x]) && i < |t[x].stack|
    ensures x in t' && t'[x].stack == t[x].stack && EdgeOk(t', x, i)
  {
    assert t'[x].stack == t[x].stack;
    var a := t[x].stack[i];
    assert t'[a].status == ResumeStatus(root, a, t[a]);
    RootThrough(t, x, a);
    assert EdgeOk(t, x, i);
    if InTree(x, t[x], root) {
      if t[a].status == Failed {
        DoomedAbove(t, None, x, i, 0);
      } else {
        assert Compat(t[RootOf(a, t[a])].status, t[a].status);
      }
    }
    if 0 < i {
      assert t'[t[x].stack[i - 1]].status == ResumeStatus(root, t[x].stack[i - 1], t[t[x].stack[i - 1]]);
    }
    StatusOnlyEdge(t, t', x, i);
  }

  lemma ResumeFedAt(t: Table, root: Id, t': Table, q: Id)
    requires Resumable(t, root) && ResumedTo(t, root, t') && q in t
    ensures FedAt(t', q)
  {
    assert t'[q] == t[q].(status := ResumeStatus(root, q, t[q]));
    if t[q].phase == Children && Live(t[q]) {
      assert FedAt(t, q);
      var d := FedChild(t, q);
      RootThrough(t, d, q);
      assert Compat(t[RootOf(d, t[d])].status, t[d].status);
      assert t'[d].status == ResumeStatus(root, d, t[d]);
      FedFrom(t, t', q, d);
    }
  }

  /** Resuming a paused tree keeps the tree: everything live in it runs again. */
  lemma ResumeKeeps(t: Table, root: Id)
    requires Resumable(t, root)
    ensures Inv(ResumePaused(t, root))
  {
    var t' := ResumePaused(t, root);
    StatusOnlyLinks(t, t');
    assert PathOk(t') by {
      forall x, i | x in t' && Live(t'[x]) && 0 <= i < |t'[x].stack|
        ensures EdgeOk(t', x, i)
      {
        ResumeEdge(t, root, t', x, i);
      }
    }
    forall q | q in t'
      ensures FedAt(t', q)
    {
      ResumeFedAt(t, root, t', q);
    }
    ResumeRest(t, root, t');
  }

  lemma ResumeRest(t: Table, root: Id, t': Table)
    requires Resumable(t, root) && ResumedTo(t, root, t') && Linked(t')
    ensures ModeOk(t') && FailUp(t') && RowsOk(t')
  {
    forall x | x in t'
      ensures Live(t'[x]) ==> Compat(t'[RootOf(x, t'[x])].status, t'[x].status)
      ensures RowOk(t'[x])
    {
      assert t'[x] == t[x].(status := ResumeStatus(root, x, t[x]));
      assert Live(t[x]) ==> Compat(t[RootOf(x, t[x])].status, t[x].status);
      assert RowOk(t[x]);
      var r := RootOf(x, t[x]);
      assert t'[r].status == ResumeStatus(root, r, t[r]);
    }
    forall x | x in t' && t'[x].status == Failing
      ensures t'[x].phase == Children
      ensures t'[x].stack != [] ==> t'[t'[x].stack[|t'[x].stack| - 1]].status == Failing
    {
      assert t'[x] == t[x];
      if t[x].stack != [] {
        var p := t[x].stack[|t[x].stack| - 1];
        assert t[p].status == Failing && t'[p].status == ResumeStatus(root, p, t[p]);
      }
    }
  }
}
