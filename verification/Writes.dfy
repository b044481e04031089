/**
 Writes to one held row, and the spawn that puts a batch of children under it.
 */
module Writes {
  import opened Wrappers
  import opened Statuses
  import opened Tree
  import opened Statements
  import opened Settle
  import opened Verbs

  /** Where a row sits never changes. */
  predicate SamePlace(r: Row, row: Row) {
    row.stack == r.stack && row.spawnTask == r.spawnTask && row.parentEpoch == r.parentEpoch
  }

  /** The status changes a single-row write makes: none, a conclusion, or a pause landing. */
  predicate StatusStep(s: Status, s': Status) {
    s' == s || Terminal(s') || (s.Pausing? && s'.Paused?)
  }

  lemma RowWritePath(t: Table, c: Id, row: Row)
    requires Inv(t) && c in t && Live(t[c]) && t[c].phase != Children
    requires SamePlace(t[c], row) && StatusStep(t[c].status, row.status)
    ensures Linked(t[c := row]) && PathOk(t[c := row])
  {
    SameLinks(t, c, row);
    var t' := t[c := row];
    forall x, i | x in t' && Live(t'[x]) && 0 <= i < |t'[x].stack|
      ensures EdgeOk(t', x, i)
    {
      NotOnPath(t, None, c, x);
      assert EdgeOk(t, x, i);
    }
  }

  lemma RowWriteMode(t: Table, c: Id, row: Row)
    requires Inv(t) && c in t && Live(t[c]) && t[c].phase != Children
    requires SamePlace(t[c], row) && StatusStep(t[c].status, row.status)
    ensures Linked(t[c := row]) && ModeOk(t[c := row])
  {
    SameLinks(t, c, row);
    var t' := t[c := row];
    forall x | x in t' && Live(t'[x])
      ensures Compat(t'[RootOf(x, t'[x])].status, t'[x].status)
    {
      NotOnPath(t, None, c, x);
      assert Compat(t[RootOf(x, t[x])].status, t[x].status);
    }
  }

  lemma RowWriteFailUp(t: Table, c: Id, row: Row)
    requires Inv(t) && c in t && Live(t[c]) && t[c].phase != Children
    requires SamePlace(t[c], row) && StatusStep(t[c].status, row.status)
    ensures Linked(t[c := row]) && FailUp(t[c := row])
  {
    SameLinks(t, c, row);
    var t' := t[c := row];
    forall x | x in t' && t'[x].status == Failing
      ensures t'[x].phase == Children
      ensures t'[x].stack != [] ==> t'[t'[x].stack[|t'[x].stack| - 1]].status == Failing
    {
      assert x != c && t[x].status == Failing;
      NotOnPath(t, None, c, x);
    }
  }

  /** A write to a live row that waits on no children keeps the tree, and leaves at most its
      parent to be settled. */
  lemma RowWriteKeeps(t: Table, c: Id, row: Row)
    requires Inv(t) && c in t && Live(t[c]) && t[c].phase != Children
    requires SamePlace(t[c], row) && StatusStep(t[c].status, row.status)
    requires RowOk(row) && (Live(row) ==> row.phase != Children)
    ensures InvExcept(t[c := row], if row.status == t[c].status then None else ParentOf(t[c]))
  {
    RowWritePath(t, c, row);
    RowWriteMode(t, c, row);
    RowWriteFailUp(t, c, row);
    SettleHeld(t, c, row);
    var t' := t[c := row];
    forall q | q in t' && (row.status != t[c].status ==> Some(q) != ParentOf(t[c]))
      ensures FedAt(t', q)
    {
      if q != c {
        assert FedAt(t, q);
        StillFed(t, c, row, q);
      }
    }
  }

  // ------------------------------------------------------------------------------------------
  // Spawning
  // ------------------------------------------------------------------------------------------

  function NewChild(t: Table, c: Id, task: TaskId, epoch: nat): (n: Row)
    requires c in t
  {
    Row(t[c].stack + [c], task, epoch, t[c].status, NoPhase, NO_TASK + 1, 0, None, 0, false)
  }

  /** The batch `ids` under `c`, the rows it replaces retired, and `c` parked on `children`. */
  function SpawnRows(t: Table, c: Id, task: TaskId, epoch: nat, ids: set<Id>, retired: set<Id>): (t': Table)
    requires c in t
  {
    map x | x in t.Keys + ids ::
      if x in ids then NewChild(t, c, task, epoch)
      else if x == c then UpdateRow(t[c], task, epoch, t[c].status, Children)
      else if x in retired then t[x].(superseded := true)
      else t[x]
  }

  /** What a spawn needs: a held row waiting on nothing, fresh ids, and only raised rows retired. */
  ghost predicate SpawnReady(t: Table, c: Id, task: TaskId, ids: set<Id>, retired: set<Id>) {
    && Inv(t) && c in t && t[c].worker.Some? && task != NO_TASK && ids != {} && ids !! t.Keys
    && (forall x :: x in retired ==> x in t && t[x].status == Raised)
  }

  lemma SpawnLinks(t: Table, c: Id, task: TaskId, epoch: nat, ids: set<Id>, retired: set<Id>)
    requires SpawnReady(t, c, task, ids, retired)
    ensures Linked(SpawnRows(t, c, task, epoch, ids, retired))
  {
    var t' := SpawnRows(t, c, task, epoch, ids, retired);
    forall x, i | x in t' && 0 <= i < |t'[x].stack|
      ensures t'[x].stack[i] in t' && t'[t'[x].stack[i]].stack == t'[x].stack[..i]
    {
      if x in ids {
        assert i < |t[c].stack| ==> t'[x].stack[i] == t[c].stack[i] && t[c].stack[..i] == t'[x].stack[..i];
        assert i == |t[c].stack| ==> t'[x].stack[i] == c && t'[x].stack[..i] == t[c].stack;
      } else {
        assert t'[x].stack == t[x].stack;
      }
    }
  }

  lemma SpawnNewEdge(t: Table, c: Id, task: TaskId, epoch: nat, ids: set<Id>, retired: set<Id>, x: Id, i: nat)
    requires SpawnReady(t, c, task, ids, retired) && x in ids && i < |t[c].stack| + 1
    requires Linked(SpawnRows(t, c, task, epoch, ids, retired))
    ensures EdgeOk(SpawnRows(t, c, task, epoch, ids, retired), x, i)
  {
    var t' := SpawnRows(t, c, task, epoch, ids, retired);
    assert RowOk(t[c]);
    var a := t'[x].stack[i];
    if i < |t[c].stack| {
      assert EdgeOk(t, c, i);
      assert a == t[c].stack[i] && a !in retired && a !in ids;
      NotOnPath(t, None, c, c);
      assert t'[a] == t[a];
      assert NextOn(t', x, i) == NextOn(t, c, i);
      assert 0 < i ==> t'[x].stack[i - 1] == t[c].stack[i - 1];
    } else {
      assert a == c && NextOn(t', x, i) == x;
    }
  }

  lemma SpawnOldEdge(t: Table, c: Id, task: TaskId, epoch: nat, ids: set<Id>, retired: set<Id>, x: Id, i: nat)
    requires SpawnReady(t, c, task, ids, retired) && x in t && Live(t[x]) && i < |t[x].stack|
    requires Linked(SpawnRows(t, c, task, epoch, ids, retired))
    ensures EdgeOk(SpawnRows(t, c, task, epoch, ids, retired), x, i)
  {
    var t' := SpawnRows(t, c, task, epoch, ids, retired);
    assert RowOk(t[c]);
    NotOnPath(t, None, c, x);
    assert EdgeOk(t, x, i);
    var a := t[x].stack[i];
    assert t'[a] == t[a];
    assert SamePlace(t[NextOn(t, x, i)], t'[NextOn(t, x, i)]);
    assert NextOn(t', x, i) == NextOn(t, x, i);
  }

  lemma SpawnPath(t: Table, c: Id, task: TaskId, epoch: nat, ids: set<Id>, retired: set<Id>)
    requires SpawnReady(t, c, task, ids, retired)
    requires Linked(SpawnRows(t, c, task, epoch, ids, retired))
    ensures PathOk(SpawnRows(t, c, task, epoch, ids, retired))
  {
    var t' := SpawnRows(t, c, task, epoch, ids, retired);
    assert RowOk(t[c]);
    forall x, i | x in t' && Live(t'[x]) && 0 <= i < |t'[x].stack|
      ensures EdgeOk(t', x, i)
    {
      if x in ids {
        SpawnNewEdge(t, c, task, epoch, ids, retired, x, i);
      } else {
        SpawnOldEdge(t, c, task, epoch, ids, retired, x, i);
      }
    }
  }

  lemma SpawnFedAt(t: Table, c: Id, task: TaskId, epoch: nat, ids: set<Id>, retired: set<Id>, q: Id)
    requires SpawnReady(t, c, task, ids, retired) && q in t && q != c
    ensures FedAt(SpawnRows(t, c, task, epoch, ids, retired), q)
  {
    var t' := SpawnRows(t, c, task, epoch, ids, retired);
    assert RowOk(t[c]);
    assert FedAt(t, q);
    if t[q].phase == Children && Live(t[q]) {
      var d := FedChild(t, q);
      assert t'[d].status == t[d].status && ParentOf(t'[d]) == Some(q);
    }
  }

  lemma SpawnFed(t: Table, c: Id, task: TaskId, epoch: nat, ids: set<Id>, retired: set<Id>)
    requires SpawnReady(t, c, task, ids, retired)
    ensures Fed(SpawnRows(t, c, task, epoch, ids, retired), None)
  {
    var t' := SpawnRows(t, c, task, epoch, ids, retired);
    assert RowOk(t[c]);
    forall q | q in t'
      ensures FedAt(t', q)
    {
      if q == c {
        var n :| n in ids;
        assert Busy(t'[n].status) && ParentOf(t'[n]) == Some(c);
      } else if q !in ids {
        SpawnFedAt(t, c, task, epoch, ids, retired, q);
      }
    }
  }

  /** Spawning, and respawning raised slots, keeps the tree. */
  lemma SpawnKeeps(t: Table, c: Id, task: TaskId, epoch: nat, ids: set<Id>, retired: set<Id>)
    requires SpawnReady(t, c, task, ids, retired)
    ensures Inv(SpawnRows(t, c, task, epoch, ids, retired))
  {
    var t' := SpawnRows(t, c, task, epoch, ids, retired);
    assert RowOk(t[c]);
    SpawnLinks(t, c, task, epoch, ids, retired);
    SpawnPath(t, c, task, epoch, ids, retired);
    SpawnFed(t, c, task, epoch, ids, retired);
    SpawnMode(t, c, task, epoch, ids, retired);
    assert FailUp(t');
  }

  lemma SpawnMode(t: Table, c: Id, task: TaskId, epoch: nat, ids: set<Id>, retired: set<Id>)
    requires SpawnReady(t, c, task, ids, retired) && Linked(SpawnRows(t, c, task, epoch, ids, retired))
    ensures ModeOk(SpawnRows(t, c, task, epoch, ids, retired)) && RowsOk(SpawnRows(t, c, task, epoch, ids, retired))
  {
    var t' := SpawnRows(t, c, task, epoch, ids, retired);
    assert RowOk(t[c]);
    forall x | x in t'
      ensures RowOk(t'[x]) && (Live(t'[x]) ==> Compat(t'[RootOf(x, t'[x])].status, t'[x].status))
    {
      assert x in t ==> RowOk(t[x]) && (Live(t[x]) ==> Compat(t[RootOf(x, t[x])].status, t[x].status));
      assert Compat(t[RootOf(c, t[c])].status, t[c].status);
    }
  }
}
