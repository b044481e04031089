/**
 Retry revives a failed tree in place.  The walk goes down from the root over failed rows in
 the current batch of a revived one; everything else is kept, and what the failure paused runs
 again.
 */
module Revive {
  import opened Wrappers
  import opened Statuses
  import opened Tree
  import opened Statements
  import opened Settle
  import opened Verbs
  import opened Stops

  /** The current batch of `x`, retired attempts aside. */
  predicate IsKid(t: Table, x: Id, k: Id)
    requires x in t && k in t
  {
    t[x].task != NO_TASK && InBatch(t[k], x, t[x].task, t[x].taskEpoch) && !t[k].superseded
  }

  predicate HasBatch(t: Table, x: Id)
    requires x in t
  {
    exists k {:trigger t[k].superseded} :: k in t && IsKid(t, x, k)
  }

  /** A kid that still has work to do once the walk is over: a failed one is revived with it. */
  predicate HasUnfinishedKid(t: Table, x: Id)
    requires x in t
  {
    exists k {:trigger t[k].superseded} :: k in t && IsKid(t, x, k) && (Live(t[k]) || t[k].status == Failed)
  }

  function RevivedPhase(t: Table, x: Id): (phase: Phase)
    requires x in t
  {
    if HasUnfinishedKid(t, x) then Children else if HasBatch(t, x) then Collecting else NoPhase
  }

  function RevivedRow(t: Table, x: Id): (r: Row)
    requires x in t
  {
    t[x].(status := Running,
          phase := RevivedPhase(t, x),
          taskEpoch := if HasBatch(t, x) then t[x].taskEpoch else t[x].taskEpoch + 1,
          worker := None)
  }

  /** The ancestor of `x` at depth `i` failed, and the row below it is in its current batch. */
  predicate ReachedAt(t: Table, x: Id, i: nat)
    requires x in t && i < |t[x].stack|
  {
    var a := t[x].stack[i];
    var b := if i + 1 < |t[x].stack| then t[x].stack[i + 1] else x;
    a in t && b in t && t[a].status == Failed && IsKid(t, a, b)
  }

  /** The walk reaches `x`: it and every row above it failed, each in the batch of the one above. */
  predicate Reached(t: Table, x: Id)
    requires x in t
  {
    && t[x].status == Failed
    && forall i {:trigger ReachedAt(t, x, i)} :: 0 <= i < |t[x].stack| ==> ReachedAt(t, x, i)
  }

  /** The row a retry of `root` leaves for `x`. */
  function RetryRow(t: Table, root: Id, x: Id): (r: Row)
    requires x in t
  {
    if !InTree(x, t[x], root) then t[x]
    else if Reached(t, x) then RevivedRow(t, x)
    else if t[x].status == Paused then t[x].(status := Running)
    else t[x]
  }

  /** The walk would re-enter an only_once task from the top. */
  predicate Refused(t: Table, root: Id, onlyOnce: set<Id>) {
    exists x {:trigger Reached(t, x)} ::
      x in t && InTree(x, t[x], root) && Reached(t, x) && t[x].task != NO_TASK && !HasBatch(t, x) && x in onlyOnce
  }

  /** The whole transaction; `onlyOnce` are the rows standing on an only_once task, and None is
      the conflict that a forced retry never raises. */
  function RetryTable(t: Table, root: Id, force: bool, onlyOnce: set<Id>): (res: Option<Table>) {
    if !force && Refused(t, root, onlyOnce) then None
    else Some(map x | x in t :: RetryRow(t, root, x))
  }

  // ------------------------------------------------------------------------------------------
  // The revived tree is well-formed
  // ------------------------------------------------------------------------------------------

  ghost predicate RetriedTo(t: Table, root: Id, t': Table) {
    t'.Keys == t.Keys && forall x {:trigger t'[x]} :: x in t ==> t'[x] == RetryRow(t, root, x)
  }

  ghost predicate Retryable(t: Table, root: Id) {
    Inv(t) && root in t && t[root].stack == [] && t[root].status == Failed
  }

  /** Under a failed root every live row is paused. */
  lemma PausedUnderFailed(t: Table, root: Id, x: Id)
    requires Retryable(t, root) && x in t && Live(t[x]) && InTree(x, t[x], root)
    ensures t[x].status == Paused && !Reached(t, x)
  {
    assert Compat(t[RootOf(x, t[x])].status, t[x].status);
  }

  /** An edge of a live row's path makes the lower end a kid of the upper one. */
  lemma EdgeKid(t: Table, x: Id, i: nat)
    requires Inv(t) && x in t && Live(t[x]) && i < |t[x].stack|
    ensures var a := t[x].stack[i]; var b := NextOn(t, x, i);
      a in t && b in t && IsKid(t, a, b) && (Live(t[b]) || t[b].status == Failed)
  {
    assert EdgeOk(t, x, i);
    var a, b := t[x].stack[i], NextOn(t, x, i);
    if i + 1 < |t[x].stack| {
      assert EdgeOk(t, x, i + 1);
      assert t[b].stack == t[x].stack[..i + 1];
    }
    assert RowOk(t[b]);
  }

  /** Every failed row above a paused one is revived: the walk reaches it. */
  lemma FailedAboveReached(t: Table, root: Id, x: Id, i: nat)
    requires Retryable(t, root) && x in t && Live(t[x]) && InTree(x, t[x], root) && i < |t[x].stack|
    requires t[t[x].stack[i]].status == Failed
    ensures Reached(t, t[x].stack[i])
  {
    var a := t[x].stack[i];
    assert t[a].stack == t[x].stack[..i];
    forall j | 0 <= j < |t[a].stack|
      ensures ReachedAt(t, a, j)
    {
      DoomedAbove(t, None, x, i, j);
      EdgeKid(t, x, j);
      var c := t[a].stack[j];
      assert c == t[x].stack[j];
      RootThrough(t, x, c);
      assert Live(t[c]) ==> Compat(t[RootOf(c, t[c])].status, t[c].status);
    }
  }

  lemma ReachedPrefix(t: Table, x: Id, i: nat, j: nat)
    requires Linked(t) && x in t && Reached(t, x) && j < i < |t[x].stack|
    ensures j < |t[t[x].stack[i]].stack| && ReachedAt(t, t[x].stack[i], j)
  {
    var a := t[x].stack[i];
    assert t[a].stack == t[x].stack[..i];
    assert ReachedAt(t, x, j);
    assert t[a].stack[j] == t[x].stack[j];
  }

  /** Rows above a reached row are reached, and wait on it once revived. */
  lemma ReachedUp(t: Table, x: Id, i: nat)
    requires Linked(t) && x in t && Reached(t, x) && i < |t[x].stack|
    ensures t[x].stack[i] in t && NextOn(t, x, i) in t && Reached(t, t[x].stack[i])
    ensures IsKid(t, t[x].stack[i], NextOn(t, x, i)) && t[NextOn(t, x, i)].status == Failed
  {
    var a := t[x].stack[i];
    assert ReachedAt(t, x, i);
    assert t[a].stack == t[x].stack[..i];
    forall j | 0 <= j < |t[a].stack|
      ensures ReachedAt(t, a, j)
    {
      ReachedPrefix(t, x, i, j);
    }
    if i + 1 < |t[x].stack| {
      assert ReachedAt(t, x, i + 1);
    }
  }

  /** A failed kid of a reached row is reached. */
  lemma ReachedDown(t: Table, x: Id, k: Id)
    requires Linked(t) && x in t && k in t && Reached(t, x) && IsKid(t, x, k) && t[k].status == Failed
    ensures Reached(t, k)
  {
    assert t[k].stack[|t[k].stack| - 1] == x && t[x].stack == t[k].stack[..|t[k].stack| - 1];
    forall j | 0 <= j < |t[k].stack|
      ensures ReachedAt(t, k, j)
    {
      if j + 1 < |t[k].stack| {
        assert ReachedAt(t, x, j);
        assert t[k].stack[j] == t[x].stack[j];
      }
    }
  }

  lemma RetryLinks(t: Table, root: Id, t': Table)
    requires Linked(t) && RetriedTo(t, root, t')
    ensures Linked(t')
  {
    forall x, i | x in t' && 0 <= i < |t'[x].stack|
      ensures t'[x].stack[i] in t' && t'[t'[x].stack[i]].stack == t'[x].stack[..i]
    {
      assert t'[x].stack == t[x].stack;
      var a := t[x].stack[i];
      assert t'[a].stack == t[a].stack;
    }
  }

  /** What the retry makes of a row above one it runs: a running row that waits on its children. */
  lemma RetryAbove(t: Table, root: Id, x: Id, i: nat)
    requires Retryable(t, root) && x in t && InTree(x, t[x], root) && i < |t[x].stack|
    requires Live(t[x]) || Reached(t, x)
    ensures var a := t[x].stack[i]; var a' := RetryRow(t, root, a);
      && InTree(a, t[a], root) && a'.status == Running && a'.phase == Children
      && a'.task == t[a].task && a'.taskEpoch == t[a].taskEpoch
      && t[NextOn(t, x, i)].spawnTask == t[a].task && t[NextOn(t, x, i)].parentEpoch == t[a].taskEpoch
  {
    var a, b := t[x].stack[i], NextOn(t, x, i);
    RootThrough(t, x, a);
    if Reached(t, x) {
      ReachedUp(t, x, i);
      assert !t[b].superseded;
    } else {
      EdgeKid(t, x, i);
      assert EdgeOk(t, x, i);
      assert !t[b].superseded;
      if t[a].status == Failed {
        FailedAboveReached(t, root, x, i);
      } else {
        PausedUnderFailed(t, root, a);
      }
    }
  }

  lemma RetryEdgeRows(t: Table, root: Id, x: Id, i: nat, a: Id, b: Id)
    requires Retryable(t, root) && x in t && InTree(x, t[x], root) && i < |t[x].stack|
    requires Live(RetryRow(t, root, x)) && a == t[x].stack[i] && b == NextOn(t, x, i)
    ensures a in t && b in t && RetryRow(t, root, b).spawnTask == RetryRow(t, root, a).task
    ensures RetryRow(t, root, b).parentEpoch == RetryRow(t, root, a).taskEpoch
    ensures RetryRow(t, root, a).status == Running && RetryRow(t, root, a).phase == Children
  {
    RetryAbove(t, root, x, i);
  }

  lemma RetryEdgeIn(t: Table, root: Id, t': Table, x: Id, i: nat)
    requires Retryable(t, root) && RetriedTo(t, root, t') && Linked(t')
    requires x in t && InTree(x, t[x], root) && Live(t'[x]) && i < |t[x].stack|
    ensures t'[x].stack == t[x].stack && EdgeOk(t', x, i)
  {
    assert t'[x] == RetryRow(t, root, x);
    var a, b := t[x].stack[i], NextOn(t, x, i);
    RetryEdgeRows(t, root, x, i, a, b);
    assert t'[a] == RetryRow(t, root, a) && t'[b] == RetryRow(t, root, b);
    assert NextOn(t', x, i) == b;
  }

  lemma RetrySameAbove(t: Table, root: Id, t': Table, x: Id, j: nat)
    requires Linked(t) && RetriedTo(t, root, t') && x in t && !InTree(x, t[x], root) && j < |t[x].stack|
    ensures t'[t[x].stack[j]] == t[t[x].stack[j]]
  {
    RootThrough(t, x, t[x].stack[j]);
    assert t'[t[x].stack[j]] == RetryRow(t, root, t[x].stack[j]);
  }

  /** An edge reads four rows: the row, the one it goes to, the one next to it, the one above. */
  lemma EdgeFrame(t: Table, t': Table, x: Id, i: nat)
    requires Linked(t) && Linked(t') && x in t && x in t' && t'[x] == t[x] && i < |t[x].stack|
    requires t'[t[x].stack[i]] == t[t[x].stack[i]] && t'[NextOn(t, x, i)] == t[NextOn(t, x, i)]
    requires 0 < i ==> t'[t[x].stack[i - 1]] == t[t[x].stack[i - 1]]
    requires EdgeOk(t, x, i)
    ensures EdgeOk(t', x, i)
  {
  }

  lemma RetryEdgeOut(t: Table, root: Id, t': Table, x: Id, i: nat)
    requires Inv(t) && RetriedTo(t, root, t') && Linked(t')
    requires x in t && !InTree(x, t[x], root) && Live(t'[x]) && i < |t[x].stack|
    ensures t'[x].stack == t[x].stack && EdgeOk(t', x, i)
  {
    assert t'[x] == t[x];
    assert EdgeOk(t, x, i);
    RetrySameAbove(t, root, t', x, i);
    if 0 < i {
      RetrySameAbove(t, root, t', x, i - 1);
    }
    if i + 1 < |t[x].stack| {
      RetrySameAbove(t, root, t', x, i + 1);
    }
    EdgeFrame(t, t', x, i);
  }

  lemma RetryFedAt(t: Table, root: Id, t': Table, q: Id)
    requires Retryable(t, root) && RetriedTo(t, root, t') && q in t
    ensures FedAt(t', q)
  {
    var q' := RetryRow(t, root, q);
    if q'.phase == Children && Live(q') {
      var d := RetryChild(t, root, q);
      FedBy(t, root, t', q, d);
    } else {
      NothingToFeed(t, root, t', q);
    }
  }

  lemma FedBy(t: Table, root: Id, t': Table, q: Id, d: Id)
    requires RetriedTo(t, root, t') && q in t && d in t && ParentOf(RetryRow(t, root, d)) == Some(q)
    requires Live(RetryRow(t, root, d)) && (Busy(RetryRow(t, root, q).status) ==> Busy(RetryRow(t, root, d).status))
    ensures FedAt(t', q)
  {
    assert t'[q] == RetryRow(t, root, q) && t'[d] == RetryRow(t, root, d);
  }

  lemma NothingToFeed(t: Table, root: Id, t': Table, q: Id)
    requires RetriedTo(t, root, t') && q in t && !(RetryRow(t, root, q).phase == Children && Live(RetryRow(t, root, q)))
    ensures FedAt(t', q)
  {
    assert t'[q] == RetryRow(t, root, q);
  }

  lemma RetryChild(t: Table, root: Id, q: Id) returns (d: Id)
    requires Retryable(t, root) && q in t
    requires var q' := RetryRow(t, root, q); q'.phase == Children && Live(q')
    ensures d in t && ParentOf(RetryRow(t, root, d)) == Some(q) && Live(RetryRow(t, root, d))
    ensures Busy(RetryRow(t, root, q).status) ==> Busy(RetryRow(t, root, d).status)
  {
    if InTree(q, t[q], root) && Reached(t, q) {
      assert HasUnfinishedKid(t, q);
      d :| d in t && IsKid(t, q, d) && (Live(t[d]) || t[d].status == Failed);
      RootThrough(t, d, q);
      if Live(t[d]) {
        PausedUnderFailed(t, root, d);
      } else {
        ReachedDown(t, q, d);
      }
    } else {
      assert FedAt(t, q);
      d := FedChild(t, q);
      RootThrough(t, d, q);
      if InTree(q, t[q], root) {
        PausedUnderFailed(t, root, d);
      }
    }
  }

  lemma RetryMode(t: Table, root: Id, t': Table, x: Id)
    requires Retryable(t, root) && RetriedTo(t, root, t') && Linked(t') && x in t' && t'[root].status == Running
    ensures Live(t'[x]) ==> Compat(t'[RootOf(x, t'[x])].status, t'[x].status)
    ensures RowOk(t'[x])
  {
    assert t'[x] == RetryRow(t, root, x);
    assert RowOk(t[x]);
    var r := RootOf(x, t[x]);
    assert t'[r] == RetryRow(t, root, r);
    if Live(t[x]) {
      assert Compat(t[r].status, t[x].status);
      if InTree(x, t[x], root) {
        PausedUnderFailed(t, root, x);
      }
    }
  }

  lemma RetryFailing(t: Table, root: Id, x: Id)
    requires x in t && RetryRow(t, root, x).status == Failing
    ensures RetryRow(t, root, x) == t[x]
  {
  }

  lemma RetryFailUp(t: Table, root: Id, t': Table, x: Id)
    requires Retryable(t, root) && RetriedTo(t, root, t') && x in t' && t'[x].status == Failing
    ensures t'[x].phase == Children
    ensures t'[x].stack != [] ==> t'[t'[x].stack[|t'[x].stack| - 1]].status == Failing
  {
    assert t'[x] == RetryRow(t, root, x);
    RetryFailing(t, root, x);
    FailingOutside(t, root, x);
    if t[x].stack != [] {
      OutsideKept(t, root, t', t[x].stack[|t[x].stack| - 1]);
    }
  }

  lemma OutsideKept(t: Table, root: Id, t': Table, x: Id)
    requires RetriedTo(t, root, t') && x in t && !InTree(x, t[x], root)
    ensures t'[x] == t[x]
  {
    assert t'[x] == RetryRow(t, root, x);
  }

  /** No failing row is in a failed root's tree, and its parent is failing and outside it too. */
  lemma FailingOutside(t: Table, root: Id, x: Id)
    requires Retryable(t, root) && x in t && t[x].status == Failing
    ensures !InTree(x, t[x], root) && t[x].phase == Children
    ensures t[x].stack != [] ==>
      var p := t[x].stack[|t[x].stack| - 1]; p in t && t[p].status == Failing && !InTree(p, t[p], root)
  {
    assert Compat(t[RootOf(x, t[x])].status, t[x].status);
    if t[x].stack != [] {
      RootThrough(t, x, t[x].stack[|t[x].stack| - 1]);
    }
  }

  lemma RetryRest(t: Table, root: Id, t': Table)
    requires Retryable(t, root) && RetriedTo(t, root, t') && Linked(t')
    ensures ModeOk(t') && RowsOk(t') && FailUp(t')
  {
    assert Reached(t, root);
    assert t'[root].status == Running;
    forall x | x in t'
      ensures Live(t'[x]) ==> Compat(t'[RootOf(x, t'[x])].status, t'[x].status)
      ensures RowOk(t'[x])
    {
      RetryMode(t, root, t', x);
    }
    forall x | x in t' && t'[x].status == Failing
      ensures t'[x].phase == Children
      ensures t'[x].stack != [] ==> t'[t'[x].stack[|t'[x].stack| - 1]].status == Failing
    {
      RetryFailUp(t, root, t', x);
    }
  }

  /** A retry of a failed root rebuilds a tree that keeps the invariant, root running. */
  lemma RetryKeeps(t: Table, root: Id, force: bool, onlyOnce: set<Id>)
    requires Retryable(t, root) && RetryTable(t, root, force, onlyOnce).Some?
    ensures Inv(RetryTable(t, root, force, onlyOnce).value)
    ensures RetryTable(t, root, force, onlyOnce).value[root].status == Running
  {
    var t' := RetryTable(t, root, force, onlyOnce).value;
    assert RetriedTo(t, root, t');
    assert Reached(t, root);
    RetryLinks(t, root, t');
    assert PathOk(t') by {
      forall x, i | x in t' && Live(t'[x]) && 0 <= i < |t'[x].stack|
        ensures EdgeOk(t', x, i)
      {
        if InTree(x, t[x], root) {
          RetryEdgeIn(t, root, t', x, i);
        } else {
          RetryEdgeOut(t, root, t', x, i);
        }
      }
    }
    forall q | q in t'
      ensures FedAt(t', q)
    {
      RetryFedAt(t, root, t', q);
    }
    RetryRest(t, root, t');
  }

  // ------------------------------------------------------------------------------------------
  // What a retry promises
  // ------------------------------------------------------------------------------------------

  /** Settled work is kept; so is every other tree. */
  lemma RetryUntouched(t: Table, root: Id, x: Id)
    requires x in t
    requires !InTree(x, t[x], root) || t[x].status.Completed? || t[x].status.Raised? || t[x].status.Cancelled?
    ensures RetryRow(t, root, x) == t[x]
  {
  }

  /** A kid of a revived row is unfinished after the retry exactly when it was failed or live. */
  lemma KidAfter(t: Table, root: Id, x: Id, k: Id)
    requires Retryable(t, root) && x in t && InTree(x, t[x], root) && Reached(t, x) && k in t && IsKid(t, x, k)
    ensures Live(RetryRow(t, root, k)) <==> Live(t[k]) || t[k].status == Failed
  {
    RootThrough(t, k, x);
    if t[k].status == Failed {
      ReachedDown(t, x, k);
    }
  }

  /** Some row of the batch `(x, task, epoch)`, retired attempts aside, is unfinished. */
  ghost predicate BatchUnfinished(t: Table, x: Id, task: TaskId, epoch: nat) {
    exists k {:trigger t[k].superseded} ::
      k in t && task != NO_TASK && InBatch(t[k], x, task, epoch) && !t[k].superseded && Live(t[k])
  }

  lemma KidsAfter(t: Table, root: Id, t': Table, x: Id)
    requires Retryable(t, root) && RetriedTo(t, root, t') && x in t && InTree(x, t[x], root) && Reached(t, x)
    ensures BatchUnfinished(t', x, t[x].task, t[x].taskEpoch) <==> HasUnfinishedKid(t, x)
  {
    if HasUnfinishedKid(t, x) {
      UnfinishedAfter(t, root, t', x);
    }
    if BatchUnfinished(t', x, t[x].task, t[x].taskEpoch) {
      UnfinishedBefore(t, root, t', x);
    }
  }

  /** A row of the batch is unfinished after the retry exactly when it was, or had failed. */
  lemma BatchRow(t: Table, root: Id, x: Id, k: Id)
    requires Retryable(t, root) && x in t && InTree(x, t[x], root) && Reached(t, x) && k in t
    ensures var r := RetryRow(t, root, k);
      (t[x].task != NO_TASK && InBatch(r, x, t[x].task, t[x].taskEpoch) && !r.superseded && Live(r))
      <==> IsKid(t, x, k) && (Live(t[k]) || t[k].status == Failed)
  {
    if IsKid(t, x, k) {
      KidAfter(t, root, x, k);
    }
  }

  lemma UnfinishedAfter(t: Table, root: Id, t': Table, x: Id)
    requires Retryable(t, root) && RetriedTo(t, root, t') && x in t && InTree(x, t[x], root) && Reached(t, x)
    requires HasUnfinishedKid(t, x)
    ensures BatchUnfinished(t', x, t[x].task, t[x].taskEpoch)
  {
    var k :| k in t && IsKid(t, x, k) && (Live(t[k]) || t[k].status == Failed);
    BatchRow(t, root, x, k);
    assert t'[k] == RetryRow(t, root, k);
    assert !t'[k].superseded;
  }

  lemma UnfinishedBefore(t: Table, root: Id, t': Table, x: Id)
    requires Retryable(t, root) && RetriedTo(t, root, t') && x in t && InTree(x, t[x], root) && Reached(t, x)
    requires BatchUnfinished(t', x, t[x].task, t[x].taskEpoch)
    ensures HasUnfinishedKid(t, x)
  {
    var k :| k in t' && t[x].task != NO_TASK && InBatch(t'[k], x, t[x].task, t[x].taskEpoch) &&
      !t'[k].superseded && Live(t'[k]);
    assert t'[k] == RetryRow(t, root, k);
    BatchRow(t, root, x, k);
    assert !t[k].superseded;
  }

  /** The phase and epoch of every revived row, told by the batch it is left with. */
  lemma RetryPhases(t: Table, root: Id, force: bool, onlyOnce: set<Id>, x: Id)
    requires Retryable(t, root) && RetryTable(t, root, force, onlyOnce).Some?
    requires x in t && InTree(x, t[x], root) && Reached(t, x)
    ensures var t' := RetryTable(t, root, force, onlyOnce).value;
      && t'[x].status == Running && t'[x].task == t[x].task
      && (t'[x].phase == Children <==> BatchUnfinished(t', x, t[x].task, t[x].taskEpoch))
      && (t'[x].phase == Collecting <==> HasBatch(t, x) && !BatchUnfinished(t', x, t[x].task, t[x].taskEpoch))
      && (t'[x].phase == NoPhase <==> !HasBatch(t, x))
      && (t'[x].taskEpoch == t[x].taskEpoch + 1 <==> !HasBatch(t, x))
      && (t'[x].taskEpoch == t[x].taskEpoch <==> HasBatch(t, x))
  {
    var t' := RetryTable(t, root, force, onlyOnce).value;
    KidsAfter(t, root, t', x);
    assert HasUnfinishedKid(t, x) ==> HasBatch(t, x) by {
      if HasUnfinishedKid(t, x) {
        var k :| k in t && IsKid(t, x, k) && (Live(t[k]) || t[k].status == Failed);
        assert !t[k].superseded;
      }
    }
  }

  /** An unforced retry that goes through re-enters no only_once task from the top. */
  lemma RetryOnlyOnce(t: Table, root: Id, onlyOnce: set<Id>, x: Id)
    requires Retryable(t, root) && RetryTable(t, root, false, onlyOnce).Some?
    requires x in t && InTree(x, t[x], root) && Reached(t, x) && x in onlyOnce && t[x].task != NO_TASK
    ensures RetryTable(t, root, false, onlyOnce).value[x].phase != NoPhase
  {
    RetryPhases(t, root, false, onlyOnce, x);
  }

  /** Everything the retry leaves live in the tree is running, with only running rows above it. */
  lemma RetryRunsWhole(t: Table, root: Id, force: bool, onlyOnce: set<Id>, x: Id)
    requires Retryable(t, root) && RetryTable(t, root, force, onlyOnce).Some?
    requires x in t && InTree(x, t[x], root)
    ensures var t' := RetryTable(t, root, force, onlyOnce).value;
      Live(t'[x]) ==>
        && t'[x].status == Running
        && forall i {:trigger t[x].stack[i]} :: 0 <= i < |t[x].stack| ==>
             t'[t[x].stack[i]].status == Running && t'[t[x].stack[i]].phase == Children
  {
    var t' := RetryTable(t, root, force, onlyOnce).value;
    assert t'[x] == RetryRow(t, root, x);
    if Live(t'[x]) {
      if Live(t[x]) {
        PausedUnderFailed(t, root, x);
      }
      forall i {:trigger t[x].stack[i]} | 0 <= i < |t[x].stack|
        ensures t'[t[x].stack[i]].status == Running && t'[t[x].stack[i]].phase == Children
      {
        RetryAbove(t, root, x, i);
        assert t'[t[x].stack[i]] == RetryRow(t, root, t[x].stack[i]);
      }
    }
  }

  // ------------------------------------------------------------------------------------------
  // A retry whose root is no longer failed
  // ------------------------------------------------------------------------------------------

  /** Under a root that is not failed the walk reaches nothing. */
  lemma StaleReachesNothing(t: Table, root: Id, x: Id)
    requires root in t && t[root].stack == [] && t[root].status != Failed && x in t && InTree(x, t[x], root)
    ensures !Reached(t, x)
  {
    if |t[x].stack| > 0 {
      assert !ReachedAt(t, x, 0);
    }
  }

  /** ...and only the pauses are undone. */
  lemma StaleRetry(t: Table, root: Id, force: bool, onlyOnce: set<Id>)
    requires root in t && t[root].stack == [] && t[root].status != Failed
    ensures RetryTable(t, root, force, onlyOnce) == Some(ResumePaused(t, root))
  {
    forall x | x in t && InTree(x, t[x], root)
      ensures !Reached(t, x)
    {
      StaleReachesNothing(t, root, x);
    }
    var retried := map x | x in t :: RetryRow(t, root, x);
    forall x | x in t
      ensures retried[x] == ResumePaused(t, root)[x]
    {
    }
    assert retried == ResumePaused(t, root);
  }

  predicate AnyPaused(t: Table, root: Id) {
    exists x {:trigger t[x].status} :: x in t && InTree(x, t[x], root) && t[x].status == Paused
  }

  lemma ResumeMidway(t: Table, root: Id)
    requires Inv(t) && root in t && t[root].stack == [] && AnyPaused(t, root) && t[root].status != Paused
    ensures !Inv(ResumePaused(t, root))
  {
    var t' := ResumePaused(t, root);
    var x :| x in t && InTree(x, t[x], root) && t[x].status == Paused;
    assert Compat(t[RootOf(x, t[x])].status, t[x].status);
    assert t'[x].status == Running && t'[root].status == t[root].status && RootOf(x, t'[x]) == root;
    assert !Compat(t'[root].status, t'[x].status);
  }

  lemma ResumeNothing(t: Table, root: Id)
    requires !AnyPaused(t, root)
    ensures ResumePaused(t, root) == t
  {
    var t' := ResumePaused(t, root);
    forall x | x in t
      ensures t'[x] == t[x]
    {
      assert t[x].status == t[x].status;
    }
  }

  /**
   The failed status is read before the transaction opens and not read again under the lock.
   If the root has meanwhile been revived and is pausing or failing once more, the transaction
   still sets what is paused below it running; the tree survives exactly when that did not happen.
   */
  lemma StaleRetryExact(t: Table, root: Id, force: bool, onlyOnce: set<Id>)
    requires Inv(t) && root in t && t[root].stack == [] && t[root].status != Failed
    ensures RetryTable(t, root, force, onlyOnce).Some?
    ensures Inv(RetryTable(t, root, force, onlyOnce).value) <==>
      !((t[root].status == Pausing || t[root].status == Failing) && AnyPaused(t, root))
  {
    StaleRetry(t, root, force, onlyOnce);
    if !AnyPaused(t, root) {
      ResumeNothing(t, root);
    } else if t[root].status == Paused {
      ResumeKeeps(t, root);
    } else {
      ResumeMidway(t, root);
      var x :| x in t && InTree(x, t[x], root) && t[x].status == Paused;
      assert Compat(t[RootOf(x, t[x])].status, t[x].status);
    }
  }
}
