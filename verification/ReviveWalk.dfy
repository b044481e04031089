/**
 The revive walk as the transaction runs it: a recursion that rewrites the loaded nodes in
 place, batch by batch, and gives up as soon as an only_once task would be re-entered.
 */
module ReviveWalk {
  import opened Wrappers
  import opened Statuses
  import opened Tree
  import opened Statements
  import opened Settle
  import opened Revive
  import opened Runs

  /** `y` is `x` or below it. */
  predicate Under(t: Table, x: Id, y: Id)
    requires y in t
  {
    y == x || x in t[y].stack
  }

  /** The walk started at `x` reaches `y`. */
  ghost predicate WalkReaches(t: Table, x: Id, y: Id)
    requires x in t && y in t
  {
    && Under(t, x, y) && t[y].status == Failed
    && forall i {:trigger ReachedAt(t, y, i)} :: |t[x].stack| <= i < |t[y].stack| ==> ReachedAt(t, y, i)
  }

  /** From a root the walk reaches what `Reached` says it does. */
  lemma WalkFromRoot(t: Table, root: Id, y: Id)
    requires Linked(t) && root in t && t[root].stack == [] && y in t
    ensures WalkReaches(t, root, y) <==> InTree(y, t[y], root) && Reached(t, y)
  {
    if root in t[y].stack && y != root {
      RootThrough(t, y, root);
    }
  }

  /** A row below `x` that the walk reaches is reached through exactly one kid of `x`. */
  lemma WalkThroughKid(t: Table, x: Id, y: Id)
    requires Linked(t) && x in t && y in t && y != x && t[x].status == Failed
    requires WalkReaches(t, x, y)
    ensures |t[x].stack| < |t[y].stack| && t[y].stack[|t[x].stack|] == x
    ensures var k := NextOn(t, y, |t[x].stack|);
      k in t && IsKid(t, x, k) && WalkReaches(t, k, y) && t[k].status == Failed
  {
    var j :| 0 <= j < |t[y].stack| && t[y].stack[j] == x;
    assert t[x].stack == t[y].stack[..j];
    assert ReachedAt(t, y, j);
    var k := NextOn(t, y, j);
    if j + 1 < |t[y].stack| {
      assert t[k].stack == t[y].stack[..j + 1];
      assert ReachedAt(t, y, j + 1);
    }
  }

  lemma WalkIntoKid(t: Table, x: Id, k: Id, y: Id)
    requires Linked(t) && x in t && k in t && y in t && t[x].status == Failed && IsKid(t, x, k)
    requires WalkReaches(t, k, y)
    ensures WalkReaches(t, x, y) && y != x
  {
    var n := |t[k].stack| - 1;
    assert t[k].stack[n] == x && t[x].stack == t[k].stack[..n];
    if y != k {
      var j :| 0 <= j < |t[y].stack| && t[y].stack[j] == k;
      assert t[k].stack == t[y].stack[..j];
      assert t[y].stack[n] == x;
    }
    assert |t[y].stack| > n;
    assert t[y].stack[n] == x;
    assert ReachedAt(t, y, n);
  }

  /** Different kids have nothing below them in common. */
  lemma KidsDisjoint(t: Table, k1: Id, k2: Id, y: Id)
    requires Linked(t) && k1 in t && k2 in t && y in t && |t[k1].stack| == |t[k2].stack|
    requires Under(t, k1, y) && Under(t, k2, y)
    ensures k1 == k2
  {
    if y != k1 {
      var j :| 0 <= j < |t[y].stack| && t[y].stack[j] == k1;
      assert t[k1].stack == t[y].stack[..j];
    }
    if y != k2 {
      var j :| 0 <= j < |t[y].stack| && t[y].stack[j] == k2;
      assert t[k2].stack == t[y].stack[..j];
    }
  }

  lemma KidUnder(t: Table, x: Id, k: Id, y: Id)
    requires Linked(t) && x in t && k in t && y in t && ParentOf(t[k]) == Some(x)
    ensures Under(t, k, y) ==> Under(t, x, y) && y != x
    ensures |t[k].stack| == |t[x].stack| + 1
  {
    var n := |t[k].stack| - 1;
    assert t[k].stack[n] == x && t[x].stack == t[k].stack[..n];
    if y != k && k in t[y].stack {
      var j :| 0 <= j < |t[y].stack| && t[y].stack[j] == k;
      assert t[k].stack == t[y].stack[..j];
      assert t[y].stack[n] == x;
      assert |t[t[y].stack[n]].stack| == n;
    }
  }

  /** What the walk from `x` leaves at `y`. */
  ghost function Walked(t: Table, x: Id, y: Id): Row
    requires x in t && y in t
  {
    if WalkReaches(t, x, y) then RevivedRow(t, y) else t[y]
  }

  /** The row at which an unforced walk from `x` stops. */
  ghost predicate RefusedAt(t: Table, onlyOnce: set<Id>, x: Id, y: Id)
    requires x in t
  {
    y in t && WalkReaches(t, x, y) && t[y].task != NO_TASK && !HasBatch(t, y) && y in onlyOnce
  }

  ghost predicate AnyRefused(t: Table, onlyOnce: set<Id>, x: Id)
    requires x in t
  {
    exists y {:trigger RefusedAt(t, onlyOnce, x, y)} :: RefusedAt(t, onlyOnce, x, y)
  }

  ghost predicate KidsIn(t: Table, x: Id, s: set<Id>)
    requires x in t
  {
    forall k :: k in s ==> k in t && IsKid(t, x, k)
  }

  ghost predicate UnderNone(t: Table, s: set<Id>, y: Id)
    requires y in t
  {
    forall k {:trigger Under(t, k, y)} :: k in s ==> !Under(t, k, y)
  }

  /** The nodes midway through a batch: `done` has been walked, the rest has not. */
  ghost predicate Midway(t: Table, x: Id, kids: set<Id>, done: set<Id>, entry: Table, nodes: Table)
    requires x in t && KidsIn(t, x, kids)
  {
    && done <= kids && nodes.Keys == t.Keys && entry.Keys == t.Keys
    && (forall y {:trigger nodes[y]} :: y in t && !Under(t, x, y) ==> nodes[y] == entry[y])
    && nodes[x] == t[x]
    && (forall k, y {:trigger Under(t, k, y)} :: k in done && y in t && Under(t, k, y) ==> nodes[y] == Walked(t, k, y))
    && (forall y {:trigger nodes[y]} ::
          y in t && Under(t, x, y) && y != x && UnderNone(t, done, y) ==> nodes[y] == t[y])
  }

  /** Walking one more kid moves the batch on. */
  lemma MidwayStep(t: Table, x: Id, kids: set<Id>, done: set<Id>, k: Id, entry: Table, before: Table, nodes: Table)
    requires Linked(t) && x in t && KidsIn(t, x, kids) && Midway(t, x, kids, done, entry, before)
    requires k in kids && k !in done && nodes.Keys == t.Keys
    requires forall y {:trigger nodes[y]} ::
      y in t ==> nodes[y] == if Under(t, k, y) then Walked(t, k, y) else before[y]
    ensures Midway(t, x, kids, done + {k}, entry, nodes)
  {
    forall y | y in t
      ensures Under(t, k, y) ==> Under(t, x, y) && y != x
    {
      KidUnder(t, x, k, y);
    }
    forall m, y | m in done && y in t && Under(t, m, y)
      ensures !Under(t, k, y)
    {
      KidUnder(t, x, m, y);
      KidUnder(t, x, k, y);
      if Under(t, k, y) {
        KidsDisjoint(t, m, k, y);
      }
    }
  }

  /** Nothing below an unvisited kid has been touched. */
  lemma KidUntouched(t: Table, x: Id, kids: set<Id>, done: set<Id>, k: Id, entry: Table, nodes: Table, y: Id)
    requires Linked(t) && x in t && KidsIn(t, x, kids) && Midway(t, x, kids, done, entry, nodes)
    requires k in kids && k !in done && y in t && Under(t, k, y)
    ensures nodes[y] == t[y]
  {
    KidUnder(t, x, k, y);
    forall m | m in done
      ensures !Under(t, m, y)
    {
      KidUnder(t, x, m, y);
      if Under(t, m, y) {
        KidsDisjoint(t, m, k, y);
      }
    }
  }

  /** Once every kid has been walked, only `x` itself is left to revive. */
  lemma MidwayDone(t: Table, x: Id, kids: set<Id>, entry: Table, nodes: Table, y: Id)
    requires Linked(t) && x in t && t[x].status == Failed && KidsIn(t, x, kids)
    requires forall k {:trigger IsKid(t, x, k)} :: k in t && IsKid(t, x, k) ==> k in kids
    requires Midway(t, x, kids, kids, entry, nodes)
    requires y in t && Under(t, x, y) && y != x
    ensures nodes[y] == Walked(t, x, y)
  {
    if WalkReaches(t, x, y) {
      WalkThroughKid(t, x, y);
      var k := NextOn(t, y, |t[x].stack|);
      assert k in kids && Under(t, k, y);
    } else if !UnderNone(t, kids, y) {
      var k :| k in kids && Under(t, k, y);
      if WalkReaches(t, k, y) {
        WalkIntoKid(t, x, k, y);
      }
    }
  }

  lemma NotReached(t: Table, x: Id, y: Id)
    requires Linked(t) && x in t && y in t && t[x].status != Failed && Under(t, x, y)
    ensures !WalkReaches(t, x, y)
  {
    if y != x {
      var j :| 0 <= j < |t[y].stack| && t[y].stack[j] == x;
      assert t[x].stack == t[y].stack[..j];
      assert !ReachedAt(t, y, j);
    }
  }

  /** A refusal at or below a row with a batch comes from one of its kids. */
  lemma RefusedBelow(t: Table, onlyOnce: set<Id>, x: Id) returns (k: Id)
    requires Linked(t) && x in t && t[x].status == Failed && HasBatch(t, x) && AnyRefused(t, onlyOnce, x)
    ensures k in t && IsKid(t, x, k) && AnyRefused(t, onlyOnce, k)
  {
    var y :| RefusedAt(t, onlyOnce, x, y);
    WalkThroughKid(t, x, y);
    k := NextOn(t, y, |t[x].stack|);
    assert RefusedAt(t, onlyOnce, k, y);
  }

  predicate Unfinished(r: Row) {
    Live(r) || r.status == Failed
  }

  lemma BatchFacts(t: Table, x: Id, kids: set<Id>)
    requires x in t && kids == (set k | k in t && IsKid(t, x, k)) && kids != {}
    ensures HasBatch(t, x)
    ensures HasUnfinishedKid(t, x) <==> exists k :: k in kids && Unfinished(t[k])
  {
    var k0 :| k0 in kids;
    assert !t[k0].superseded;
    if k :| k in kids && Unfinished(t[k]) {
      assert !t[k].superseded;
    }
  }

  lemma NoBatch(t: Table, x: Id, kids: set<Id>)
    requires x in t && kids == (set k | k in t && IsKid(t, x, k)) && kids == {}
    ensures !HasBatch(t, x) && !HasUnfinishedKid(t, x)
  {
    forall k | k in t
      ensures !IsKid(t, x, k)
    {
      assert k !in kids;
    }
  }

  /** Below a row without kids the walk reaches nothing. */
  lemma WalkNeedsKids(t: Table, x: Id, y: Id)
    requires Linked(t) && x in t && t[x].status == Failed && y in t && y != x && WalkReaches(t, x, y)
    ensures HasBatch(t, x)
  {
    WalkThroughKid(t, x, y);
    assert !t[NextOn(t, y, |t[x].stack|)].superseded;
  }

  /** Everything below `x` has been walked, and nothing else touched. */
  ghost predicate WalkedBelow(t: Table, x: Id, entry: Table, nodes: Table)
    requires x in t
  {
    && nodes.Keys == t.Keys && entry.Keys == t.Keys && nodes[x] == t[x]
    && forall y {:trigger nodes[y]} :: y in t && y != x ==>
         nodes[y] == if Under(t, x, y) then Walked(t, x, y) else entry[y]
  }

  lemma BatchWalked(t: Table, x: Id, kids: set<Id>, entry: Table, nodes: Table)
    requires Linked(t) && x in t && t[x].status == Failed && KidsIn(t, x, kids)
    requires forall k {:trigger IsKid(t, x, k)} :: k in t && IsKid(t, x, k) ==> k in kids
    requires Midway(t, x, kids, kids, entry, nodes)
    ensures WalkedBelow(t, x, entry, nodes)
  {
    forall y | y in t && y != x
      ensures nodes[y] == if Under(t, x, y) then Walked(t, x, y) else entry[y]
    {
      if Under(t, x, y) {
        MidwayDone(t, x, kids, entry, nodes, y);
      }
    }
  }

  lemma NothingBelow(t: Table, x: Id, entry: Table)
    requires Linked(t) && x in t && t[x].status == Failed && !HasBatch(t, x) && entry.Keys == t.Keys
    requires forall y {:trigger entry[y]} :: y in t && Under(t, x, y) ==> entry[y] == t[y]
    ensures WalkedBelow(t, x, entry, entry)
  {
    forall y | y in t && y != x && Under(t, x, y)
      ensures entry[y] == Walked(t, x, y)
    {
      if WalkReaches(t, x, y) {
        WalkNeedsKids(t, x, y);
      }
    }
  }

  lemma SelfWalked(t: Table, x: Id, entry: Table, nodes: Table)
    requires x in t && t[x].status == Failed && WalkedBelow(t, x, entry, nodes)
    ensures var nodes' := nodes[x := RevivedRow(t, x)];
      forall y {:trigger nodes'[y]} :: y in t ==> nodes'[y] == if Under(t, x, y) then Walked(t, x, y) else entry[y]
  {
    assert WalkReaches(t, x, x);
  }

  /** Without a batch the only refusal is the row's own. */
  lemma RefusedSelf(t: Table, onlyOnce: set<Id>, x: Id)
    requires Linked(t) && x in t && t[x].status == Failed && !HasBatch(t, x)
    ensures AnyRefused(t, onlyOnce, x) <==> t[x].task != NO_TASK && x in onlyOnce
  {
    if t[x].task != NO_TASK && x in onlyOnce {
      assert RefusedAt(t, onlyOnce, x, x);
    }
    if AnyRefused(t, onlyOnce, x) {
      var y :| RefusedAt(t, onlyOnce, x, y);
      if y != x {
        WalkNeedsKids(t, x, y);
      }
    }
  }

  lemma RefusedKid(t: Table, onlyOnce: set<Id>, x: Id, kids: set<Id>)
    requires Linked(t) && x in t && t[x].status == Failed && HasBatch(t, x)
    requires kids == set k | k in t && IsKid(t, x, k)
    requires forall k {:trigger AnyRefused(t, onlyOnce, k)} :: k in kids ==> k in t && !AnyRefused(t, onlyOnce, k)
    ensures !AnyRefused(t, onlyOnce, x)
  {
    if AnyRefused(t, onlyOnce, x) {
      var k := RefusedBelow(t, onlyOnce, x);
    }
  }

  lemma RefusedThrough(t: Table, onlyOnce: set<Id>, x: Id, k: Id)
    requires Linked(t) && x in t && t[x].status == Failed && k in t && IsKid(t, x, k) && AnyRefused(t, onlyOnce, k)
    ensures AnyRefused(t, onlyOnce, x)
  {
    var y :| RefusedAt(t, onlyOnce, k, y);
    WalkIntoKid(t, x, k, y);
    assert RefusedAt(t, onlyOnce, x, y);
  }

  /** The transaction's loaded rows, and the rows it will write back. */
  class Walk {
    const t: Table
    const force: bool
    const onlyOnce: set<Id>
    var nodes: Table
    var dirty: seq<Id>

    constructor (loaded: Table, force: bool, onlyOnce: set<Id>)
      ensures t == loaded && this.force == force && this.onlyOnce == onlyOnce
      ensures nodes == loaded && dirty == []
    {
      this.t, this.force, this.onlyOnce := loaded, force, onlyOnce;
      nodes, dirty := loaded, [];
    }

    /** Walks one kid of a failed row, and says whether it is left unfinished. */
    method ReviveKid(x: Id, kids: set<Id>, ghost done: set<Id>, k: Id, ghost entry: Table)
      returns (ok: bool, active: bool)
      requires Linked(t) && x in t && t[x].status == Failed && KidsIn(t, x, kids) && done <= kids && k in kids
      requires k !in done
      requires forall y {:trigger entry[y]} :: y in t && Under(t, x, y) ==> y in entry && entry[y] == t[y]
      requires Midway(t, x, kids, done, entry, nodes)
      modifies this`nodes, this`dirty
      ensures nodes.Keys == t.Keys
      ensures ok ==> Midway(t, x, kids, done + {k}, entry, nodes) && (active <==> Unfinished(t[k]))
      ensures ok ==> force || !AnyRefused(t, onlyOnce, k)
      ensures !ok ==> !force && AnyRefused(t, onlyOnce, x)
      decreases NotAbove(t, x), 0
    {
      active := false;
      ghost var before := nodes;
      ChildDeeper(t, x, k);
      forall y | y in t && Under(t, k, y)
        ensures nodes[y] == t[y]
      {
        KidUntouched(t, x, kids, done, k, entry, nodes, y);
      }
      ok := Revive(k);
      if ok {
        MidwayStep(t, x, kids, done, k, entry, before, nodes);
        assert nodes[k] == Walked(t, k, k);
        active := !Terminal(nodes[k].status);
      } else {
        RefusedThrough(t, onlyOnce, x, k);
      }
    }

    /** Walks every kid of a failed row, and says whether any of them is left unfinished. */
    method ReviveKids(x: Id, kids: set<Id>) returns (ok: bool, anyActive: bool)
      requires Linked(t) && x in t && t[x].status == Failed && nodes.Keys == t.Keys && KidsIn(t, x, kids)
      requires forall y {:trigger nodes[y]} :: y in t && Under(t, x, y) ==> nodes[y] == t[y]
      modifies this`nodes, this`dirty
      ensures nodes.Keys == t.Keys
      ensures ok ==> Midway(t, x, kids, kids, old(nodes), nodes)
      ensures ok ==> (anyActive <==> exists k :: k in kids && Unfinished(t[k]))
      ensures ok ==> force || forall k {:trigger AnyRefused(t, onlyOnce, k)} ::
        k in kids ==> !AnyRefused(t, onlyOnce, k)
      ensures !ok ==> !force && AnyRefused(t, onlyOnce, x)
      decreases NotAbove(t, x), 1
    {
      anyActive := false;
      var done: set<Id> := {};
      while done != kids
        invariant done <= kids && Midway(t, x, kids, done, old(nodes), nodes)
        invariant anyActive <==> exists k :: k in done && Unfinished(t[k])
        invariant force || forall k {:trigger AnyRefused(t, onlyOnce, k)} :: k in done ==> !AnyRefused(t, onlyOnce, k)
        decreases kids - done
      {
        assert !(kids <= done);
        var k :| k in kids && k !in done;
        var active;
        ok, active := ReviveKid(x, kids, done, k, old(nodes));
        if !ok {
          return;
        }
        anyActive := anyActive || active;
        done := done + {k};
      }
      ok := true;
    }

    /** Walks the current batch of a failed row, if it has one, and picks the phase it resumes in. */
    method ReviveBelow(x: Id) returns (ok: bool, phase: Phase, hasBatch: bool)
      requires Linked(t) && x in t && t[x].status == Failed && nodes.Keys == t.Keys
      requires forall y {:trigger nodes[y]} :: y in t && Under(t, x, y) ==> nodes[y] == t[y]
      modifies this`nodes, this`dirty
      ensures nodes.Keys == t.Keys
      ensures ok ==> WalkedBelow(t, x, old(nodes), nodes)
      ensures ok ==> phase == RevivedPhase(t, x) && hasBatch == HasBatch(t, x)
      ensures ok ==> force || !AnyRefused(t, onlyOnce, x)
      ensures !ok ==> !force && AnyRefused(t, onlyOnce, x)
      decreases NotAbove(t, x), 2
    {
      var kids := set k | k in t && IsKid(t, x, k);
      hasBatch := kids != {};
      if hasBatch {
        BatchFacts(t, x, kids);
        var anyActive;
        ok, anyActive := ReviveKids(x, kids);
        phase := if anyActive then Children else Collecting;
        if ok {
          BatchWalked(t, x, kids, old(nodes), nodes);
          if !force {
            RefusedKid(t, onlyOnce, x, kids);
          }
        }
      } else {
        NoBatch(t, x, kids);
        RefusedSelf(t, onlyOnce, x);
        phase := NoPhase;
        ok := force || t[x].task == NO_TASK || x !in onlyOnce;
        NothingBelow(t, x, nodes);
      }
    }

    /** The walk from `x`: every row it reaches is revived, every other row is kept. */
    method Revive(x: Id) returns (ok: bool)
      requires Linked(t) && x in t && nodes.Keys == t.Keys
      requires forall y {:trigger nodes[y]} :: y in t && Under(t, x, y) ==> nodes[y] == t[y]
      modifies this`nodes, this`dirty
      ensures nodes.Keys == t.Keys
      ensures ok ==> forall y {:trigger nodes[y]} :: y in t ==>
        nodes[y] == if Under(t, x, y) then Walked(t, x, y) else old(nodes)[y]
      ensures ok ==> force || !AnyRefused(t, onlyOnce, x)
      ensures !ok ==> !force && AnyRefused(t, onlyOnce, x)
      decreases NotAbove(t, x), 3
    {
      assert nodes[x] == t[x];
      if nodes[x].status != Failed {
        forall y | y in t && Under(t, x, y)
          ensures !WalkReaches(t, x, y)
        {
          NotReached(t, x, y);
        }
        return true;
      }
      var phase, hasBatch;
      ok, phase, hasBatch := ReviveBelow(x);
      if ok {
        SelfWalked(t, x, old(nodes), nodes);
        var row := nodes[x];
        nodes := nodes[x := row.(status := Running, phase := phase, worker := None,
                                 taskEpoch := if hasBatch then row.taskEpoch else row.taskEpoch + 1)];
        dirty := dirty + [x];
      }
    }
  }

  /** RetryProcess: the walk from the root, then every paused row of the tree set running. */
  method RetryProcess(t: Table, root: Id, force: bool, onlyOnce: set<Id>) returns (res: Option<Table>)
    requires Inv(t) && root in t && t[root].stack == [] && t[root].status == Failed
    ensures res == RetryTable(t, root, force, onlyOnce)
  {
    var walk := new Walk(t, force, onlyOnce);
    var ok := walk.Revive(root);
    RefusalsAgree(t, root, onlyOnce);
    if !ok {
      return None;
    }
    res := Some(ResumeAll(walk.nodes, root));
    ResumedRows(t, root, walk.nodes);
    RetriedIsTable(t, root, force, onlyOnce, res.value);
  }

  /** Every paused row of the tree runs again. */
  function ResumeAll(nodes: Table, root: Id): (t: Table) {
    map x | x in nodes ::
      if InTree(x, nodes[x], root) && nodes[x].status == Paused then nodes[x].(status := Running) else nodes[x]
  }

  lemma ResumedRows(t: Table, root: Id, nodes: Table)
    requires Linked(t) && root in t && t[root].stack == [] && nodes.Keys == t.Keys
    requires forall y {:trigger nodes[y]} ::
      y in t ==> nodes[y] == if Under(t, root, y) then Walked(t, root, y) else t[y]
    ensures RetriedTo(t, root, ResumeAll(nodes, root))
  {
    forall x | x in t
      ensures ResumeAll(nodes, root)[x] == RetryRow(t, root, x)
    {
      ResumedRow(t, root, nodes, x);
    }
  }

  lemma RetriedIsTable(t: Table, root: Id, force: bool, onlyOnce: set<Id>, t': Table)
    requires RetriedTo(t, root, t') && (force || !Refused(t, root, onlyOnce))
    ensures RetryTable(t, root, force, onlyOnce) == Some(t')
  {
    assert t' == map x | x in t :: RetryRow(t, root, x);
  }

  lemma ResumedRow(t: Table, root: Id, nodes: Table, x: Id)
    requires Linked(t) && root in t && t[root].stack == [] && nodes.Keys == t.Keys && x in t
    requires nodes[x] == if Under(t, root, x) then Walked(t, root, x) else t[x]
    ensures ResumeAll(nodes, root)[x] == RetryRow(t, root, x)
  {
    WalkFromRoot(t, root, x);
    RootUnder(t, root, x);
  }

  lemma RootUnder(t: Table, root: Id, y: Id)
    requires Linked(t) && root in t && t[root].stack == [] && y in t
    ensures Under(t, root, y) <==> InTree(y, t[y], root)
  {
    if root in t[y].stack {
      RootThrough(t, y, root);
    }
  }

  lemma RefusalsAgree(t: Table, root: Id, onlyOnce: set<Id>)
    requires Linked(t) && root in t && t[root].stack == []
    ensures AnyRefused(t, onlyOnce, root) <==> Refused(t, root, onlyOnce)
  {
    forall y | y in t
      ensures WalkReaches(t, root, y) <==> InTree(y, t[y], root) && Reached(t, y)
    {
      WalkFromRoot(t, root, y);
    }
    if AnyRefused(t, onlyOnce, root) {
      var y :| RefusedAt(t, onlyOnce, root, y);
      assert Reached(t, y);
    }
    if Refused(t, root, onlyOnce) {
      var y :| y in t && InTree(y, t[y], root) && Reached(t, y) && t[y].task != NO_TASK && !HasBatch(t, y) &&
        y in onlyOnce;
      assert RefusedAt(t, onlyOnce, root, y);
    }
  }
}
