/**
 The transactions themselves: loops over a table that is updated row by row, each proved to
 leave the table its specification says, and to write no row outside the locks it took.
 */
module LifecycleDb {
  import opened Wrappers
  import opened Statuses
  import opened Tree
  import opened Statements
  import opened Settle
  import opened Writes
  import opened Lifecycle
  import opened Runs

  /** Which rows a transaction on a child takes locks on. */
  datatype LockScope = LockParent | LockStack | LockLive

  function Width(s: LockScope): nat {
    match s
    case LockParent => 0
    case LockStack => 1
    case LockLive => 2
  }

  /** The rows a scope locks for the child `c`. */
  predicate Locked(t: Table, c: Id, scope: LockScope, x: Id)
    requires c in t
  {
    match scope
    case LockParent => x == c || Some(x) == ParentOf(t[c])
    case LockStack => x == c || x in t[c].stack
    case LockLive => x in t && InTree(x, t[x], RootOf(c, t[c])) && Live(t[x])
  }

  /** Row `x` differs between the two tables. */
  predicate Changed(t: Table, t': Table, x: Id) {
    (x in t) != (x in t') || (x in t && t[x] != t'[x])
  }

  /** A parent that is not draining is the last row the climb writes. */
  lemma ClimbStopsAt(t: Table, path: seq<Id>, task: TaskId, epoch: nat, x: Id)
    requires path != [] && (path[|path| - 1] in t ==> !Draining(t[path[|path| - 1]].status))
    requires x != path[|path| - 1]
    ensures !Changed(t, Statements.SettleUp(t, path, task, epoch), x)
  {
  }

  /** The climb writes only rows of the stack. */
  lemma ClimbOnStack(t: Table, path: seq<Id>, task: TaskId, epoch: nat, x: Id)
    requires x !in path
    ensures !Changed(t, Statements.SettleUp(t, path, task, epoch), x)
    decreases |path|
  {
    if path != [] && path[|path| - 1] in t {
      var p := path[|path| - 1];
      var (row, settled) := SettleParent(t, p, task, epoch);
      if settled {
        ClimbOnStack(t[p := row], path[..|path| - 1], row.spawnTask, row.parentEpoch, x);
      }
    }
  }

  lemma FinishLocked(t: Table, c: Id, row: Row, scope: LockScope, x: Id)
    requires c in t && row.stack == t[c].stack && row.stack != [] && c !in row.stack
    requires scope == LockParent ==>
      (row.stack[|row.stack| - 1] in t ==> !Draining(t[row.stack[|row.stack| - 1]].status))
    requires scope != LockLive && Changed(t, FinishRows(t, c, row), x)
    ensures Locked(t, c, scope, x)
  {
    var t1 := t[c := row];
    if x != c && x !in row.stack {
      ClimbOnStack(t1, row.stack, row.spawnTask, row.parentEpoch, x);
    }
    if scope == LockParent && x != c && x != row.stack[|row.stack| - 1] {
      ClimbStopsAt(t1, row.stack, row.spawnTask, row.parentEpoch, x);
    }
  }

  /** A failure writes its own row, its stack, and, when it is the first, the running rows of the
      tree: all of them rows its scope has locked. */
  lemma FailLocked(t: Table, c: Id, row: Row, scope: LockScope, x: Id)
    requires Inv(t) && c in t && t[c].worker.Some? && SamePlace(t[c], row) && row.stack != [] && row.status == Failed
    requires if Poisons(t, row.stack[0]) then scope == LockLive else scope == LockStack
    requires Changed(t, StopRows(t, c, row), x)
    ensures Locked(t, c, scope, x)
  {
    assert RowOk(t[c]);
    if x in row.stack {
      FailLockedAbove(t, c, x);
    } else if x != c {
      ClimbOnStack(FailRows(t, c, row), row.stack, row.spawnTask, row.parentEpoch, x);
      FailLockedBeside(t, c, row, x);
    }
  }

  lemma FailLockedAbove(t: Table, c: Id, x: Id)
    requires Inv(t) && c in t && t[c].worker.Some? && x in t[c].stack
    ensures Locked(t, c, LockLive, x) && Locked(t, c, LockStack, x)
  {
    assert RowOk(t[c]);
    var i :| 0 <= i < |t[c].stack| && t[c].stack[i] == x;
    BusyAncestors(t, None, c, i);
    RootThrough(t, c, x);
  }

  /** Off the stack only the first failure of a tree reaches a row. */
  lemma FailLockedBeside(t: Table, c: Id, row: Row, x: Id)
    requires Inv(t) && c in t && t[c].worker.Some? && SamePlace(t[c], row) && row.stack != [] && row.status == Failed
    requires x != c && x !in row.stack && Changed(t, FailRows(t, c, row), x)
    ensures Poisons(t, row.stack[0]) && Locked(t, c, LockLive, x)
  {
  }

  class Db {
    var rows: Table

    constructor ()
      ensures rows == map[]
    {
      rows := map[];
    }

    /** The climb from a child that has stopped, one parent a turn. */
    method SettleUp(path: seq<Id>, spawnTask: TaskId, parentEpoch: nat) returns (settled: seq<Id>)
      modifies this`rows
      ensures rows == Statements.SettleUp(old(rows), path, spawnTask, parentEpoch)
      ensures forall x :: x in settled ==> x in path
    {
      settled := [];
      var up, task, epoch := path, spawnTask, parentEpoch;
      while up != []
        invariant Statements.SettleUp(rows, up, task, epoch) ==
          Statements.SettleUp(old(rows), path, spawnTask, parentEpoch)
        invariant up <= path && forall x :: x in settled ==> x in path
        decreases |up|
      {
        var p := up[|up| - 1];
        if p !in rows {
          return;
        }
        var row := rows[p];
        if row.phase != Children {
          assert rows[p := row] == rows;
          return;
        }
        var active := AnyActive(rows, p, task, epoch);
        var busy := active && AnyBusy(rows, p, task, epoch);
        ghost var before := rows;
        var woken := if active then row else WakeParent(row);
        rows := rows[p := woken];
        if !Draining(row.status) || busy {
          return;
        }
        rows := rows[p := SettleDrained(woken)];
        assert rows == before[p := SettleDrained(woken)];
        settled := settled + [p];
        up, task, epoch := up[..|up| - 1], row.spawnTask, row.parentEpoch;
      }
    }

    /** FinishChild.  The first attempt locks the child and its parent; a draining parent means the
        climb may go on, so the transaction starts over, nothing written, with the whole stack. */
    method FinishChild(c: Id, worker: WorkerId, leaseEpoch: nat, task: TaskId, taskEpoch: nat, status: Status,
                       phase: Phase)
      returns (landed: bool, scope: LockScope)
      requires Inv(rows) && c in rows && rows[c].stack != []
      modifies this`rows
      ensures landed <==> old(rows)[c].leaseEpoch == leaseEpoch && old(rows)[c].worker == Some(worker)
      ensures !landed ==> rows == old(rows)
      ensures landed ==> rows == FinishRows(old(rows), c, UpdateRow(old(rows)[c], task, taskEpoch, status, phase))
      ensures forall x :: Changed(old(rows), rows, x) ==> Locked(old(rows), c, scope, x)
    {
      scope := LockParent;
      var p := rows[c].stack[|rows[c].stack| - 1];
      while true
        invariant rows == old(rows) && scope != LockLive
        decreases 2 - Width(scope)
      {
        if p in rows && Draining(rows[p].status) && Width(scope) < Width(LockStack) {
          scope := LockStack;
          continue;
        }
        if rows[c].leaseEpoch != leaseEpoch || rows[c].worker != Some(worker) {
          landed := false;
          return;
        }
        break;
      }
      ghost var t := rows;
      var row := UpdateRow(rows[c], task, taskEpoch, status, phase);
      rows := rows[c := row];
      var _ := SettleUp(row.stack, row.spawnTask, row.parentEpoch);
      landed := true;
      assert RowOk(t[c]);
      NotOnPath(t, None, c, c);
      forall x | Changed(t, rows, x)
        ensures Locked(t, c, scope, x)
      {
        FinishLocked(t, c, row, scope, x);
      }
    }

    /** FailInstanceAndAncestors.  It locks the stack, and every live row of the tree when this
        failure turns a root that was not failing yet. */
    method FailInstanceAndAncestors(c: Id, worker: WorkerId, leaseEpoch: nat, task: TaskId, taskEpoch: nat)
      returns (landed: bool, scope: LockScope)
      requires Inv(rows) && c in rows && rows[c].stack != []
      modifies this`rows
      ensures landed <==> old(rows)[c].leaseEpoch == leaseEpoch && old(rows)[c].worker == Some(worker)
      ensures !landed ==> rows == old(rows)
      ensures landed ==> rows == StopRows(old(rows), c, UpdateRow(old(rows)[c], task, taskEpoch, Failed, NoPhase))
      ensures forall x :: Changed(old(rows), rows, x) ==> Locked(old(rows), c, scope, x)
    {
      scope := LockStack;
      var stack := rows[c].stack;
      var poisons := Poisons(rows, stack[0]);
      while poisons && Width(scope) < Width(LockLive)
        invariant scope == LockStack || (poisons && scope == LockLive)
        decreases 2 - Width(scope)
      {
        scope := LockLive;
      }
      landed := rows[c].leaseEpoch == leaseEpoch && rows[c].worker == Some(worker);
      if !landed {
        return;
      }
      ghost var t := rows;
      var row := UpdateRow(rows[c], task, taskEpoch, Failed, NoPhase);
      rows := rows[c := row];
      rows := FailAncestors(rows, stack);
      if poisons {
        rows := PauseTree(rows, stack[0]);
      }
      var _ := SettleUp(row.stack, row.spawnTask, row.parentEpoch);
      forall x | Changed(t, rows, x)
        ensures Locked(t, c, scope, x)
      {
        FailLocked(t, c, row, scope, x);
      }
    }

    method RetireAll(retired: seq<Id>)
      requires forall x :: x in retired ==> x in rows
      modifies this`rows
      ensures rows.Keys == old(rows).Keys
      ensures forall x {:trigger rows[x]} ::
        x in rows ==> rows[x] == if x in retired then old(rows)[x].(superseded := true) else old(rows)[x]
    {
      for i := 0 to |retired|
        invariant rows.Keys == old(rows).Keys
        invariant forall x {:trigger rows[x]} :: x in rows ==>
          rows[x] == if x in retired[..i] then old(rows)[x].(superseded := true) else old(rows)[x]
      {
        rows := rows[retired[i] := rows[retired[i]].(superseded := true)];
      }
      assert retired[..|retired|] == retired;
    }

    method InsertAll(children: seq<Id>, row: Row)
      requires forall x :: x in children ==> x !in rows
      modifies this`rows
      ensures rows.Keys == old(rows).Keys + set x | x in children
      ensures forall x {:trigger rows[x]} :: x in rows ==> rows[x] == if x in children then row else old(rows)[x]
    {
      for i := 0 to |children|
        invariant rows.Keys == old(rows).Keys + set x | x in children[..i]
        invariant forall x {:trigger rows[x]} ::
          x in rows ==> rows[x] == if x in children[..i] then row else old(rows)[x]
      {
        rows := rows[children[i] := row];
      }
      assert children[..|children|] == children;
    }

    /** The batch of one spawn or respawn: retire the replaced rows, insert the children one by
        one, and park the parent; refused whole when the fence or the phase has moved. */
    method SpawnAndWait(c: Id, worker: WorkerId, leaseEpoch: nat, task: TaskId, taskEpoch: nat,
                        from: Phase, retired: seq<Id>, children: seq<Id>) returns (landed: bool)
      requires c in rows && (forall x :: x in retired ==> x in rows && x != c)
      requires forall x :: x in children ==> x !in rows
      modifies this`rows
      ensures landed <==>
        old(rows)[c].phase == from && old(rows)[c].leaseEpoch == leaseEpoch && old(rows)[c].worker == Some(worker)
      ensures !landed ==> rows == old(rows)
      ensures landed ==>
        rows == SpawnRows(old(rows), c, task, taskEpoch, set x | x in children, set x | x in retired)
    {
      var before := rows;
      var row := rows[c];
      landed := row.phase == from && row.leaseEpoch == leaseEpoch && row.worker == Some(worker);
      if !landed {
        return;
      }
      RetireAll(retired);
      InsertAll(children, NewChild(before, c, task, taskEpoch));
      rows := rows[c := UpdateRow(row, task, taskEpoch, row.status, Children)];
      assert rows == SpawnRows(before, c, task, taskEpoch, set x | x in children, set x | x in retired);
    }
  }
}
