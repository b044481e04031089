/**
 What each operator verb answers, and what it has done to every row by then.
 */
module Answers {
  import opened Wrappers
  import opened Statuses
  import opened Tree
  import opened Statements
  import opened Settle
  import opened Verbs
  import opened Stops
  import opened Revive
  import opened Runs

  /** A worker holds the row, or some row below it. */
  ghost predicate HeldAtOrBelow(t: Table, x: Id) {
    exists h {:trigger t[h].worker} :: h in t && t[h].worker.Some? && (h == x || x in t[h].stack)
  }

  lemma DrainsExact(t: Table, root: Id, x: Id)
    requires Linked(t) && x in t && InTree(x, t[x], root)
    ensures Drains(t, root, x) <==> HeldAtOrBelow(t, x)
  {
    if HeldAtOrBelow(t, x) {
      var h :| h in t && t[h].worker.Some? && (h == x || x in t[h].stack);
      if h != x {
        RootThrough(t, h, x);
        assert InTree(h, t[h], root);
      }
    }
  }

  /** A row of a tree is held only if its root drains with it. */
  lemma RootDrains(t: Table, root: Id, x: Id)
    requires Linked(t) && root in t && t[root].stack == [] && x in t && InTree(x, t[x], root) && HeldAtOrBelow(t, x)
    ensures HeldAtOrBelow(t, root)
  {
    var h :| h in t && t[h].worker.Some? && (h == x || x in t[h].stack);
    if h != x {
      RootThrough(t, h, x);
    }
    assert h == root || t[h].stack[0] == root;
  }

  // ------------------------------------------------------------------------------------------
  // Resume
  // ------------------------------------------------------------------------------------------

  /** A resume is applied exactly to a settled root that has not failed and has a paused row in its
      tree; it then runs every paused row of the tree again and touches nothing else, and any other
      answer leaves the table alone. */
  lemma ResumeExact(t: Table, root: Id)
    ensures var (t', v) := Resume(t, root);
      && (v == Applied <==>
            && root in t && t[root].stack == [] && !Draining(t[root].status) && t[root].status != Failed
            && exists x {:trigger t[x].status} :: x in t && InTree(x, t[x], root) && t[x].status == Paused)
      && (v == Applied ==>
            && t'.Keys == t.Keys
            && forall x {:trigger t'[x]} :: x in t ==>
                 && (InTree(x, t[x], root) && t[x].status == Paused ==> t'[x] == t[x].(status := Running))
                 && (!InTree(x, t[x], root) || t[x].status != Paused ==> t'[x] == t[x])
                 && (InTree(x, t[x], root) ==> t'[x].status != Paused))
      && (v != Applied ==> t' == t)
  {
  }

  /** In a tree that keeps its invariant the answer is told by the root alone, and an applied resume
      leaves everything live in the tree running. */
  lemma ResumeVerdict(t: Table, root: Id, x: Id)
    requires Inv(t) && root in t && t[root].stack == [] && x in t && InTree(x, t[x], root)
    ensures var (t', v) := Resume(t, root);
      && v == (match t[root].status case Paused => Applied case Running => Unchanged case _ => Conflict)
      && t'.Keys == t.Keys
      && (v == Applied ==> t'[x] == if Live(t[x]) then t[x].(status := Running) else t[x])
  {
    ResumeExact(t, root);
    forall y | y in t && InTree(y, t[y], root) && Live(t[y])
      ensures Compat(t[root].status, t[y].status)
    {
      assert Compat(t[RootOf(y, t[y])].status, t[y].status);
    }
  }

  // ------------------------------------------------------------------------------------------
  // Pause and cancel
  // ------------------------------------------------------------------------------------------

  /** What a stop leaves of a row: of those it asks to stop, the held and what is above them drain. */
  ghost function StoppedRow(t: Table, x: Id, asked: bool, draining: Status, stopped: Status): Row
    requires x in t
  {
    if !asked then t[x] else t[x].(status := if HeldAtOrBelow(t, x) then draining else stopped)
  }

  lemma PauseRow(t: Table, root: Id, x: Id)
    requires Linked(t) && x in t
    ensures PauseTree(t, root)[x] == StoppedRow(t, x, InTree(x, t[x], root) && t[x].status == Running, Pausing, Paused)
  {
    if InTree(x, t[x], root) {
      DrainsExact(t, root, x);
    }
  }

  lemma CancelRow(t: Table, root: Id, x: Id)
    requires Linked(t) && x in t
    ensures var asked := InTree(x, t[x], root) && (t[x].status == Running || t[x].status == Paused);
      CancelTree(t, root)[x] == StoppedRow(t, x, asked, Cancelling, Cancelled)
  {
    if InTree(x, t[x], root) {
      DrainsExact(t, root, x);
    }
  }

  /** The answer of a stop that has the root to stop: accepted exactly while something is held. */
  lemma StopAnswer(t: Table, root: Id, t': Table, draining: Status, stopped: Status)
    requires Linked(t) && root in t && t[root].stack == [] && t'.Keys == t.Keys && draining != stopped
    requires t[root].status != draining && t[root].status != stopped
    requires forall x {:trigger t'[x]} :: x in t ==>
      t'[x] == t[x] || (InTree(x, t[x], root) && t'[x] == StoppedRow(t, x, true, draining, stopped))
    requires t'[root] == StoppedRow(t, root, true, draining, stopped)
    ensures StopVerdict(t, t', draining, t[root].status) == if HeldAtOrBelow(t, root) then Accepted else Applied
  {
    forall x | x in t && t'[x].status != t[x].status && t'[x].status == draining
      ensures HeldAtOrBelow(t, root)
    {
      RootDrains(t, root, x);
    }
  }

  /** Where a verb finds a root to work on. */
  predicate IsRoot(t: Table, root: Id) {
    root in t && t[root].stack == []
  }

  /** A pause, whole: the answer told by the root and by whether anything in the tree is held, and what
      has become of every row. */
  lemma PauseExact(t: Table, root: Id)
    requires Inv(t)
    ensures var (t', v) := Pause(t, root);
      && v == (if root !in t then NotFound
               else if t[root].stack != [] then NotRoot
               else match t[root].status
                 case Running => if HeldAtOrBelow(t, root) then Accepted else Applied
                 case Pausing => Accepted
                 case Failing => Conflict
                 case Cancelling => Conflict
                 case _ => Unchanged)
      && t'.Keys == t.Keys
      && forall x {:trigger t'[x]} :: x in t ==>
           var asked := IsRoot(t, root) && InTree(x, t[x], root) && t[x].status == Running;
           t'[x] == StoppedRow(t, x, asked, Pausing, Paused)
  {
    if IsRoot(t, root) {
      if t[root].status == Running {
        PauseAnswer(t, root, PauseTree(t, root));
      } else {
        OnlyRunningUnderRunning(t, root);
        if t[root].status == Pausing || t[root].status == Paused {
          PauseIdle(t, root);
        }
      }
    }
  }

  lemma PauseAnswer(t: Table, root: Id, t': Table)
    requires Inv(t) && IsRoot(t, root) && t[root].status == Running && t' == PauseTree(t, root)
    ensures forall x {:trigger t'[x]} :: x in t ==>
      t'[x] == StoppedRow(t, x, InTree(x, t[x], root) && t[x].status == Running, Pausing, Paused)
    ensures StopVerdict(t, t', Pausing, Running) == if HeldAtOrBelow(t, root) then Accepted else Applied
  {
    forall x {:trigger t'[x]} | x in t
      ensures t'[x] == StoppedRow(t, x, InTree(x, t[x], root) && t[x].status == Running, Pausing, Paused)
    {
      PauseRow(t, root, x);
    }
    StopAnswer(t, root, t', Pausing, Paused);
  }

  lemma OnlyRunningUnderRunning(t: Table, root: Id)
    requires Inv(t) && IsRoot(t, root)
    ensures forall x {:trigger t[x].status} :: x in t && InTree(x, t[x], root) && t[x].status == Running ==>
      t[root].status == Running
    ensures forall x {:trigger t[x].status} :: x in t && InTree(x, t[x], root) && t[x].status == Paused ==>
      t[root].status == Paused || t[root].status == Pausing || Doomed(t[root].status)
    ensures forall x {:trigger t[x].status} :: x in t && InTree(x, t[x], root) && Live(t[x]) ==>
      Compat(t[root].status, t[x].status)
  {
    forall x {:trigger t[x].status} | x in t && InTree(x, t[x], root) && Live(t[x])
      ensures Compat(t[root].status, t[x].status)
    {
      assert Compat(t[RootOf(x, t[x])].status, t[x].status);
    }
  }

  /** Some row of `t` a cancel of `root` asks to stop. */
  predicate CancelAsks(t: Table, root: Id, x: Id)
    requires x in t
  {
    && IsRoot(t, root) && (t[root].status == Running || t[root].status == Paused)
    && InTree(x, t[x], root) && (t[x].status == Running || t[x].status == Paused)
  }

  /** A cancel, whole: it takes a running or a paused tree down, and is refused while another stop is
      under way. */
  lemma CancelExact(t: Table, root: Id)
    requires Inv(t)
    ensures var (t', v) := Cancel(t, root);
      && v == (if root !in t then NotFound
               else if t[root].stack != [] then NotRoot
               else match t[root].status
                 case Running => if HeldAtOrBelow(t, root) then Accepted else Applied
                 case Paused => Applied
                 case Cancelling => Accepted
                 case Pausing => Conflict
                 case Failing => Conflict
                 case _ => Unchanged)
      && t'.Keys == t.Keys
      && forall x {:trigger t'[x]} :: x in t ==>
           t'[x] == StoppedRow(t, x, CancelAsks(t, root, x), Cancelling, Cancelled)
  {
    if IsRoot(t, root) {
      if t[root].status == Running || t[root].status == Paused {
        CancelAnswer(t, root, CancelTree(t, root));
      } else {
        CancelIdle(t, root);
      }
    }
  }

  lemma CancelIdle(t: Table, root: Id)
    requires Inv(t) && IsRoot(t, root) && t[root].status != Running && t[root].status != Paused
    ensures Cancel(t, root) == (t, match t[root].status
                                     case Cancelling => Accepted
                                     case Pausing => Conflict
                                     case Failing => Conflict
                                     case _ => Unchanged)
  {
    if t[root].status == Cancelling {
      OnlyRunningUnderRunning(t, root);
      CancelNoop(t, root);
    }
  }

  lemma CancelAnswer(t: Table, root: Id, t': Table)
    requires Inv(t) && IsRoot(t, root) && (t[root].status == Running || t[root].status == Paused)
    requires t' == CancelTree(t, root)
    ensures forall x {:trigger t'[x]} :: x in t ==>
      t'[x] == StoppedRow(t, x, CancelAsks(t, root, x), Cancelling, Cancelled)
    ensures StopVerdict(t, t', Cancelling, t[root].status) ==
      if t[root].status == Running && HeldAtOrBelow(t, root) then Accepted else Applied
  {
    forall x {:trigger t'[x]} | x in t
      ensures t'[x] == StoppedRow(t, x, CancelAsks(t, root, x), Cancelling, Cancelled)
    {
      CancelRow(t, root, x);
    }
    StopAnswer(t, root, t', Cancelling, Cancelled);
    if HeldAtOrBelow(t, root) {
      DrainsExact(t, root, root);
      DrainsRunning(t, root, root);
    }
  }

  /** What the answer of a cancel is worth: applied means the root is cancelled and nothing in the tree
      is live, accepted that the root and everything live below it are being cancelled. */
  lemma CancelVerdict(t: Table, root: Id, x: Id)
    requires Inv(t) && x in t && InTree(x, t[x], root)
    ensures var (t', v) := Cancel(t, root);
      && t'.Keys == t.Keys
      && (v == Applied ==> root in t' && t'[root].status == Cancelled && Terminal(t'[x].status))
      && (v == Accepted ==>
            root in t' && t'[root].status == Cancelling && (Live(t'[x]) ==> t'[x].status == Cancelling))
      && (v != Applied && v != Accepted ==> t' == t)
  {
    CancelExact(t, root);
    CancelVerbKeeps(t, root);
    var t' := Cancel(t, root).0;
    if IsRoot(t, root) {
      assert t'[x].stack == t[x].stack;
      assert t'[root] == StoppedRow(t, root, CancelAsks(t, root, root), Cancelling, Cancelled);
      assert Live(t'[x]) ==> Compat(t'[RootOf(x, t'[x])].status, t'[x].status);
    }
  }

  // ------------------------------------------------------------------------------------------
  // Retry
  // ------------------------------------------------------------------------------------------

  /** A retry is applied exactly to a failed root, forced or re-entering no only_once task; the root and
      whatever the failure paused run again, and any other answer leaves the table alone. */
  lemma RetryVerdict(t: Table, root: Id, force: bool, onlyOnce: set<Id>, x: Id)
    requires Inv(t) && x in t
    ensures var (t', v) := Retry(t, root, force, onlyOnce);
      && (v == Applied <==> IsRoot(t, root) && t[root].status == Failed && (force || !Refused(t, root, onlyOnce)))
      && (v != Applied ==>
            t' == t && v == (if root !in t then NotFound else if IsRoot(t, root) then Conflict else NotRoot))
      && t'.Keys == t.Keys
      && (v == Applied ==>
            && t'[root].status == Running
            && (InTree(x, t[x], root) && t[x].status == Paused ==> t'[x] == t[x].(status := Running))
            && (InTree(x, t[x], root) && Reached(t, x) ==> t'[x].status == Running)
            && (!InTree(x, t[x], root) || (t[x].status != Paused && !Reached(t, x)) ==> t'[x] == t[x]))
  {
    if IsRoot(t, root) && t[root].status == Failed && RetryTable(t, root, force, onlyOnce).Some? {
      RetryKeeps(t, root, force, onlyOnce);
      assert RetryTable(t, root, force, onlyOnce).value[x] == RetryRow(t, root, x);
    }
  }
}
