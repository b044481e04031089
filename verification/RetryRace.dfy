/**
 A run in which two retries of one process overlap: the second has read that the root failed, the
 first revives the tree, a row of it fails again, and then the second runs its transaction.
 */
module RetryRace {
  import opened Wrappers
  import opened Statuses
  import opened Tree
  import opened Statements
  import opened Settle
  import opened Writes
  import opened Revive
  import opened Lifecycle
  import opened Runs

  // ------------------------------------------------------------------------------------------
  // The tree 1 -> {2, 4}, 2 -> {3, 5}, working and after a failure of row 5
  // ------------------------------------------------------------------------------------------

  function Root(status: Status, phase: Phase): (r: Row) {
    Row([], NO_TASK, 0, status, phase, 7, 0, None, 1, false)
  }

  function Middle(status: Status, phase: Phase): (r: Row) {
    Row([1], 7, 0, status, phase, 1, 0, None, 1, false)
  }

  function Idle3(status: Status): (r: Row) {
    Row([1, 2], 1, 0, status, NoPhase, 1, 0, None, 0, false)
  }

  function Row4(status: Status, w: Option<WorkerId>, lease: nat): (r: Row) {
    Row([1], 7, 0, status, NoPhase, 1, 0, w, lease, false)
  }

  function Row5(status: Status, epoch: nat, w: Option<WorkerId>, lease: nat): (r: Row) {
    Row([1, 2], 1, 0, status, NoPhase, 1, epoch, w, lease, false)
  }

  function Working(w: Option<WorkerId>, lease: nat, five: Row): (t: Table) {
    map[1 := Root(Running, Children), 2 := Middle(Running, Children), 3 := Idle3(Running), 4 := Row4(Running, w, lease),
        5 := five]
  }

  /** Row 5 has failed: with row 4 unheld everything settles, with row 4 held the root still drains. */
  function Broken(w: Option<WorkerId>, lease: nat, five: Row): (t: Table) {
    map[1 := if w.Some? then Root(Failing, Children) else Root(Failed, NoPhase), 2 := Middle(Failed, NoPhase),
        3 := Idle3(Paused), 4 := Row4(if w.Some? then Pausing else Paused, w, lease), 5 := five]
  }

  /** The marks of the failure, and the pause of the rest. */
  function Marked(w: Option<WorkerId>, lease: nat, five: Row, rest: Status, four: Status): (t: Table) {
    map[1 := Root(Failing, Children), 2 := Middle(Failing, Children), 3 := Idle3(rest), 4 := Row4(four, w, lease),
        5 := five]
  }

  lemma MarksTheStack(w: Option<WorkerId>, lease: nat, five: Row)
    requires five.status == Failed && five.stack == [1, 2]
    ensures FailAncestors(Working(w, lease, five), [1, 2]) == Marked(w, lease, five, Running, Running)
  {
  }

  lemma PausesTheRest(w: Option<WorkerId>, lease: nat, five: Row)
    requires five.status == Failed && five.stack == [1, 2] && five.worker.None?
    ensures PauseTree(Marked(w, lease, five, Running, Running), 1)
      == Marked(w, lease, five, Paused, Rest(w))
  {
    var t := Marked(w, lease, five, Running, Running);
    assert !AboveHeld(t, 1, 3) && !AboveHeld(t, 1, 4);
  }

  function Rest(w: Option<WorkerId>): (s: Status) {
    if w.Some? then Pausing else Paused
  }

  /** Row 2 settles over the paused row 3. */
  lemma SettlesMiddle(w: Option<WorkerId>, lease: nat, five: Row)
    requires five.status == Failed && five.stack == [1, 2] && five.spawnTask == 1 && five.parentEpoch == 0
    ensures SettleParent(Marked(w, lease, five, Paused, Rest(w)), 2, 1, 0) == (Middle(Failed, NoPhase), true)
  {
    var t := Marked(w, lease, five, Paused, Rest(w));
    assert InBatch(t[3], 2, 1, 0) && Live(t[3]);
  }

  /** The root settles unless row 4 is still held. */
  lemma SettlesRoot(w: Option<WorkerId>, lease: nat, five: Row, t: Table)
    requires five.status == Failed && five.stack == [1, 2]
    requires t == Marked(w, lease, five, Paused, Rest(w))[2 := Middle(Failed, NoPhase)]
    ensures SettleParent(t, 1, 7, 0) ==
      if w.Some? then (Root(Failing, Children), false) else (Root(Failed, NoPhase), true)
  {
    assert InBatch(t[4], 1, 7, 0) && Live(t[4]);
    assert AnyBusy(t, 1, 7, 0) <==> w.Some?;
  }

  lemma Climbs(w: Option<WorkerId>, lease: nat, five: Row)
    requires five.status == Failed && five.stack == [1, 2] && five.spawnTask == 1 && five.parentEpoch == 0
    ensures SettleUp(Marked(w, lease, five, Paused, Rest(w)), [1, 2], 1, 0) == Broken(w, lease, five)
  {
    var t := Marked(w, lease, five, Paused, Rest(w));
    var t2 := t[2 := Middle(Failed, NoPhase)];
    SettlesMiddle(w, lease, five);
    SettlesRoot(w, lease, five, t2);
    assert [1, 2][..1] == [1] && [1][..0] == [];
    assert SettleUp(t, [1, 2], 1, 0) == SettleUp(t2, [1], 7, 0);
  }

  lemma FailsAndPauses(w: Option<WorkerId>, lease: nat, before: Row, five: Row)
    requires five.status == Failed && five.stack == [1, 2] && five.worker.None?
    ensures FailRows(Working(w, lease, before), 5, five) ==
      Marked(w, lease, five, Paused, Rest(w))
  {
    assert Working(w, lease, before)[5 := five] == Working(w, lease, five);
    assert Poisons(Working(w, lease, before), 1);
    MarksTheStack(w, lease, five);
    PausesTheRest(w, lease, five);
  }

  lemma FiveFails(w: Option<WorkerId>, lease: nat, before: Row, five: Row)
    requires five.status == Failed && five.stack == [1, 2] && five.spawnTask == 1 && five.parentEpoch == 0
    requires five.worker.None?
    ensures StopRows(Working(w, lease, before), 5, five) == Broken(w, lease, five)
  {
    FailsAndPauses(w, lease, before, five);
    Climbs(w, lease, five);
  }

  lemma RevivedKids(t: Table, lease: nat)
    requires t == Broken(None, 0, Row5(Failed, 0, None, lease))
    ensures HasUnfinishedKid(t, 1) && HasBatch(t, 1) && HasUnfinishedKid(t, 2) && HasBatch(t, 2)
    ensures !HasBatch(t, 5) && !HasUnfinishedKid(t, 5)
    ensures Reached(t, 1) && Reached(t, 2) && Reached(t, 5) && !Reached(t, 3) && !Reached(t, 4)
  {
    assert !t[2].superseded && !t[5].superseded && !t[3].superseded && !t[4].superseded;
    assert IsKid(t, 1, 2) && IsKid(t, 2, 5);
    assert ReachedAt(t, 5, 0) && ReachedAt(t, 5, 1) && ReachedAt(t, 2, 0);
  }

  /** The retry that goes first revives the whole tree, row 5 at its next epoch. */
  lemma Revives(lease: nat)
    ensures RetryTable(Broken(None, 0, Row5(Failed, 0, None, lease)), 1, false, {})
      == Some(Working(None, 0, Row5(Running, 1, None, lease)))
  {
    var t := Broken(None, 0, Row5(Failed, 0, None, lease));
    var t' := Working(None, 0, Row5(Running, 1, None, lease));
    RevivedKids(t, lease);
    assert RetryRow(t, 1, 1) == t'[1] && RetryRow(t, 1, 2) == t'[2] && RetryRow(t, 1, 5) == t'[5];
    assert RetryRow(t, 1, 3) == t'[3] && RetryRow(t, 1, 4) == t'[4];
    assert t' == map x | x in t :: RetryRow(t, 1, x);
  }

  // ------------------------------------------------------------------------------------------
  // The run
  // ------------------------------------------------------------------------------------------

  /** Process 1 spawns rows 2 and 4, row 2 spawns rows 3 and 5; row 5 fails and the tree settles; a
      retry revives it; rows 4 and 5 are claimed, and row 5 fails again. */
  function RaceSteps(): (steps: seq<Step>) {
    [DoCreate(1, 7), DoClaim(1, 50), DoWrite(1, 1, Spawn(7, 0, {2, 4})),
     DoClaim(2, 50), DoWrite(2, 1, Spawn(1, 0, {3, 5})),
     DoClaim(5, 50), DoWrite(5, 1, Conclude(Failed, 1, 0, NoPhase)),
     DoRetry(1, false, {}),
     DoClaim(4, 50), DoClaim(5, 51), DoWrite(5, 2, Conclude(Failed, 1, 1, NoPhase))]
  }

  function Spawned(): (t: Table) {
    map[1 := Root(Running, Children), 2 := Row([1], 7, 0, Running, NoPhase, 1, 0, None, 0, false),
        4 := Row4(Running, None, 0)]
  }

  lemma SpawnsFirst(s: Sys)
    requires s == Sys(map[], map[])
    ensures var s1 := Apply(s, RaceSteps()[0]); var s2 := Apply(s1, RaceSteps()[1]);
      && Enabled(s2, RaceSteps()[2]) && Apply(s2, RaceSteps()[2]).rows == Spawned()
  {
    var s1 := Apply(s, RaceSteps()[0]);
    assert s1.rows == map[1 := Row([], NO_TASK, 0, Running, NoPhase, 7, 0, None, 0, false)];
    var s2 := Apply(s1, RaceSteps()[1]);
    assert s2.rows == map[1 := Row([], NO_TASK, 0, Running, NoPhase, 7, 0, Some(50), 1, false)];
    assert s2.memory[(1, 1)] == Snap(50, Running, NoPhase, 7, 0);
    assert [] + [1] == [1];
    assert SpawnRows(s2.rows, 1, 7, 0, {2, 4}, {}) == Spawned();
  }

  /** A claim of an unheld, running row that waits on nothing. */
  lemma Claims(s: Sys, x: Id, w: WorkerId)
    requires x in s.rows && s.rows[x].status == Running && s.rows[x].phase == NoPhase
    ensures var r := s.rows[x]; var s' := Apply(s, DoClaim(x, w)); var e := r.leaseEpoch + 1;
      && s'.rows == s.rows[x := r.(worker := Some(w), leaseEpoch := e)]
      && (x, e) in s'.memory && s'.memory[(x, e)] == Snap(w, Running, NoPhase, r.task, r.taskEpoch)
  {
  }

  lemma SpawnsSecond(s: Sys)
    requires s.rows == Spawned()
    ensures var s1 := Apply(s, RaceSteps()[3]);
      && Enabled(s1, RaceSteps()[4])
      && Apply(s1, RaceSteps()[4]).rows == Working(None, 0, Row5(Running, 0, None, 0))
  {
    Claims(s, 2, 50);
    var s1 := Apply(s, RaceSteps()[3]);
    assert s1.rows == Spawned()[2 := Row([1], 7, 0, Running, NoPhase, 1, 0, Some(50), 1, false)];
    SecondBatch(s1.rows);
  }

  lemma SecondBatch(t: Table)
    requires t == Spawned()[2 := Row([1], 7, 0, Running, NoPhase, 1, 0, Some(50), 1, false)]
    ensures SpawnRows(t, 2, 1, 0, {3, 5}, {}) == Working(None, 0, Row5(Running, 0, None, 0))
  {
    assert [1] + [2] == [1, 2];
  }

  /** Row 5 is claimed and fails. */
  lemma ClaimedFiveFails(s: Sys, w4: Option<WorkerId>, lease4: nat, epoch: nat, lease: nat, worker: WorkerId)
    requires s.rows == Working(w4, lease4, Row5(Running, epoch, None, lease))
    ensures var s1 := Apply(s, DoClaim(5, worker));
      var fail := DoWrite(5, lease + 1, Conclude(Failed, 1, epoch, NoPhase));
      && Enabled(s1, fail) && Apply(s1, fail).rows == Broken(w4, lease4, Row5(Failed, epoch, None, lease + 1))
  {
    Claims(s, 5, worker);
    var s1 := Apply(s, DoClaim(5, worker));
    assert s1.rows == Working(w4, lease4, Row5(Running, epoch, Some(worker), lease + 1));
    HeldFiveFails(s1, w4, lease4, epoch, lease + 1, worker);
  }

  lemma HeldFiveFails(s: Sys, w4: Option<WorkerId>, lease4: nat, epoch: nat, lease: nat, worker: WorkerId)
    requires s.rows == Working(w4, lease4, Row5(Running, epoch, Some(worker), lease))
    requires (5, lease) in s.memory && s.memory[(5, lease)] == Snap(worker, Running, NoPhase, 1, epoch)
    ensures var fail := DoWrite(5, lease, Conclude(Failed, 1, epoch, NoPhase));
      Enabled(s, fail) && Apply(s, fail).rows == Broken(w4, lease4, Row5(Failed, epoch, None, lease))
  {
    WrittenFive(s.rows, w4, lease4, epoch, lease, worker);
    FailAllowed(s, worker, epoch, lease);
    WriteLands(s, lease, Conclude(Failed, 1, epoch, NoPhase), Broken(w4, lease4, Row5(Failed, epoch, None, lease)));
  }

  lemma FailAllowed(s: Sys, worker: WorkerId, epoch: nat, lease: nat)
    requires (5, lease) in s.memory && s.memory[(5, lease)] == Snap(worker, Running, NoPhase, 1, epoch)
    ensures Enabled(s, DoWrite(5, lease, Conclude(Failed, 1, epoch, NoPhase)))
  {
  }

  lemma WrittenFive(t: Table, w4: Option<WorkerId>, lease4: nat, epoch: nat, lease: nat, worker: WorkerId)
    requires t == Working(w4, lease4, Row5(Running, epoch, Some(worker), lease))
    ensures WriteRows(t, 5, Snap(worker, Running, NoPhase, 1, epoch), Conclude(Failed, 1, epoch, NoPhase))
      == Some(Broken(w4, lease4, Row5(Failed, epoch, None, lease)))
  {
    FiveFails(w4, lease4, t[5], Row5(Failed, epoch, None, lease));
    assert UpdateRow(t[5], 1, epoch, Failed, NoPhase) == Row5(Failed, epoch, None, lease);
  }

  lemma WriteLands(s: Sys, lease: nat, o: Outcome, t: Table)
    requires Fenced(s, 5, lease) && WriteRows(s.rows, 5, s.memory[(5, lease)], o) == Some(t)
    ensures Apply(s, DoWrite(5, lease, o)).rows == t
  {
  }

  lemma RetriesFirst(s: Sys)
    requires s.rows == Broken(None, 0, Row5(Failed, 0, None, 1))
    ensures Apply(s, DoRetry(1, false, {})).rows == Working(None, 0, Row5(Running, 1, None, 1))
  {
    Revives(1);
    RetryIsTable(s.rows);
  }

  lemma RetryIsTable(t: Table)
    requires 1 in t && t[1].stack == [] && t[1].status == Failed && RetryTable(t, 1, false, {}).Some?
    ensures Retry(t, 1, false, {}).0 == RetryTable(t, 1, false, {}).value
  {
  }

  lemma ClaimsFour(s: Sys)
    requires s.rows == Working(None, 0, Row5(Running, 1, None, 1))
    ensures Apply(s, DoClaim(4, 50)).rows == Working(Some(50), 1, Row5(Running, 1, None, 1))
  {
  }

  /** Each state is the one before with the step applied. */
  ghost predicate Follows(states: seq<Sys>) {
    && |states| == |RaceSteps()| + 1 && states[0] == Sys(map[], map[])
    && forall i {:trigger RaceSteps()[i]} ::
      0 <= i < |RaceSteps()| ==> states[i + 1] == Apply(states[i], RaceSteps()[i])
  }

  lemma UpToTheFailure(states: seq<Sys>)
    requires Follows(states)
    ensures states[7].rows == Broken(None, 0, Row5(Failed, 0, None, 1))
    ensures Enabled(states[2], RaceSteps()[2]) && Enabled(states[4], RaceSteps()[4])
    ensures Enabled(states[6], RaceSteps()[6])
  {
    var st := RaceSteps();
    assert states[1] == Apply(states[0], st[0]) && states[2] == Apply(states[1], st[1]) &&
      states[3] == Apply(states[2], st[2]);
    SpawnsFirst(states[0]);
    assert states[4] == Apply(states[3], st[3]) && states[5] == Apply(states[4], st[4]);
    SpawnsSecond(states[3]);
    assert states[6] == Apply(states[5], st[5]) && states[7] == Apply(states[6], st[6]);
    ClaimedFiveFails(states[5], None, 0, 0, 0, 50);
  }

  lemma FailsAgain(states: seq<Sys>)
    requires Follows(states) && states[7].rows == Broken(None, 0, Row5(Failed, 0, None, 1))
    ensures states[11].rows == Broken(Some(50), 1, Row5(Failed, 1, None, 2)) && Enabled(states[10], RaceSteps()[10])
  {
    var st := RaceSteps();
    assert states[8] == Apply(states[7], st[7]);
    RetriesFirst(states[7]);
    assert states[9] == Apply(states[8], st[8]);
    ClaimsFour(states[8]);
    assert states[10] == Apply(states[9], st[9]) && states[11] == Apply(states[10], st[10]);
    ClaimedFiveFails(states[9], Some(50), 1, 1, 1, 51);
  }

  lemma StepsAllowed(states: seq<Sys>)
    requires Follows(states) && Enabled(states[2], RaceSteps()[2]) && Enabled(states[4], RaceSteps()[4])
    requires Enabled(states[6], RaceSteps()[6]) && Enabled(states[10], RaceSteps()[10])
    ensures IsRun(states, RaceSteps())
  {
    forall i | 0 <= i < |RaceSteps()|
      ensures Enabled(states[i], RaceSteps()[i]) && states[i + 1] == Apply(states[i], RaceSteps()[i])
    {
      assert i != 2 && i != 4 && i != 6 && i != 10 ==> !RaceSteps()[i].DoWrite?;
    }
  }

  lemma StaleLanding(t: Table)
    requires t == Broken(Some(50), 1, Row5(Failed, 1, None, 2))
    ensures RetryTable(t, 1, false, {}).Some?
    ensures var t' := RetryTable(t, 1, false, {}).value;
      2 in t' && 3 in t' && t'[2].status == Failed && 2 in t'[3].stack && Busy(t'[3].status)
  {
    StaleRetry(t, 1, false, {});
  }

  /** Two retries overlap.  The second reads its root failed in state 7; by state 11 the first has
      revived the tree and it is failing again.  Its transaction, run then, leaves row 3 running
      below row 2, which has failed: what no run of whole verbs can do. */
  lemma StaleRetryBreaksDrain() returns (states: seq<Sys>)
    ensures IsRun(states, RaceSteps())
    ensures 1 in states[7].rows && states[7].rows[1].status == Failed
    ensures 1 in states[11].rows && states[11].rows[1].status == Failing
    ensures RetryTable(states[11].rows, 1, false, {}).Some?
    ensures var t := RetryTable(states[11].rows, 1, false, {}).value;
      2 in t && 3 in t && t[2].status == Failed && 2 in t[3].stack && Busy(t[3].status)
  {
    states := Race();
    StaleLanding(states[11].rows);
  }

  lemma Race() returns (states: seq<Sys>)
    ensures IsRun(states, RaceSteps())
    ensures states[7].rows == Broken(None, 0, Row5(Failed, 0, None, 1))
    ensures states[11].rows == Broken(Some(50), 1, Row5(Failed, 1, None, 2))
  {
    states := RunFrom((s: Sys, step: Step) => Apply(s, step), Sys(map[], map[]), RaceSteps());
    UpToTheFailure(states);
    FailsAgain(states);
    StepsAllowed(states);
  }
}
