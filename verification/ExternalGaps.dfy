/**
 Three runs in which the external protocol does not keep what it is meant to keep; ReparkExact,
 MisparkExact and CarriedExact say exactly when each can happen.
 */
module ExternalGaps {

  import opened Wrappers
  import opened Statuses
  import opened External
  import opened ExternalRuns
  import opened ExternalLoss

  /** A running instance at task 1, entered for the first time. */
  function Created(): (c: Cell) {
    Cell(Core(Row(Running, NoPhase, 1, 1, None, false, None, 0, 0, None, 0, 0), [], 0), map[], [], [], [], None, false,
         false, false)
  }

  /** Task 1 waits on an external answer, and is only_once. */
  const WAIT: Def := Def({1}, {1})

  /** Claimed by worker 7 and parked with its deadline at 5. */
  function ParkSteps(): (steps: seq<Step>) {
    [DoClaim(7, 0, 0, 10), DoPeek(1, 1, 1), DoArm(1, Some(5))]
  }

  lemma ParkedState(d: Def)
    requires 1 in d.external
    ensures var c := Apply(d, Apply(d, Apply(d, Created(), DoClaim(7, 0, 0, 10)), DoPeek(1, 1, 1)), DoArm(1, Some(5)));
      && c.core == Core(Row(Running, Parked, 1, 1, Some(5), false, None, 10, 1, None, 0, 0), [], 0)
      && c.accepted == [] && c.armed == Some(1)
  {
    var c1 := Apply(d, Created(), DoClaim(7, 0, 0, 10));
    assert c1.memory[1] == Inst(7, false, Running, NoPhase, 1, 1, None, false, NotYet);
    var c2 := Apply(d, c1, DoPeek(1, 1, 1));
    assert c2.memory[1].peek == Nothing(1, 1);
  }

  /** The deadline fires and worker 7 takes the row; a pause lands while it is held; the lease
      lapses, worker 8 takes over and stalls in turn; an answer comes in and un-parks the row; then
      worker 8 lands the pause, and a second answer to the same token is accepted. */
  function ReparkSteps(): (steps: seq<Step>) {
    ParkSteps() +
    [DoClaim(7, 5, 0, 20), DoVerb(Pausing, false), DoClaim(8, 30, 30, 40),
     DoResolve(1, Unclaimed, 100, 50), DoSettle(3), DoResolve(1, Unclaimed, 200, 51)]
  }

  lemma HeldTwice(d: Def, c: Cell)
    requires c.core == Core(Row(Running, Parked, 1, 1, Some(5), false, None, 10, 1, None, 0, 0), [], 0)
    ensures var c' := Apply(d, Apply(d, Apply(d, c, DoClaim(7, 5, 0, 20)), DoVerb(Pausing, false)),
                            DoClaim(8, 30, 30, 40));
      && c'.core == Core(Row(Pausing, Parked, 1, 1, Some(5), false, Some(8), 40, 3, None, 0, 0), [], 0)
      && c'.accepted == c.accepted
      && 3 in c'.memory && c'.memory[3] == Inst(8, true, Pausing, Parked, 1, 1, Some(5), false, NotYet)
  {
    var c1 := Apply(d, c, DoClaim(7, 5, 0, 20));
    assert c1.core.row == Row(Running, Parked, 1, 1, Some(5), false, Some(7), 20, 2, None, 0, 0);
    var c2 := Apply(d, c1, DoVerb(Pausing, false));
    assert c2.core.row == Row(Pausing, Parked, 1, 1, Some(5), false, Some(7), 20, 2, None, 0, 0);
  }

  lemma AnsweredTwice(d: Def, c: Cell)
    requires c.core == Core(Row(Pausing, Parked, 1, 1, Some(5), false, Some(8), 40, 3, None, 0, 0), [], 0)
    requires c.accepted == [] && 3 in c.memory && 1 !in d.onlyOnce
    requires c.memory[3] == Inst(8, true, Pausing, Parked, 1, 1, Some(5), false, NotYet)
    ensures Apply(d, Apply(d, Apply(d, c, DoResolve(1, Unclaimed, 100, 50)), DoSettle(3)),
                  DoResolve(1, Unclaimed, 200, 51)).accepted == [1, 1]
  {
    var c1 := Apply(d, c, DoResolve(1, Unclaimed, 100, 50));
    assert c1.core.row.phase == NoPhase && c1.accepted == [1];
    var c2 := Apply(d, c1, DoSettle(3));
    assert c2.core.row == Row(Paused, Parked, 1, 1, Some(5), false, None, 40, 3, None, 0, 0);
  }

  /** One parking, two accepted resolves. */
  lemma ParkAnsweredTwice() returns (states: seq<Cell>)
    ensures IsRun(Def({1}, {}), states, ReparkSteps())
    ensures states[9].accepted == [1, 1]
  {
    var d, st := Def({1}, {}), ReparkSteps();
    states := RunFrom((c: Cell, step: Step) => Apply(d, c, step), Created(), st);
    ParkedState(d);
    assert states[3] == Apply(d, Apply(d, Apply(d, states[0], st[0]), st[1]), st[2]);
    HeldTwice(d, states[3]);
    assert states[6] == Apply(d, Apply(d, Apply(d, states[3], st[3]), st[4]), st[5]);
    AnsweredTwice(d, states[6]);
    assert states[9] == Apply(d, Apply(d, Apply(d, states[6], st[6]), st[7]), st[8]);
  }

  /** The deadline of an only_once wait fires, the worker that took it crashes, and the one that
      takes over resolves the interruption by routing to task 2. */
  function MisrouteSteps(): (steps: seq<Step>) {
    ParkSteps() + [DoClaim(7, 5, 0, 10), DoClaim(8, 20, 20, 30), DoInterrupted(3, Goto(2, 1, None))]
  }

  lemma Misrouted(c: Cell)
    requires c.core == Core(Row(Running, Parked, 1, 1, Some(5), false, None, 10, 1, None, 0, 0), [], 0)
    ensures var d := WAIT;
      Apply(d, Apply(d, Apply(d, c, DoClaim(7, 5, 0, 10)), DoClaim(8, 20, 20, 30)),
            DoInterrupted(3, Goto(2, 1, None))).core.row
      == Row(Running, Parked, 2, 2, None, false, None, 30, 3, None, 0, 0)
  {
    var d := WAIT;
    var c1 := Apply(d, c, DoClaim(7, 5, 0, 10));
    assert c1.core.row == Row(Running, Parked, 1, 1, Some(5), false, Some(7), 10, 2, None, 0, 0);
    var c2 := Apply(d, c1, DoClaim(8, 20, 20, 30));
    assert c2.memory[3] == Inst(8, true, Running, Parked, 1, 1, Some(5), false, NotYet);
  }

  /** The row waits at a task that is not external, and no engine claim will ever take it. */
  lemma RoutedYetParked() returns (states: seq<Cell>)
    ensures IsRun(WAIT, states, MisrouteSteps())
    ensures var r := states[6].core.row;
      r.task !in WAIT.external && r.status.Running? && forall now, cutoff :: !EngineClaimable(r, now, cutoff)
  {
    var d, st := WAIT, MisrouteSteps();
    states := RunFrom((c: Cell, step: Step) => Apply(d, c, step), Created(), st);
    ParkedState(d);
    assert states[3] == Apply(d, Apply(d, Apply(d, states[0], st[0]), st[1]), st[2]);
    Misrouted(states[3]);
    assert states[6] == Apply(d, Apply(d, Apply(d, states[3], st[3]), st[4]), st[5]);
  }

  /** Tasks 1 and 2 wait on external answers, and task 1 is only_once. */
  const CHAIN: Def := Def({1, 2}, {1})

  /** The claim on task 1 lapses, and the next claim marks the loss instead of handing it out; a late
      answer un-parks the row all the same; the worker that takes it crashes, and the one that takes
      over resolves the interruption by routing to task 2, which is armed with a deadline of its own. */
  function CarrySteps(): (steps: seq<Step>) {
    ParkSteps() +
    [DoQueueClaim(9, 1, 2), DoQueueClaim(10, 3, 13), DoMarkLost(1, 3), DoDeliver(1, 100, 4),
     DoClaim(7, 5, 5, 6), DoClaim(8, 7, 7, 8), DoInterrupted(3, Goto(2, 1, None)),
     DoClaim(8, 9, 9, 20), DoPeek(4, 2, 2), DoArm(4, Some(30))]
  }

  lemma LossMarked(c: Cell)
    requires c.core == Core(Row(Running, Parked, 1, 1, Some(5), false, None, 10, 1, None, 0, 0), [], 0)
    ensures var d := CHAIN;
      Apply(d, Apply(d, Apply(d, c, DoQueueClaim(9, 1, 2)), DoQueueClaim(10, 3, 13)), DoMarkLost(1, 3)).core
      == Core(Row(Running, Parked, 1, 1, Some(3), true, None, 10, 1, None, 13, 3), [], 0)
  {
    var d := CHAIN;
    var c1 := Apply(d, c, DoQueueClaim(9, 1, 2));
    assert c1.core.row == Row(Running, Parked, 1, 1, Some(5), false, None, 10, 1, Some(9), 2, 1);
    var c2 := Apply(d, c1, DoQueueClaim(10, 3, 13));
    assert c2.core.row == Row(Running, Parked, 1, 1, Some(5), false, None, 10, 1, Some(10), 13, 2);
  }

  lemma LateAnswer(c: Cell)
    requires c.core == Core(Row(Running, Parked, 1, 1, Some(3), true, None, 10, 1, None, 13, 3), [], 0)
    ensures Apply(CHAIN, c, DoDeliver(1, 100, 4)).core
      == Core(Row(Running, NoPhase, 1, 1, None, true, None, 10, 1, None, 13, 3), [Signal(0, 1, 100)], 1)
  {
  }

  lemma CarriedOver(c: Cell)
    requires c.core == Core(Row(Running, NoPhase, 1, 1, None, true, None, 10, 1, None, 13, 3), [Signal(0, 1, 100)], 1)
    ensures var d := CHAIN;
      Apply(d, Apply(d, Apply(d, c, DoClaim(7, 5, 5, 6)), DoClaim(8, 7, 7, 8)), DoInterrupted(3, Goto(2, 1, None))).core
      == Core(Row(Running, NoPhase, 2, 2, None, true, None, 8, 3, None, 13, 3), [Signal(0, 1, 100)], 1)
  {
    var d := CHAIN;
    var c1 := Apply(d, c, DoClaim(7, 5, 5, 6));
    assert c1.core.row == Row(Running, NoPhase, 1, 1, None, true, Some(7), 6, 2, None, 13, 3);
    var c2 := Apply(d, c1, DoClaim(8, 7, 7, 8));
    assert c2.memory[3] == Inst(8, true, Running, NoPhase, 1, 1, None, true, NotYet);
  }

  lemma ArmedLost(c: Cell)
    requires c.core == Core(Row(Running, NoPhase, 2, 2, None, true, None, 8, 3, None, 13, 3), [Signal(0, 1, 100)], 1)
    ensures var d := CHAIN;
      Apply(d, Apply(d, Apply(d, c, DoClaim(8, 9, 9, 20)), DoPeek(4, 2, 2)), DoArm(4, Some(30))).core.row
      == Row(Running, Parked, 2, 2, Some(30), true, None, 20, 4, None, 13, 3)
  {
    var d := CHAIN;
    var c1 := Apply(d, c, DoClaim(8, 9, 9, 20));
    assert c1.memory[4] == Inst(8, false, Running, NoPhase, 2, 2, None, true, NotYet);
    var c2 := Apply(d, c1, DoPeek(4, 2, 2));
    assert Of([Signal(0, 1, 100)], 2) == Of([], 2);
    assert c2.memory[4].peek == Nothing(2, 2);
  }

  lemma CarryToTen(states: seq<Cell>)
    requires IsRun(CHAIN, states, CarrySteps()) && states[0] == Created()
    ensures states[10].core == Core(Row(Running, NoPhase, 2, 2, None, true, None, 8, 3, None, 13, 3),
                                    [Signal(0, 1, 100)], 1)
  {
    var d, st := CHAIN, CarrySteps();
    ParkedState(d);
    assert states[3] == Apply(d, Apply(d, Apply(d, states[0], st[0]), st[1]), st[2]);
    LossMarked(states[3]);
    assert states[6] == Apply(d, Apply(d, Apply(d, states[3], st[3]), st[4]), st[5]);
    LateAnswer(states[6]);
    assert states[7] == Apply(d, states[6], st[6]);
    CarriedOver(states[7]);
    assert states[10] == Apply(d, Apply(d, Apply(d, states[7], st[7]), st[8]), st[9]);
  }

  lemma CarryToEnd(states: seq<Cell>)
    requires IsRun(CHAIN, states, CarrySteps()) && states[0] == Created()
    ensures states[13].core.row == Row(Running, Parked, 2, 2, Some(30), true, None, 20, 4, None, 13, 3)
  {
    var d, st := CHAIN, CarrySteps();
    CarryToTen(states);
    ArmedLost(states[10]);
    assert states[13] == Apply(d, Apply(d, Apply(d, states[10], st[10]), st[11]), st[12]);
  }

  /** Task 2 was never claimed, let alone lost; yet its deadline, once passed, is reported as the loss of
      a holder. */
  lemma LossCarried() returns (states: seq<Cell>)
    ensures IsRun(CHAIN, states, CarrySteps())
    ensures var r := states[13].core.row;
      && r.phase == Parked && r.task == 2 && EngineClaimable(r, 30, 30)
      && !LossAt(states, CarrySteps(), 13, r.taskEpoch)
      && forall w :: LookOf(Load(r, w).phase, Load(r, w).lost, None) == HolderLost
  {
    states := RunFrom((c: Cell, step: Step) => Apply(CHAIN, c, step), Created(), CarrySteps());
    CarryToEnd(states);
    OneMark(states, CarrySteps());
  }

  lemma OneMark(states: seq<Cell>, steps: seq<Step>)
    requires steps == CarrySteps() && |states| == |steps| + 1
    ensures !LossAt(states, steps, 13, 2)
  {
    forall m | 0 <= m < 13 && MarksLoss(states, steps, m)
      ensures states[m].core.row.taskEpoch == 1
    {
      assert m == 5;
    }
  }
}
