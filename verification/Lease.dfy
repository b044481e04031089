/**
 Lease fencing and only_once: workers claim rows under an epoch, renew, stall, are taken over,
 and write through a fence on (lease_epoch, worker_id).  A claimed instance runs one advance,
 which may start one action.
 */
module Lease {

  import opened Wrappers

  type Id = nat
  type WorkerId = nat

  // ------------------------------------------------------------------------------------------
  // One advance
  // ------------------------------------------------------------------------------------------

  datatype Task = Task(call: bool, onlyOnce: bool)

  /** Where a task's switch routes control once its action, if any, has answered. */
  datatype Route = Goto(to: int) | End | Fault

  /** How an action that is started answers: the switch is next; or the advance ends at its task, which
      waits, is to be tried again, or concludes; or an error rule routes to another task. */
  datatype Answer = Continues | Stays | Handled(to: int)

  /** How the advance ends: the actions it started, and the task its write will name. */
  datatype Report = Report(started: seq<int>, task: int)

  const MAX_INLINE_TASKS := 1000

  predicate InList(def: seq<Task>, task: int) {
    0 <= task < |def|
  }

  /** The task index is -1 for an instance that has run off the end of its list. */
  function TaskAt(def: seq<Task>, task: int): (at: int) {
    if InList(def, task) then task else -1
  }

  predicate OnlyOnceAction(def: seq<Task>, task: int) {
    InList(def, task) && def[task].call && def[task].onlyOnce
  }

  /** Where an action that does not go on leaves the instance; a rule that names no task of the list
      fails it where it is. */
  function AfterError(def: seq<Task>, task: int, answer: Answer): (at: int) {
    if answer.Handled? && InList(def, answer.to) then answer.to else task
  }

  /** The task loop from task `task`, having moved `i` times already.  `answer` is what an action that
      is started answers; `route` answers the switches. */
  function TaskLoop(def: seq<Task>, task: int, i: nat, answer: Answer, route: nat -> Route): (r: Report)
    requires i <= MAX_INLINE_TASKS
    decreases MAX_INLINE_TASKS - i
  {
    if !InList(def, task) then Report([], -1)
    else if i > 0 && OnlyOnceAction(def, task) then Report([], task)
    else
      var started := if def[task].call then [task] else [];
      if def[task].call && !answer.Continues? then Report(started, AfterError(def, task, answer))
      else match route(i)
        case End => Report(started, task)
        case Fault => Report(started, task)
        case Goto(to) =>
          if def[task].call || i >= MAX_INLINE_TASKS then Report(started, TaskAt(def, to))
          else TaskLoop(def, to, i + 1, answer, route)
  }

  datatype Mode = Running | Pausing | Cancelling | Stopped

  /** A claimed instance as the advance finds it, and what its advance reported once it has run. */
  datatype Inst = Inst(worker: WorkerId, task: int, status: Mode, reclaimed: bool, born: nat, ran: Option<Report>)

  /** The whole advance: a cancel lands first, then the verdict on an interrupted only_once task, then
      a pause, then the loop. */
  function Advance(def: seq<Task>, inst: Inst, answer: Answer, route: nat -> Route): (r: Report) {
    if inst.status.Cancelling? || inst.status.Stopped? then Report([], inst.task)
    else if inst.reclaimed && OnlyOnceAction(def, inst.task) then Report([], AfterError(def, inst.task, answer))
    else if inst.status.Pausing? then Report([], inst.task)
    else TaskLoop(def, inst.task, 0, answer, route)
  }

  /** The loop as the engine runs it. */
  method RunTaskLoop(def: seq<Task>, first: int, answer: Answer, route: nat -> Route) returns (r: Report)
    ensures r == TaskLoop(def, first, 0, answer, route)
  {
    var task, i := first, 0;
    while true
      invariant 0 <= i <= MAX_INLINE_TASKS
      invariant TaskLoop(def, task, i, answer, route) == TaskLoop(def, first, 0, answer, route)
      decreases MAX_INLINE_TASKS - i
    {
      if task < 0 || task >= |def| {
        return Report([], -1);
      }
      var hasCall := def[task].call;
      if hasCall && i > 0 && def[task].onlyOnce {
        return Report([], task);
      }
      var started := [];
      if hasCall {
        started := [task];
        if !answer.Continues? {
          return Report(started, AfterError(def, task, answer));
        }
      }
      match route(i) {
        case End => return Report(started, task);
        case Fault => return Report(started, task);
        case Goto(to) =>
          if hasCall || i >= MAX_INLINE_TASKS {
            return Report(started, TaskAt(def, to));
          }
          task, i := to, i + 1;
      }
    }
  }

  /** The tasks an advance goes through: each the one the switch of the task before routed to, none but
      the last with an action, and at most a thousand moves. */
  ghost predicate IsPath(def: seq<Task>, path: seq<int>, first: int, route: nat -> Route) {
    && 0 < |path| <= MAX_INLINE_TASKS + 1 && path[0] == first
    && forall k {:trigger MovesOn(def, path, route, k)} :: 0 <= k < |path| - 1 ==> MovesOn(def, path, route, k)
  }

  predicate MovesOn(def: seq<Task>, path: seq<int>, route: nat -> Route, k: nat)
    requires k + 1 < |path|
  {
    InList(def, path[k]) && !def[path[k]].call && route(k) == Goto(path[k + 1])
  }

  /** The end of the path is where the loop stops, and where it leaves the instance: off the list; before
      an only_once action the row does not name yet; at the task whose action answered for it, or where
      the error rule sent it; at the task that ended or faulted; or, after an action or a thousand
      moves, at the task its switch routed to. */
  ghost predicate EndsPath(def: seq<Task>, path: seq<int>, answer: Answer, route: nat -> Route, r: Report)
    requires path != []
  {
    var n := |path| - 1;
    var last := path[n];
    if !InList(def, last) then r == Report([], -1)
    else if n > 0 && def[last].call && def[last].onlyOnce then r == Report([], last)
    else
      && r.started == (if def[last].call then [last] else [])
      && if def[last].call && answer.Stays? then r.task == last
         else if def[last].call && answer.Handled?
         then r.task == if InList(def, answer.to) then answer.to else last
         else
           && (route(n).Goto? ==>
                 && (def[last].call || n == MAX_INLINE_TASKS)
                 && r.task == if InList(def, route(n).to) then route(n).to else -1)
           && (!route(n).Goto? ==> r.task == last)
  }

  lemma PathGrows(def: seq<Task>, path: seq<int>, to: int, first: int, route: nat -> Route)
    requires IsPath(def, path, first, route) && |path| <= MAX_INLINE_TASKS
    requires var n := |path| - 1; InList(def, path[n]) && !def[path[n]].call && route(n) == Goto(to)
    ensures IsPath(def, path + [to], first, route)
  {
    var next := path + [to];
    forall k | 0 <= k < |next| - 1
      ensures MovesOn(def, next, route, k)
    {
      assert k < |path| - 1 ==> MovesOn(def, path, route, k);
    }
  }

  /** Following the routes: the loop reports exactly where the path of its switches stands. */
  lemma {:induction false} LoopFollows(def: seq<Task>, before: seq<int>, task: int, first: int, answer: Answer,
                                       route: nat -> Route)
    returns (path: seq<int>)
    requires IsPath(def, before + [task], first, route)
    ensures IsPath(def, path, first, route)
    ensures EndsPath(def, path, answer, route, TaskLoop(def, task, |before|, answer, route))
    decreases MAX_INLINE_TASKS - |before|
  {
    var i := |before|;
    path := before + [task];
    if InList(def, task) && !def[task].call && route(i).Goto? && i < MAX_INLINE_TASKS {
      PathGrows(def, path, route(i).to, first, route);
      path := LoopFollows(def, path, route(i).to, first, answer, route);
    }
  }

  /** A running instance claimed without an interrupted action goes where its routes lead. */
  lemma AdvanceFollows(def: seq<Task>, inst: Inst, answer: Answer, route: nat -> Route) returns (path: seq<int>)
    requires inst.status.Running? && !(inst.reclaimed && OnlyOnceAction(def, inst.task))
    ensures IsPath(def, path, inst.task, route)
    ensures EndsPath(def, path, answer, route, Advance(def, inst, answer, route))
  {
    path := LoopFollows(def, [], inst.task, inst.task, answer, route);
  }

  /** There is one such path: the routes leave the loop no choice. */
  lemma {:induction false} PathUnique(def: seq<Task>, p: seq<int>, q: seq<int>, first: int, route: nat -> Route, k: nat)
    requires IsPath(def, p, first, route) && IsPath(def, q, first, route) && k < |p| && k < |q|
    ensures p[k] == q[k]
  {
    if k > 0 {
      PathUnique(def, p, q, first, route, k - 1);
      assert MovesOn(def, p, route, k - 1) && MovesOn(def, q, route, k - 1);
    }
  }

  /** No advance starts more than one action, and the only only_once action it may start is the
      one its row named when it was claimed. */
  lemma LoopStarts(def: seq<Task>, task: int, i: nat, answer: Answer, route: nat -> Route)
    requires i <= MAX_INLINE_TASKS
    ensures var r := TaskLoop(def, task, i, answer, route);
      && |r.started| <= 1
      && (forall k :: k in r.started ==> 0 <= k < |def| && def[k].call)
      && (forall k :: k in r.started && OnlyOnceAction(def, k) ==> i == 0 && k == task)
    decreases MAX_INLINE_TASKS - i
  {
    if 0 <= task < |def| && route(i).Goto? && i < MAX_INLINE_TASKS {
      LoopStarts(def, route(i).to, i + 1, answer, route);
    }
  }

  lemma AdvanceStarts(def: seq<Task>, inst: Inst, answer: Answer, route: nat -> Route)
    ensures var r := Advance(def, inst, answer, route);
      && |r.started| <= 1
      && (forall k :: k in r.started && OnlyOnceAction(def, k) ==>
            k == inst.task && !inst.reclaimed && inst.status.Running?)
  {
    LoopStarts(def, inst.task, 0, answer, route);
  }

  // ------------------------------------------------------------------------------------------
  // The state machine
  // ------------------------------------------------------------------------------------------

  /** `landed` counts the engine writes that have landed on the row. */
  datatype Row = Row(worker: Option<WorkerId>, expires: int, epoch: nat, task: int, status: Mode, landed: nat)

  /** An action that started: under which grant, how many writes had landed when the grant was
      issued and when the action began, and whether the grant was still the row's by then. */
  datatype Start = Start(x: Id, epoch: nat, born: nat, at: nat, current: bool, onlyOnce: bool)

  datatype Sys = Sys(
    rows: map<Id, Row>,
    memory: map<(Id, nat), Inst>,
    starts: seq<Start>,
    writes: seq<(Id, nat)>)

  datatype Step =
    | DoCreate(x: Id, task: int)
    | DoClaim(x: Id, worker: WorkerId, cutoff: int, expiry: int)
    | DoRenew(worker: WorkerId, ids: set<Id>, expiry: int)
    | DoRun(x: Id, epoch: nat, answer: Answer, route: nat -> Route)
    | DoWrite(x: Id, epoch: nat, status: Mode)
    | DoStatus(x: Id, status: Mode)

  /** A row the claim may grant: runnable, and unheld or expired as of the cutoff. */
  predicate Claimable(r: Row, cutoff: int) {
    !r.status.Stopped? && (r.worker.None? || r.expires <= cutoff)
  }

  predicate Fenced(s: Sys, x: Id, epoch: nat) {
    && x in s.rows && (x, epoch) in s.memory
    && s.rows[x].epoch == epoch && s.rows[x].worker == Some(s.memory[(x, epoch)].worker)
  }

  function RenewRow(r: Row, x: Id, worker: WorkerId, ids: set<Id>, expiry: int): (r': Row) {
    if x in ids && r.worker == Some(worker) && r.expires < expiry then r.(expires := expiry) else r
  }

  function RenewAll(rows: map<Id, Row>, worker: WorkerId, ids: set<Id>, expiry: int): (rows': map<Id, Row>) {
    map x | x in rows :: RenewRow(rows[x], x, worker, ids, expiry)
  }

  function StartsOf(s: Sys, def: seq<Task>, x: Id, epoch: nat, started: seq<int>): (st: seq<Start>)
    requires x in s.rows && (x, epoch) in s.memory
  {
    if started == [] then []
    else [Start(x, epoch, s.memory[(x, epoch)].born, s.rows[x].landed, Fenced(s, x, epoch),
                OnlyOnceAction(def, started[0]))]
  }

  /** The task a write names: the one its advance reported, or the claimed one if it never got that far. */
  function NamedTask(inst: Inst): (task: int) {
    if inst.ran.Some? then inst.ran.value.task else inst.task
  }

  function Apply(def: seq<Task>, s: Sys, step: Step): (s': Sys) {
    match step
    case DoCreate(x, task) =>
      if x in s.rows then s else s.(rows := s.rows[x := Row(None, 0, 0, task, Running, 0)])
    case DoClaim(x, w, cutoff, expiry) =>
      if x !in s.rows || !Claimable(s.rows[x], cutoff) then s
      else
        var r := s.rows[x];
        s.(rows := s.rows[x := r.(worker := Some(w), expires := expiry, epoch := r.epoch + 1)],
           memory := s.memory[(x, r.epoch + 1) := Inst(w, r.task, r.status, r.worker.Some?, r.landed, None)])
    case DoRenew(w, ids, expiry) => s.(rows := RenewAll(s.rows, w, ids, expiry))
    case DoRun(x, epoch, answer, route) =>
      if x !in s.rows || (x, epoch) !in s.memory || s.memory[(x, epoch)].ran.Some? then s
      else
        var r := Advance(def, s.memory[(x, epoch)], answer, route);
        s.(memory := s.memory[(x, epoch) := s.memory[(x, epoch)].(ran := Some(r))],
           starts := s.starts + StartsOf(s, def, x, epoch, r.started))
    case DoWrite(x, epoch, status) =>
      if !Fenced(s, x, epoch) then s
      else
        var r, task := s.rows[x], NamedTask(s.memory[(x, epoch)]);
        s.(rows := s.rows[x := r.(worker := None, task := task, status := status, landed := r.landed + 1)],
           writes := s.writes + [(x, epoch)])
    case DoStatus(x, status) =>
      if x !in s.rows then s
      else s.(rows := s.rows[x := s.rows[x].(status := status)])
  }

  // ------------------------------------------------------------------------------------------
  // The invariant
  // ------------------------------------------------------------------------------------------

  /** Every grant ever issued on a row, against the row as it is. */
  ghost predicate GrantOk(s: Sys, x: Id, e: nat)
    requires (x, e) in s.memory
  {
    && x in s.rows && e <= s.rows[x].epoch && s.memory[(x, e)].born <= s.rows[x].landed
    && (s.memory[(x, e)].born == s.rows[x].landed ==> s.rows[x].worker.Some?)
  }

  ghost predicate HolderOk(s: Sys, x: Id)
    requires x in s.rows
  {
    s.rows[x].worker.Some? ==>
      && (x, s.rows[x].epoch) in s.memory
      && s.memory[(x, s.rows[x].epoch)].worker == s.rows[x].worker.value
      && s.memory[(x, s.rows[x].epoch)].born == s.rows[x].landed
      && s.memory[(x, s.rows[x].epoch)].task == s.rows[x].task
  }

  /** Of two grants issued between the same two landed writes, the later saw a takeover. */
  ghost predicate LaterReclaimed(s: Sys, x: Id, e: nat, f: nat)
    requires (x, e) in s.memory && (x, f) in s.memory
  {
    e < f && s.memory[(x, e)].born == s.memory[(x, f)].born ==> s.memory[(x, f)].reclaimed
  }

  ghost predicate StartOk(s: Sys, st: Start) {
    && (st.x, st.epoch) in s.memory && s.memory[(st.x, st.epoch)].ran.Some?
    && st.born == s.memory[(st.x, st.epoch)].born
    && (st.current ==> st.at == st.born)
    && (st.onlyOnce ==> !s.memory[(st.x, st.epoch)].reclaimed)
  }

  ghost predicate Spent(s: Sys, x: Id, e: nat) {
    x in s.rows && (e < s.rows[x].epoch || (e == s.rows[x].epoch && s.rows[x].worker.None?))
  }

  ghost predicate Grants(s: Sys) {
    && (forall x, e {:trigger GrantOk(s, x, e)} :: (x, e) in s.memory ==> GrantOk(s, x, e))
    && (forall x {:trigger HolderOk(s, x)} :: x in s.rows ==> HolderOk(s, x))
    && (forall x, e, f {:trigger LaterReclaimed(s, x, e, f)} ::
          (x, e) in s.memory && (x, f) in s.memory ==> LaterReclaimed(s, x, e, f))
  }

  ghost predicate Logs(s: Sys) {
    && (forall i :: 0 <= i < |s.starts| ==> StartOk(s, s.starts[i]))
    && (forall i, j :: 0 <= i < j < |s.starts| ==>
          (s.starts[i].x, s.starts[i].epoch) != (s.starts[j].x, s.starts[j].epoch))
    && (forall i :: 0 <= i < |s.writes| ==> Spent(s, s.writes[i].0, s.writes[i].1))
    && (forall i, j :: 0 <= i < j < |s.writes| ==> s.writes[i] != s.writes[j])
  }

  ghost predicate Inv(s: Sys) {
    Grants(s) && Logs(s)
  }

  lemma ClaimGrants(def: seq<Task>, s: Sys, x: Id, w: WorkerId, cutoff: int, expiry: int)
    requires Inv(s)
    ensures Grants(Apply(def, s, DoClaim(x, w, cutoff, expiry)))
  {
    var s' := Apply(def, s, DoClaim(x, w, cutoff, expiry));
    if x in s.rows && Claimable(s.rows[x], cutoff) {
      assert HolderOk(s, x);
      forall y, e | (y, e) in s'.memory
        ensures GrantOk(s', y, e)
      {
        assert (y, e) in s.memory ==> GrantOk(s, y, e);
      }
      forall y, e, f | (y, e) in s'.memory && (y, f) in s'.memory
        ensures LaterReclaimed(s', y, e, f)
      {
        if (y, e) in s.memory {
          assert GrantOk(s, y, e);
          assert (y, f) in s.memory ==> LaterReclaimed(s, y, e, f) && GrantOk(s, y, f);
        }
      }
      forall y | y in s'.rows
        ensures HolderOk(s', y)
      {
        assert HolderOk(s, y);
      }
    }
  }

  /** A step that moves no grant: the memory is as it was, up to which advances have run, and rows
      only lose their holder by landing a write. */
  ghost predicate Quiet(s: Sys, s': Sys) {
    && s'.memory.Keys == s.memory.Keys && s.rows.Keys <= s'.rows.Keys
    && (forall k {:trigger s'.memory[k]} :: k in s.memory ==> s'.memory[k] == s.memory[k].(ran := s'.memory[k].ran))
    && (forall x {:trigger s'.rows[x]} :: x in s.rows ==>
          && s'.rows[x].epoch == s.rows[x].epoch
          && if s'.rows[x].landed == s.rows[x].landed
             then s'.rows[x].worker == s.rows[x].worker && s'.rows[x].task == s.rows[x].task
             else s'.rows[x].landed == s.rows[x].landed + 1 && s'.rows[x].worker.None?)
    && (forall x {:trigger s'.rows[x]} :: x in s'.rows && x !in s.rows ==> s'.rows[x].worker.None?)
  }

  lemma QuietGrants(s: Sys, s': Sys)
    requires Grants(s) && Quiet(s, s')
    ensures Grants(s')
  {
    forall y, e | (y, e) in s'.memory
      ensures GrantOk(s', y, e)
    {
      assert GrantOk(s, y, e);
      assert s'.memory[(y, e)] == s.memory[(y, e)].(ran := s'.memory[(y, e)].ran);
      assert s'.rows[y].epoch == s.rows[y].epoch;
    }
    forall y, e, f | (y, e) in s'.memory && (y, f) in s'.memory
      ensures LaterReclaimed(s', y, e, f)
    {
      assert LaterReclaimed(s, y, e, f);
      assert s'.memory[(y, e)] == s.memory[(y, e)].(ran := s'.memory[(y, e)].ran);
      assert s'.memory[(y, f)] == s.memory[(y, f)].(ran := s'.memory[(y, f)].ran);
    }
    forall y | y in s'.rows
      ensures HolderOk(s', y)
    {
      if y in s.rows {
        assert HolderOk(s, y);
        assert s'.rows[y].epoch == s.rows[y].epoch;
      }
    }
  }

  lemma StepGrants(def: seq<Task>, s: Sys, step: Step)
    requires Inv(s)
    ensures Grants(Apply(def, s, step))
  {
    if step.DoClaim? {
      ClaimGrants(def, s, step.x, step.worker, step.cutoff, step.expiry);
    } else {
      QuietGrants(s, Apply(def, s, step));
    }
  }

  lemma RunLogs(def: seq<Task>, s: Sys, x: Id, epoch: nat, answer: Answer, route: nat -> Route)
    requires Inv(s)
    ensures Logs(Apply(def, s, DoRun(x, epoch, answer, route)))
  {
    if x in s.rows && (x, epoch) in s.memory && s.memory[(x, epoch)].ran.None? {
      AdvanceStarts(def, s.memory[(x, epoch)], answer, route);
      assert HolderOk(s, x);
      var s' := Apply(def, s, DoRun(x, epoch, answer, route));
      forall i | 0 <= i < |s.starts|
        ensures StartOk(s', s.starts[i]) && (s.starts[i].x, s.starts[i].epoch) != (x, epoch)
      {
        assert StartOk(s, s.starts[i]);
      }
      assert forall i :: 0 <= i < |s.writes| ==> Spent(s, s.writes[i].0, s.writes[i].1);
    }
  }

  lemma StepLogs(def: seq<Task>, s: Sys, step: Step)
    requires Inv(s)
    ensures Logs(Apply(def, s, step))
  {
    var s' := Apply(def, s, step);
    if step.DoRun? {
      RunLogs(def, s, step.x, step.epoch, step.answer, step.route);
    } else {
      forall i | 0 <= i < |s.starts|
        ensures StartOk(s', s.starts[i])
      {
        assert StartOk(s, s.starts[i]);
        assert step.DoClaim? && step.x in s.rows && s.starts[i].x == step.x ==> GrantOk(s, step.x, s.starts[i].epoch);
      }
      forall i | 0 <= i < |s.writes|
        ensures Spent(s', s.writes[i].0, s.writes[i].1)
        ensures step.DoWrite? && Fenced(s, step.x, step.epoch) ==> s.writes[i] != (step.x, step.epoch)
      {
        assert Spent(s, s.writes[i].0, s.writes[i].1);
      }
    }
  }

  ghost predicate IsRun(def: seq<Task>, states: seq<Sys>, steps: seq<Step>) {
    && |states| == |steps| + 1
    && states[0] == Sys(map[], map[], [], [])
    && forall i {:trigger steps[i]} :: 0 <= i < |steps| ==> states[i + 1] == Apply(def, states[i], steps[i])
  }

  lemma {:induction false} RunKeeps(def: seq<Task>, states: seq<Sys>, steps: seq<Step>, k: nat)
    requires IsRun(def, states, steps) && k < |states|
    ensures Inv(states[k])
  {
    if k > 0 {
      RunKeeps(def, states, steps, k - 1);
      assert states[k] == Apply(def, states[k - 1], steps[k - 1]);
      StepGrants(def, states[k - 1], steps[k - 1]);
      StepLogs(def, states[k - 1], steps[k - 1]);
    }
  }

  // ------------------------------------------------------------------------------------------
  // Fencing and only_once over every run
  // ------------------------------------------------------------------------------------------

  /** Each grant lands at most one write, and no later write of a spent grant ever lands. */
  lemma GrantLandsOnce(def: seq<Task>, states: seq<Sys>, steps: seq<Step>, k: nat, i: nat, j: nat)
    requires IsRun(def, states, steps) && k < |states| && i < j < |states[k].writes|
    ensures states[k].writes[i] != states[k].writes[j]
    ensures !Fenced(states[k], states[k].writes[i].0, states[k].writes[i].1)
  {
    RunKeeps(def, states, steps, k);
    assert Spent(states[k], states[k].writes[i].0, states[k].writes[i].1);
  }

  /** A claim is granted exactly on a row that may run and is unheld or past its lease at the cutoff, and the
      new grant knows whether it took the row over from a worker that never wrote. */
  lemma ClaimGranted(def: seq<Task>, states: seq<Sys>, steps: seq<Step>, k: nat)
    requires IsRun(def, states, steps) && k < |steps| && steps[k].DoClaim? && steps[k].x in states[k].rows
    ensures var r := states[k].rows[steps[k].x];
      var granted := !r.status.Stopped? && (r.worker.None? || r.expires <= steps[k].cutoff);
      && steps[k].x in states[k + 1].rows
      && (!granted ==> states[k + 1] == states[k])
      && (granted ==>
            && Fenced(states[k + 1], steps[k].x, r.epoch + 1)
            && states[k + 1].rows[steps[k].x].expires == steps[k].expiry
            && states[k + 1].memory[(steps[k].x, r.epoch + 1)].reclaimed == r.worker.Some?)
  {
    assert states[k + 1] == Apply(def, states[k], steps[k]);
  }

  /** Once a later claim has superseded a grant no write of that grant lands, ever after. */
  lemma {:induction false} SupersededNeverLands(def: seq<Task>, states: seq<Sys>, steps: seq<Step>, i: nat, j: nat,
                                                x: Id, e: nat)
    requires IsRun(def, states, steps) && i <= j < |states| && x in states[i].rows && e < states[i].rows[x].epoch
    ensures x in states[j].rows && e < states[j].rows[x].epoch && states[i].writes <= states[j].writes
    ensures forall k :: |states[i].writes| <= k < |states[j].writes| ==> states[j].writes[k] != (x, e)
    decreases j - i
  {
    if i < j {
      SupersededNeverLands(def, states, steps, i, j - 1, x, e);
      SupersededStep(def, states[j - 1], steps[j - 1], states[j], x, e);
    }
  }

  lemma SupersededStep(def: seq<Task>, s: Sys, step: Step, s': Sys, x: Id, e: nat)
    requires s' == Apply(def, s, step) && x in s.rows && e < s.rows[x].epoch
    ensures x in s'.rows && e < s'.rows[x].epoch
    ensures s'.writes == s.writes || exists w :: w != (x, e) && s'.writes == s.writes + [w]
  {
  }

  /** Of all the grants issued between two landed writes of a row, at most one starts an
      only_once action, and it starts it once: across crashes, expiry, takeover and abandonment. */
  lemma OnlyOnce(def: seq<Task>, states: seq<Sys>, steps: seq<Step>, k: nat, i: nat, j: nat)
    requires IsRun(def, states, steps) && k < |states| && i < |states[k].starts| && j < |states[k].starts|
    requires states[k].starts[i].onlyOnce && states[k].starts[j].onlyOnce
    requires states[k].starts[i].x == states[k].starts[j].x && states[k].starts[i].born == states[k].starts[j].born
    ensures i == j
  {
    RunKeeps(def, states, steps, k);
    var s := states[k];
    var a, b := s.starts[i], s.starts[j];
    assert StartOk(s, a) && StartOk(s, b);
    assert LaterReclaimed(s, a.x, a.epoch, b.epoch) && LaterReclaimed(s, a.x, b.epoch, a.epoch);
  }

  /** Seen from the row's own history: between two landed writes at most one only_once action
      starts under a grant the row still carries. */
  lemma OnlyOnceCurrent(def: seq<Task>, states: seq<Sys>, steps: seq<Step>, k: nat, i: nat, j: nat)
    requires IsRun(def, states, steps) && k < |states| && i < |states[k].starts| && j < |states[k].starts|
    requires states[k].starts[i].onlyOnce && states[k].starts[j].onlyOnce
    requires states[k].starts[i].current && states[k].starts[j].current
    requires states[k].starts[i].x == states[k].starts[j].x && states[k].starts[i].at == states[k].starts[j].at
    ensures i == j
  {
    RunKeeps(def, states, steps, k);
    assert StartOk(states[k], states[k].starts[i]) && StartOk(states[k], states[k].starts[j]);
    OnlyOnce(def, states, steps, k, i, j);
  }

  // ------------------------------------------------------------------------------------------
  // Where a row goes
  // ------------------------------------------------------------------------------------------

  /** The step in which a grant's advance ran, and what it reported. */
  lemma {:induction false} RanAt(def: seq<Task>, states: seq<Sys>, steps: seq<Step>, k: nat, x: Id, e: nat)
    returns (m: nat)
    requires IsRun(def, states, steps) && k < |states|
    requires (x, e) in states[k].memory && states[k].memory[(x, e)].ran.Some?
    ensures m < k && steps[m].DoRun? && steps[m].x == x && steps[m].epoch == e
    ensures states[k].memory[(x, e)].ran.value ==
      Advance(def, states[k].memory[(x, e)], steps[m].answer, steps[m].route)
    decreases k
  {
    assert k > 0;
    var s, s' := states[k - 1], states[k];
    assert s' == Apply(def, s, steps[k - 1]);
    RunKeeps(def, states, steps, k - 1);
    if (x, e) in s.memory && s.memory[(x, e)].ran.Some? {
      assert GrantOk(s, x, e);
      assert s'.memory[(x, e)] == s.memory[(x, e)];
      m := RanAt(def, states, steps, k - 1, x, e);
    } else {
      m := k - 1;
    }
  }

  /** Over every run, the task a landed write leaves on its row: from the task the row named, the end of
      the path the switches of that grant's own advance routed, or where a stop or the verdict on an
      interrupted action left it.  In particular a row whose action answered stands at the task its
      switch routed to, not at the one that has just run. */
  lemma RowFollowsRoutes(def: seq<Task>, states: seq<Sys>, steps: seq<Step>, k: nat) returns (m: nat, path: seq<int>)
    requires IsRun(def, states, steps) && k < |steps| && steps[k].DoWrite?
    requires Fenced(states[k], steps[k].x, steps[k].epoch)
    ensures var x, inst := steps[k].x, states[k].memory[(steps[k].x, steps[k].epoch)];
      var from := states[k].rows[x].task;
      && x in states[k + 1].rows && inst.task == from
      && var to := states[k + 1].rows[x].task;
        if inst.ran.None? then to == from
        else
          && m < k && steps[m].DoRun? && steps[m].x == x && steps[m].epoch == steps[k].epoch
          && if inst.reclaimed && OnlyOnceAction(def, from)
             then to == if inst.status.Running? || inst.status.Pausing? then AfterError(def, from, steps[m].answer)
                        else from
             else if inst.status.Running?
             then IsPath(def, path, from, steps[m].route) &&
                  EndsPath(def, path, steps[m].answer, steps[m].route, Report(inst.ran.value.started, to))
             else to == from
  {
    RunKeeps(def, states, steps, k);
    var s, x, e := states[k], steps[k].x, steps[k].epoch;
    assert states[k + 1] == Apply(def, s, steps[k]);
    assert HolderOk(s, x);
    m, path := 0, [];
    var inst := s.memory[(x, e)];
    if inst.ran.Some? {
      m := RanAt(def, states, steps, k, x, e);
      if inst.status.Running? && !(inst.reclaimed && OnlyOnceAction(def, inst.task)) {
        path := AdvanceFollows(def, inst, steps[m].answer, steps[m].route);
      }
    }
  }

  const STALLED_DEF: seq<Task> := [Task(true, true)]

  /** A worker stalls between its claim and its action; the row is taken over, its interruption
      resolved by routing back into the task, and claimed afresh; then the stalled worker wakes. */
  function StalledSteps(): (steps: seq<Step>) {
    [DoCreate(1, 0),
     DoClaim(1, 1, 0, 10),
     DoClaim(1, 2, 10, 20),
     DoRun(1, 2, Handled(0), n => End),
     DoWrite(1, 2, Running),
     DoClaim(1, 3, 0, 30),
     DoRun(1, 3, Stays, n => End),
     DoRun(1, 1, Stays, n => End)]
  }

  lemma StalledState()
    ensures var s0 := Sys(map[], map[], [], []); var st := StalledSteps(); var d := STALLED_DEF;
      var s5 := Apply(d, Apply(d, Apply(d, Apply(d, Apply(d, s0, st[0]), st[1]), st[2]), st[3]), st[4]);
      && s5.rows == map[1 := Row(None, 20, 2, 0, Running, 1)] && s5.starts == []
      && s5.memory == map[(1, 1) := Inst(1, 0, Running, false, 0, None),
                          (1, 2) := Inst(2, 0, Running, true, 0, Some(Report([], 0)))]
  {
    var s0 := Sys(map[], map[], [], []);
    var st := StalledSteps();
    var d := STALLED_DEF;
    var s1 := Apply(d, s0, st[0]);
    assert s1.rows == map[1 := Row(None, 0, 0, 0, Running, 0)];
    var s2 := Apply(d, s1, st[1]);
    assert s2.rows == map[1 := Row(Some(1), 10, 1, 0, Running, 0)];
    assert s2.memory == map[(1, 1) := Inst(1, 0, Running, false, 0, None)];
    var s3 := Apply(d, s2, st[2]);
    assert s3.rows == map[1 := Row(Some(2), 20, 2, 0, Running, 0)];
    var s4 := Apply(d, s3, st[3]);
    assert s4.starts == [];
  }

  lemma StalledLateStart(s5: Sys)
    requires s5.rows == map[1 := Row(None, 20, 2, 0, Running, 1)] && s5.starts == []
    requires s5.memory == map[(1, 1) := Inst(1, 0, Running, false, 0, None),
                              (1, 2) := Inst(2, 0, Running, true, 0, Some(Report([], 0)))]
    ensures var d := STALLED_DEF;
      Apply(d, Apply(d, Apply(d, s5, DoClaim(1, 3, 0, 30)), DoRun(1, 3, Stays, n => End)),
            DoRun(1, 1, Stays, n => End)).starts
      == [Start(1, 3, 1, 1, true, true), Start(1, 1, 0, 1, false, true)]
  {
    var d := STALLED_DEF;
    var s6 := Apply(d, s5, DoClaim(1, 3, 0, 30));
    assert s6.rows == map[1 := Row(Some(3), 30, 3, 0, Running, 1)];
    assert s6.memory[(1, 3)] == Inst(3, 0, Running, false, 1, None);
    assert s6.memory[(1, 1)] == Inst(1, 0, Running, false, 0, None);
    var s7 := Apply(d, s6, DoRun(1, 3, Stays, n => End));
    assert s7.starts == [Start(1, 3, 1, 1, true, true)];
    assert s7.memory[(1, 1)] == Inst(1, 0, Running, false, 0, None);
  }

  /** Without that condition it is false: a stalled worker's late start and the new holder's fall
      between the same two landed writes. */
  lemma StalledStartsTwice() returns (states: seq<Sys>)
    ensures IsRun(STALLED_DEF, states, StalledSteps())
    ensures var s := states[|states| - 1];
      && |s.starts| == 2 && s.starts[0].x == s.starts[1].x && s.starts[0].at == s.starts[1].at
      && s.starts[0].onlyOnce && s.starts[1].onlyOnce && s.starts[0].current && !s.starts[1].current
  {
    var d, st := STALLED_DEF, StalledSteps();
    states := RunFrom((s: Sys, step: Step) => Apply(STALLED_DEF, s, step), Sys(map[], map[], [], []), st);
    StalledState();
    assert states[5] == Apply(d, Apply(d, Apply(d, Apply(d, Apply(d, states[0], st[0]), st[1]), st[2]), st[3]), st[4]);
    StalledLateStart(states[5]);
    assert states[8] == Apply(d, Apply(d, Apply(d, states[5], st[5]), st[6]), st[7]);
  }

  /** From state i to state j no claim's cutoff reaches the row's lease, and the grant's own write is
      still to come. */
  ghost predicate OutOfReach(states: seq<Sys>, steps: seq<Step>, x: Id, e: nat, i: nat, j: nat)
    requires |states| == |steps| + 1 && i <= j < |states|
  {
    forall m {:trigger steps[m]} :: i <= m < j ==>
      && (steps[m].DoClaim? && steps[m].x == x && x in states[m].rows ==> steps[m].cutoff < states[m].rows[x].expires)
      && !(steps[m].DoWrite? && steps[m].x == x && steps[m].epoch == e)
  }

  /** A lease no claim's cutoff has reached cannot be taken: the grant stays current, whatever
      else happens, until its own write lands. */
  lemma {:induction false} LiveLeaseHolds(def: seq<Task>, states: seq<Sys>, steps: seq<Step>, x: Id, e: nat, i: nat,
                                          j: nat)
    requires IsRun(def, states, steps) && i <= j < |states| && Fenced(states[i], x, e)
    requires OutOfReach(states, steps, x, e, i, j)
    ensures Fenced(states[j], x, e)
    decreases j - i
  {
    if i < j {
      LiveLeaseHolds(def, states, steps, x, e, i, j - 1);
      assert states[j] == Apply(def, states[j - 1], steps[j - 1]);
    }
  }

  /** The step a logged start was made in, and the state it was made from. */
  lemma {:induction false} StartedAt(def: seq<Task>, states: seq<Sys>, steps: seq<Step>, k: nat, i: nat)
    returns (m: nat)
    requires IsRun(def, states, steps) && k < |states| && i < |states[k].starts|
    ensures m < k && steps[m].DoRun? && i == |states[m].starts| < |states[m + 1].starts|
    ensures var st := states[k].starts[i];
      && states[m + 1].starts[i] == st && st.x == steps[m].x && st.epoch == steps[m].epoch
      && st.current == Fenced(states[m], st.x, st.epoch)
    decreases k
  {
    assert k > 0;
    assert states[k] == Apply(def, states[k - 1], steps[k - 1]);
    if i < |states[k - 1].starts| {
      m := StartedAt(def, states, steps, k - 1, i);
    } else {
      m := k - 1;
    }
  }

  /** The advance run in step m began while its lease was out of every claim's reach. */
  ghost predicate InTime(states: seq<Sys>, steps: seq<Step>, m: nat)
    requires |states| == |steps| + 1 && m < |steps| && steps[m].DoRun?
  {
    exists c {:trigger Fenced(states[c], steps[m].x, steps[m].epoch)} :: 0 <= c <= m
      && Fenced(states[c], steps[m].x, steps[m].epoch) && OutOfReach(states, steps, steps[m].x, steps[m].epoch, c, m)
  }

  /** Step m starts an only_once action. */
  ghost predicate StartsOnlyOnce(states: seq<Sys>, steps: seq<Step>, m: nat)
    requires |states| == |steps| + 1 && m < |steps|
  {
    && steps[m].DoRun? && |states[m].starts| < |states[m + 1].starts|
    && states[m + 1].starts[|states[m].starts|].onlyOnce
  }

  /** If every only_once start is made while no claim's cutoff has reached its lease, each window
      between two landed writes of a row holds at most one. */
  lemma OnlyOnceInTime(def: seq<Task>, states: seq<Sys>, steps: seq<Step>, k: nat, i: nat, j: nat)
    requires IsRun(def, states, steps) && k < |states| && i < |states[k].starts| && j < |states[k].starts|
    requires forall m {:trigger StartsOnlyOnce(states, steps, m)} ::
      0 <= m < k && StartsOnlyOnce(states, steps, m) ==> InTime(states, steps, m)
    requires states[k].starts[i].onlyOnce && states[k].starts[j].onlyOnce
    requires states[k].starts[i].x == states[k].starts[j].x && states[k].starts[i].at == states[k].starts[j].at
    ensures i == j
  {
    StartIsCurrent(def, states, steps, k, i);
    StartIsCurrent(def, states, steps, k, j);
    OnlyOnceCurrent(def, states, steps, k, i, j);
  }

  lemma StartIsCurrent(def: seq<Task>, states: seq<Sys>, steps: seq<Step>, k: nat, i: nat)
    requires IsRun(def, states, steps) && k < |states| && i < |states[k].starts| && states[k].starts[i].onlyOnce
    requires forall m {:trigger StartsOnlyOnce(states, steps, m)} ::
      0 <= m < k && StartsOnlyOnce(states, steps, m) ==> InTime(states, steps, m)
    ensures states[k].starts[i].current
  {
    var m := StartedAt(def, states, steps, k, i);
    assert StartsOnlyOnce(states, steps, m) && InTime(states, steps, m);
    var x, e := steps[m].x, steps[m].epoch;
    var c :| 0 <= c <= m && Fenced(states[c], x, e) && OutOfReach(states, steps, x, e, c, m);
    LiveLeaseHolds(def, states, steps, x, e, c, m);
  }

  // ------------------------------------------------------------------------------------------
  // Renewal
  // ------------------------------------------------------------------------------------------

  const RENEW_CHUNK_SIZE: nat := 100

  function Eligible(rows: map<Id, Row>, worker: WorkerId, ids: set<Id>, expiry: int): (s: set<Id>) {
    set x | x in rows && x in ids && rows[x].worker == Some(worker) && rows[x].expires < expiry
  }

  class LeaseTable {
    var rows: map<Id, Row>

    /** One bounded UPDATE: up to a chunk of this worker's lapsing rows is re-stamped. */
    method RenewChunk(worker: WorkerId, ids: set<Id>, expiry: int) returns (n: nat, ghost chunk: set<Id>)
      modifies this`rows
      ensures chunk <= Eligible(old(rows), worker, ids, expiry) && n == |chunk|
      ensures n < RENEW_CHUNK_SIZE ==> chunk == Eligible(old(rows), worker, ids, expiry)
      ensures rows.Keys == old(rows).Keys
      ensures forall x :: x in rows ==> rows[x] == if x in chunk then old(rows)[x].(expires := expiry) else old(rows)[x]
    {
      var todo := Eligible(rows, worker, ids, expiry);
      n, chunk := 0, {};
      while n < RENEW_CHUNK_SIZE && todo != {}
        invariant todo + chunk == Eligible(old(rows), worker, ids, expiry) && todo !! chunk && n == |chunk|
        invariant rows.Keys == old(rows).Keys
        invariant forall x ::
          x in rows ==> rows[x] == if x in chunk then old(rows)[x].(expires := expiry) else old(rows)[x]
        decreases todo
      {
        var x :| x in todo;
        rows := rows[x := rows[x].(expires := expiry)];
        todo, chunk, n := todo - {x}, chunk + {x}, n + 1;
      }
    }

    /** RenewWorkerLeases: chunk after chunk, until one comes back short. */
    method RenewWorkerLeases(worker: WorkerId, ids: set<Id>, expiry: int)
      modifies this`rows
      ensures rows == RenewAll(old(rows), worker, ids, expiry)
    {
      while true
        invariant RenewAll(rows, worker, ids, expiry) == RenewAll(old(rows), worker, ids, expiry)
        decreases |Eligible(rows, worker, ids, expiry)|
      {
        ghost var before := rows;
        var n, chunk := RenewChunk(worker, ids, expiry);
        ChunkRenews(before, rows, worker, ids, expiry, chunk);
        if n < RENEW_CHUNK_SIZE {
          return;
        }
      }
    }
  }

  /** A renewed row stops matching, so the loop ends, and re-renewing changes nothing. */
  lemma ChunkRenews(before: map<Id, Row>, after: map<Id, Row>, worker: WorkerId, ids: set<Id>, expiry: int,
                    chunk: set<Id>)
    requires chunk <= Eligible(before, worker, ids, expiry) && after.Keys == before.Keys
    requires forall x :: x in after ==> after[x] == if x in chunk then before[x].(expires := expiry) else before[x]
    ensures Eligible(after, worker, ids, expiry) == Eligible(before, worker, ids, expiry) - chunk
    ensures |Eligible(after, worker, ids, expiry)| == |Eligible(before, worker, ids, expiry)| - |chunk|
    ensures RenewAll(after, worker, ids, expiry) == RenewAll(before, worker, ids, expiry)
    ensures chunk == Eligible(before, worker, ids, expiry) ==> after == RenewAll(before, worker, ids, expiry)
  {
    assert Eligible(after, worker, ids, expiry) + chunk == Eligible(before, worker, ids, expiry);
  }
}
