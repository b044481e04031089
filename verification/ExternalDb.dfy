/**
 The external-task transactions as the database layer runs them, over a table of instances, and
 the engine's three-phase look at an external task.
 */
module ExternalDb {

  import opened Wrappers
  import opened Statuses
  import opened External

  type Id = nat

  datatype Fault = NotFound | Conflict | LeaseLost

  datatype Result<T> = Ok(value: T) | Err(fault: Fault)

  /** A grant by its row, its arming and its claim epoch. */
  datatype Claim = Claim(id: Id, taskEpoch: nat, claimEpoch: nat)

  const RENEW_CHUNK_SIZE: nat := 100

  /** A claim, if there is one, on this table: renewed by some entry of the batch. */
  ghost predicate RenewedBy(t: map<Id, Core>, worker: WorkerId, claims: seq<Claim>, x: Id)
    requires x in t
  {
    exists i :: 0 <= i < |claims| && claims[i].id == x &&
      VerdictOf(t[x].row, worker, claims[i].taskEpoch, claims[i].claimEpoch).Renewed?
  }

  function ClaimVerdict(t: map<Id, Core>, worker: WorkerId, c: Claim): (v: RenewVerdict) {
    if c.id in t then VerdictOf(t[c.id].row, worker, c.taskEpoch, c.claimEpoch) else Lost
  }

  ghost predicate RenewedTable(t: map<Id, Core>, worker: WorkerId, claims: seq<Claim>, expiry: int, t': map<Id, Core>) {
    && t'.Keys == t.Keys
    && forall x :: x in t ==>
         t'[x] == if RenewedBy(t, worker, claims, x) then t[x].(row := t[x].row.(extExpires := expiry)) else t[x]
  }

  lemma RenewOne(t: map<Id, Core>, worker: WorkerId, claims: seq<Claim>, expiry: int, t1: map<Id, Core>, c: Claim,
                 t2: map<Id, Core>)
    requires RenewedTable(t, worker, claims, expiry, t1)
    requires t2 ==
      if c.id in t1 then t1[c.id := QueueRenew(t1[c.id], worker, c.taskEpoch, c.claimEpoch, expiry)] else t1
    ensures RenewedTable(t, worker, claims + [c], expiry, t2)
    ensures ClaimVerdict(t1, worker, c) == ClaimVerdict(t, worker, c)
  {
    var more := claims + [c];
    forall x | x in t
      ensures RenewedBy(t, worker, more, x) <==>
        || RenewedBy(t, worker, claims, x)
        || (c.id == x && VerdictOf(t[x].row, worker, c.taskEpoch, c.claimEpoch).Renewed?)
    {
      assert more[|claims|] == c;
      assert forall i :: 0 <= i < |claims| ==> more[i] == claims[i];
    }
  }

  function Candidates(t: map<Id, Core>, wanted: Row -> bool, now: int): (s: set<Id>) {
    set x | x in t && wanted(t[x].row) && QueueClaimable(t[x].row, now)
  }

  ghost predicate ClaimedTable(t: map<Id, Core>, taken: set<Id>, worker: WorkerId, now: int, expiry: int,
                               t': map<Id, Core>) {
    && t'.Keys == t.Keys
    && forall x :: x in t ==> t'[x] == if x in taken then QueueClaim(t[x], worker, now, expiry) else t[x]
  }

  /** The result names each row granted, once, and no row that was already answered. */
  ghost predicate ListsGrants(t: map<Id, Core>, taken: set<Id>, now: int, granted: seq<Id>) {
    && (forall x :: x in granted <==> x in taken && x in t && Grants(t[x], now))
    && (forall i, j :: 0 <= i < j < |granted| ==> granted[i] != granted[j])
  }

  lemma ClaimOneMore(t: map<Id, Core>, taken: set<Id>, worker: WorkerId, now: int, expiry: int, t1: map<Id, Core>,
                     x: Id, t2: map<Id, Core>, granted: seq<Id>)
    requires ClaimedTable(t, taken, worker, now, expiry, t1) && ListsGrants(t, taken, now, granted)
    requires x in t && x !in taken && t2 == t1[x := QueueClaim(t1[x], worker, now, expiry)]
    ensures ClaimedTable(t, taken + {x}, worker, now, expiry, t2) && t1[x] == t[x]
    ensures ListsGrants(t, taken + {x}, now, if Grants(t[x], now) then granted + [x] else granted)
  {
  }

  /** Parked longer ago, or as long ago under a smaller id. */
  predicate Older(parkedAt: Id -> int, x: Id, y: Id) {
    parkedAt(x) < parkedAt(y) || (parkedAt(x) == parkedAt(y) && x < y)
  }

  method Oldest(all: set<Id>, parkedAt: Id -> int) returns (x: Id)
    requires all != {}
    ensures x in all && forall y :: y in all && y != x ==> Older(parkedAt, x, y)
  {
    x :| x in all;
    var rest := all - {x};
    while rest != {}
      invariant x in all && x !in rest && rest <= all
      invariant forall y :: y in all && y !in rest && y != x ==> Older(parkedAt, x, y)
      decreases rest
    {
      var y :| y in rest;
      if Older(parkedAt, y, x) {
        x := y;
      }
      rest := rest - {y};
    }
  }

  /** The query's ORDER BY and LIMIT: the oldest parks first. */
  method SelectUpTo(all: set<Id>, limit: nat, parkedAt: Id -> int) returns (taken: set<Id>)
    ensures taken <= all && |taken| <= limit && (|taken| == limit || taken == all)
    ensures forall x, y :: x in taken && y in all && y !in taken ==> Older(parkedAt, x, y)
  {
    taken := {};
    while |taken| < limit && taken != all
      invariant taken <= all && |taken| <= limit
      invariant forall x, y :: x in taken && y in all && y !in taken ==> Older(parkedAt, x, y)
      decreases all - taken
    {
      assert !(all <= taken);
      var x := Oldest(all - taken, parkedAt);
      taken := taken + {x};
    }
  }

  class TaskDb {
    var cells: map<Id, Core>

    /** The write is fenced on the lease the caller's copy was claimed under. */
    method ArmExternalUnlessSignalled(id: Id, worker: WorkerId, epoch: nat, task: TaskId, taskEpoch: nat,
                                      wakeAt: Option<int>, lost: bool)
      returns (res: Result<bool>)
      modifies this`cells
      ensures id !in old(cells) ==> res == Err(NotFound) && cells == old(cells)
      ensures id in old(cells) ==> var r := old(cells)[id].row;
        if r.epoch == epoch && r.worker == Some(worker) then
          && cells == old(cells)[id := Arm(old(cells)[id], task, taskEpoch, wakeAt, lost)]
          && res == Ok(cells[id].row.phase == Parked)
        else res == Err(LeaseLost) && cells == old(cells)
    {
      if id !in cells {
        return Err(NotFound);
      }
      var before := cells;
      var c := cells[id];
      var answered := Answered(c.queue, task);
      var phase, wake := if answered then NoPhase else Parked, if answered then None else wakeAt;
      cells := cells[id := c.(row := Write(c.row, Running, phase, task, taskEpoch, wake, lost))];
      if c.row.epoch != epoch || c.row.worker != Some(worker) {
        cells := before;
        return Err(LeaseLost);
      }
      return Ok(!answered);
    }

    method DeliverSignal(id: Id, task: TaskId, outcome: int, now: int) returns (res: Result<bool>)
      modifies this`cells
      ensures id !in old(cells) ==> res == Err(NotFound) && cells == old(cells)
      ensures id in old(cells) ==> var c := old(cells)[id];
        if AcceptsOutcome(c.row.status) then
          && cells == old(cells)[id := Deliver(c, task, outcome, now)]
          && res == Ok(c.row.phase == Parked && cells[id].row.phase == NoPhase)
        else res == Err(Conflict) && cells == old(cells)
    {
      if id !in cells {
        return Err(NotFound);
      }
      var c := cells[id];
      if !AcceptsOutcome(c.row.status) {
        return Err(Conflict);
      }
      var armed := c.row.phase == Parked && c.row.task == task;
      var live := (c.row.worker.Some? && c.row.expires > now) || (c.row.extWorker.Some? && c.row.extExpires > now);
      cells := cells[id := Buffer(c, task, outcome)];
      if armed && !live {
        cells := cells[id := cells[id].(row := Unpark(c.row))];
      }
      return Ok(armed && !live);
    }

    method ResolveExternalTask(id: Id, taskEpoch: nat, claim: Binding, outcome: int, now: int) returns (res: Result<()>)
      modifies this`cells
      ensures id !in old(cells) ==> res == Err(NotFound) && cells == old(cells)
      ensures id in old(cells) ==>
        && cells == old(cells)[id := Resolve(old(cells)[id], taskEpoch, claim, outcome, now)]
        && res == if Accepts(old(cells)[id].row, taskEpoch, claim, now) then Ok(()) else Err(Conflict)
    {
      if id !in cells {
        return Err(NotFound);
      }
      var c := cells[id];
      var r := c.row;
      if !AcceptsOutcome(r.status) || r.phase != Parked {
        return Err(Conflict);
      }
      if r.worker.Some? && r.expires > now {
        return Err(Conflict);
      }
      if r.taskEpoch != taskEpoch {
        return Err(Conflict);
      }
      match claim {
        case Bound(epoch) =>
          if epoch != r.claimEpoch {
            return Err(Conflict);
          }
        case Unclaimed =>
          if r.extWorker.Some? && r.extExpires > now {
            return Err(Conflict);
          }
      }
      cells := cells[id := Buffer(c, r.task, outcome)];
      cells := cells[id := cells[id].(row := Unpark(r))];
      return Ok(());
    }

    /** One candidate: the grant bumps the claim epoch; an answered row is left to the engine. */
    method GrantOrUnpark(x: Id, worker: WorkerId, now: int, expiry: int) returns (answered: bool)
      requires x in cells && QueueClaimable(cells[x].row, now)
      modifies this`cells
      ensures cells == old(cells)[x := QueueClaim(old(cells)[x], worker, now, expiry)]
      ensures answered <==> !Grants(old(cells)[x], now)
    {
      var c := cells[x];
      answered := Answered(c.queue, c.row.task);
      if answered {
        cells := cells[x := c.(row := Unpark(c.row))];
      } else {
        var r := c.row.(extWorker := Some(worker), extExpires := expiry, claimEpoch := c.row.claimEpoch + 1);
        cells := cells[x := c.(row := r)];
      }
    }

    /** Takes up to `limit` candidates matching the filter, oldest park first: each is granted, or, already
        answered, un-parked and left out of the result. */
    method ClaimExternalTasks(worker: WorkerId, now: int, expiry: int, limit: nat, wanted: Row -> bool,
                              parkedAt: Id -> int)
      returns (granted: seq<Id>, taken: set<Id>)
      modifies this`cells
      ensures taken <= Candidates(old(cells), wanted, now) && |taken| <= limit
      ensures |taken| == limit || taken == Candidates(old(cells), wanted, now)
      ensures forall x, y ::
        x in taken && y in Candidates(old(cells), wanted, now) && y !in taken ==> Older(parkedAt, x, y)
      ensures ClaimedTable(old(cells), taken, worker, now, expiry, cells)
      ensures ListsGrants(old(cells), taken, now, granted)
    {
      taken := SelectUpTo(Candidates(cells, wanted, now), limit, parkedAt);
      granted := GrantEach(taken, worker, now, expiry);
    }

    method GrantEach(taken: set<Id>, worker: WorkerId, now: int, expiry: int) returns (granted: seq<Id>)
      requires forall x :: x in taken ==> x in cells && QueueClaimable(cells[x].row, now)
      modifies this`cells
      ensures ClaimedTable(old(cells), taken, worker, now, expiry, cells)
      ensures ListsGrants(old(cells), taken, now, granted)
    {
      var done := {};
      granted := [];
      while done != taken
        invariant done <= taken
        invariant ClaimedTable(old(cells), done, worker, now, expiry, cells)
        invariant ListsGrants(old(cells), done, now, granted)
        decreases taken - done
      {
        assert !(taken <= done);
        var x :| x in taken && x !in done;
        ghost var before := cells;
        var answered := GrantOrUnpark(x, worker, now, expiry);
        ClaimOneMore(old(cells), done, worker, now, expiry, before, x, cells, granted);
        if !answered {
          granted := granted + [x];
        }
        done := done + {x};
      }
    }

    /** One grant re-stamped if it is still this worker's, and told apart if it is not. */
    method RenewClaim(worker: WorkerId, c: Claim, expiry: int) returns (v: RenewVerdict)
      modifies this`cells
      ensures v == ClaimVerdict(old(cells), worker, c)
      ensures c.id !in old(cells) ==> cells == old(cells)
      ensures c.id in old(cells) ==>
        cells == old(cells)[c.id := QueueRenew(old(cells)[c.id], worker, c.taskEpoch, c.claimEpoch, expiry)]
    {
      if c.id !in cells {
        return Lost;
      }
      var r := cells[c.id].row;
      if r.extWorker != Some(worker) || r.taskEpoch != c.taskEpoch || r.claimEpoch != c.claimEpoch {
        return Lost;
      }
      if r.status.Cancelling? || r.status.Cancelled? {
        return CancelledVerdict;
      }
      cells := cells[c.id := cells[c.id].(row := r.(extExpires := expiry))];
      return Renewed;
    }

    /** Answers the claims one by one; no answer depends on the others. */
    method RenewExternalClaims(worker: WorkerId, claims: seq<Claim>, expiry: int) returns (out: seq<RenewVerdict>)
      modifies this`cells
      ensures |out| == |claims| && forall i :: 0 <= i < |out| ==> out[i] == ClaimVerdict(old(cells), worker, claims[i])
      ensures RenewedTable(old(cells), worker, claims, expiry, cells)
    {
      out := [];
      while |out| < |claims|
        invariant |out| <= |claims|
        invariant forall i :: 0 <= i < |out| ==> out[i] == ClaimVerdict(old(cells), worker, claims[i])
        invariant RenewedTable(old(cells), worker, claims[..|out|], expiry, cells)
      {
        var end := if |out| + RENEW_CHUNK_SIZE < |claims| then |out| + RENEW_CHUNK_SIZE else |claims|;
        ghost var start := |out|;
        while |out| < end
          invariant start <= |out| <= end
          invariant forall i :: 0 <= i < |out| ==> out[i] == ClaimVerdict(old(cells), worker, claims[i])
          invariant RenewedTable(old(cells), worker, claims[..|out|], expiry, cells)
        {
          var c := claims[|out|];
          ghost var before := cells;
          var v := RenewClaim(worker, c, expiry);
          RenewOne(old(cells), worker, claims[..|out|], expiry, before, c, cells);
          assert claims[..|out| + 1] == claims[..|out|] + [c];
          out := out + [v];
        }
      }
      assert claims[..|out|] == claims;
    }

    method ReleaseExternalClaim(id: Id, taskEpoch: nat, claimEpoch: nat) returns (res: Result<()>)
      modifies this`cells
      ensures id !in old(cells) ==> res == Err(Conflict) && cells == old(cells)
      ensures id in old(cells) ==>
        && cells == old(cells)[id := Release(old(cells)[id], taskEpoch, claimEpoch)]
        && res == if Releases(old(cells)[id].row, taskEpoch, claimEpoch) then Ok(()) else Err(Conflict)
    {
      if id !in cells {
        return Err(Conflict);
      }
      var c := cells[id];
      var r := c.row;
      if r.taskEpoch != taskEpoch || r.claimEpoch != claimEpoch || r.phase != Parked || r.extWorker.None? {
        return Err(Conflict);
      }
      cells := cells[id := c.(row := r.(extWorker := None, claimEpoch := claimEpoch + 1))];
      if AcceptsOutcome(r.status) && Answered(c.queue, r.task) {
        cells := cells[id := cells[id].(row := Unpark(cells[id].row))];
      }
      return Ok(());
    }

    method MarkExternalClaimLost(id: Id, taskEpoch: nat, now: int) returns (res: Result<()>)
      modifies this`cells
      ensures id !in old(cells) ==> res == Err(Conflict) && cells == old(cells)
      ensures id in old(cells) ==>
        && cells == old(cells)[id := MarkLost(old(cells)[id], taskEpoch, now)]
        && res == if Loses(old(cells)[id].row, taskEpoch) then Ok(()) else Err(Conflict)
    {
      if id !in cells {
        return Err(Conflict);
      }
      var r := cells[id].row;
      if r.taskEpoch != taskEpoch || r.phase != Parked {
        return Err(Conflict);
      }
      r := r.(lost := true, wakeAt := Some(now), extWorker := None, claimEpoch := r.claimEpoch + 1);
      cells := cells[id := cells[id].(row := r)];
      return Ok(());
    }
  }

  // ------------------------------------------------------------------------------------------
  // The engine's look at an external task
  // ------------------------------------------------------------------------------------------

  class Instance {
    var phase: Phase
    var lost: bool
    var hasInput: bool
    var consumedSignal: Option<nat>

    constructor (phase: Phase, lost: bool, hasInput: bool)
      ensures this.phase == phase && this.lost == lost && this.hasInput == hasInput && consumedSignal == None
    {
      this.phase, this.lost, this.hasInput, consumedSignal := phase, lost, hasInput, None;
    }

    method ClearExternalPark()
      modifies this`hasInput, this`lost
      ensures !hasInput && !lost
    {
      hasInput, lost := false, false;
    }

    /** An answer, once buffered, always wins over the deadline and over a lost claim, and only
        then is a signal marked for deletion; a park that is left is left whole. */
    method RunExternal(buffered: Option<(nat, Answer)>) returns (look: Look)
      requires consumedSignal == None
      modifies this
      ensures look == LookOf(old(phase), old(lost), if buffered.Some? then Some(buffered.value.1) else None)
      ensures look.AskPark? <==> buffered.None? && old(phase) != Parked
      ensures look.AskPark? ==> phase == old(phase) && lost == old(lost) && hasInput == old(hasInput)
      ensures !look.AskPark? ==> phase == NoPhase && !lost && !hasInput
      ensures consumedSignal == if buffered.Some? then Some(buffered.value.0) else None
      ensures look.HolderLost? <==> buffered.None? && old(phase) == Parked && old(lost)
      ensures look.TimedOut? <==> buffered.None? && old(phase) == Parked && !old(lost)
      ensures buffered.Some? ==>
        look == match buffered.value.1 case Success(v) => GotResult(v) case Failure(c) => RouteFailure(c)
    {
      if buffered.Some? {
        consumedSignal := Some(buffered.value.0);
        ClearExternalPark();
        phase := NoPhase;
        match buffered.value.1 {
          case Success(v) => return GotResult(v);
          case Failure(c) => return RouteFailure(c);
        }
      }
      if phase == Parked {
        look := if lost then HolderLost else TimedOut;
        phase := NoPhase;
        ClearExternalPark();
        return;
      }
      return AskPark;
    }
  }
}
