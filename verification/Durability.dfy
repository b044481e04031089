/**
 The durability ladder: which commits are flushed at a level, how a relaxed transaction borrows a
 connection and gives it back, and what a power cut may lose over any run.
 */
module Durability {

  type ConnId = nat
  type TxId = nat

  /** Levels, weakest first; a write's floor is never below essential. */
  const NONE: int := -1
  const ESSENTIAL: int := 0
  const TERMINAL: int := 1
  const STRICT: int := 2

  predicate Syncs(level: int, floor: int) {
    level >= floor
  }

  predicate LevelOk(level: int) {
    NONE <= level <= STRICT
  }

  predicate FloorOk(floor: int) {
    ESSENTIAL <= floor <= STRICT
  }

  /** The floor follows from what is written. */
  function InstanceWriteFloor(terminal: bool): (floor: int) {
    if terminal then TERMINAL else STRICT
  }

  datatype Dialect = Sqlite | Postgres

  datatype Sync = Off | Normal | Full | Extra

  /** A connection at this setting flushes each commit. */
  predicate PerCommit(s: Sync) {
    s.Full? || s.Extra?
  }

  /** How the server was started: the engine, the setting connections open with, and the level. */
  datatype Config = Config(dialect: Dialect, base: Sync, level: int)

  // ------------------------------------------------------------------------------------------
  // The state machine
  // ------------------------------------------------------------------------------------------

  /** An open transaction: its connection, its floor, whether it pinned the connection at the lower
      setting, and whether it turned flushing off for itself alone. */
  datatype Tx = Tx(conn: ConnId, floor: int, pinned: bool, local: bool)

  /** Connections and their settings, open transactions, and the one log: the floor each commit
      declared, and how much of the log is known to be on disk. */
  datatype Sys = Sys(conns: map<ConnId, Sync>, txs: map<TxId, Tx>, log: seq<int>, flushed: nat)

  predicate Idle(s: Sys, c: ConnId) {
    c in s.conns && forall i :: i in s.txs ==> s.txs[i].conn != c
  }

  datatype Step =
    | Connect(c: ConnId)
    | Begin(id: TxId, c: ConnId, floor: int)
    | Commit(id: TxId)
    | Rollback(id: TxId)

  predicate Relaxed(cfg: Config, floor: int) {
    !Syncs(cfg.level, floor)
  }

  predicate Pins(cfg: Config, floor: int) {
    Relaxed(cfg, floor) && cfg.dialect.Sqlite? && PerCommit(cfg.base)
  }

  /** Whether the commit waits for the disk. */
  predicate Flushes(cfg: Config, s: Sys, tx: Tx)
    requires tx.conn in s.conns
  {
    if cfg.dialect.Postgres? then !tx.local && PerCommit(s.conns[tx.conn]) else PerCommit(s.conns[tx.conn])
  }

  /** The connection goes back to the pool at the setting it was opened with. */
  function Release(cfg: Config, s: Sys, id: TxId): (s': Sys)
    requires id in s.txs
  {
    var tx := s.txs[id];
    s.(txs := s.txs - {id}, conns := if tx.pinned then s.conns[tx.conn := cfg.base] else s.conns)
  }

  function Apply(cfg: Config, s: Sys, step: Step): (s': Sys) {
    match step
    case Connect(c) => if c in s.conns then s else s.(conns := s.conns[c := cfg.base])
    case Begin(id, c, floor) =>
      if id in s.txs || !Idle(s, c) || !FloorOk(floor) then s
      else s.(txs := s.txs[id := Tx(c, floor, Pins(cfg, floor), Relaxed(cfg, floor) && cfg.dialect.Postgres?)],
              conns := if Pins(cfg, floor) then s.conns[c := Normal] else s.conns)
    case Commit(id) =>
      if id !in s.txs || s.txs[id].conn !in s.conns then s
      else
        var log := s.log + [s.txs[id].floor];
        Release(cfg, s.(log := log, flushed := if Flushes(cfg, s, s.txs[id]) then |log| else s.flushed), id)
    case Rollback(id) => if id in s.txs then Release(cfg, s, id) else s
  }

  // ------------------------------------------------------------------------------------------
  // The invariant
  // ------------------------------------------------------------------------------------------

  ghost predicate TxOk(cfg: Config, s: Sys, id: TxId)
    requires id in s.txs
  {
    var tx := s.txs[id];
    && tx.conn in s.conns && FloorOk(tx.floor) && tx.pinned == Pins(cfg, tx.floor)
    && tx.local == (Relaxed(cfg, tx.floor) && cfg.dialect.Postgres?)
    && s.conns[tx.conn] == if tx.pinned then Normal else cfg.base
  }

  /** Every connection is at its own transaction's setting, or at the one it was opened with. */
  ghost predicate Conns(cfg: Config, s: Sys) {
    && (forall id :: id in s.txs ==> TxOk(cfg, s, id))
    && (forall i, j :: i in s.txs && j in s.txs && i != j ==> s.txs[i].conn != s.txs[j].conn)
    && (forall c :: Idle(s, c) ==> s.conns[c] == cfg.base)
  }

  /** Everything the level promises to flush is on disk. */
  ghost predicate Hardened(cfg: Config, s: Sys) {
    && s.flushed <= |s.log| && (forall i :: 0 <= i < |s.log| ==> FloorOk(s.log[i]))
    && (PerCommit(cfg.base) ==> forall i :: 0 <= i < |s.log| && Syncs(cfg.level, s.log[i]) ==> i < s.flushed)
    && (PerCommit(cfg.base) && cfg.level == STRICT ==> s.flushed == |s.log|)
  }

  lemma ReleaseKeeps(cfg: Config, s: Sys, id: TxId)
    requires Conns(cfg, s) && id in s.txs
    ensures Conns(cfg, Release(cfg, s, id))
  {
    var s' := Release(cfg, s, id);
    assert TxOk(cfg, s, id);
    forall j | j in s'.txs
      ensures TxOk(cfg, s', j)
    {
      assert TxOk(cfg, s, j) && s.txs[j].conn != s.txs[id].conn;
    }
    forall c | Idle(s', c)
      ensures s'.conns[c] == cfg.base
    {
      forall j | j in s.txs && j != id
        ensures s.txs[j].conn != c
      {
        assert s'.txs[j] == s.txs[j];
      }
      assert c != s.txs[id].conn ==> Idle(s, c);
    }
  }

  lemma StepConns(cfg: Config, s: Sys, step: Step)
    requires Conns(cfg, s)
    ensures Conns(cfg, Apply(cfg, s, step))
  {
    match step
    case Connect(c) =>
      forall j | j in s.txs
        ensures TxOk(cfg, Apply(cfg, s, step), j)
      {
        assert TxOk(cfg, s, j);
      }
      forall d | Idle(Apply(cfg, s, step), d)
        ensures Apply(cfg, s, step).conns[d] == cfg.base
      {
        assert d in s.conns ==> Idle(s, d);
      }
    case Begin(id, c, floor) => BeginConns(cfg, s, id, c, floor);
    case Commit(id) =>
      if id in s.txs {
        assert TxOk(cfg, s, id);
        var log := s.log + [s.txs[id].floor];
        var t := s.(log := log, flushed := if Flushes(cfg, s, s.txs[id]) then |log| else s.flushed);
        SameConns(cfg, s, t);
        ReleaseKeeps(cfg, t, id);
      }
    case Rollback(id) =>
      if id in s.txs {
        ReleaseKeeps(cfg, s, id);
      }
  }

  lemma SameConns(cfg: Config, s: Sys, t: Sys)
    requires Conns(cfg, s) && t.conns == s.conns && t.txs == s.txs
    ensures Conns(cfg, t)
  {
    forall j | j in t.txs
      ensures TxOk(cfg, t, j)
    {
      assert TxOk(cfg, s, j);
    }
    forall c | Idle(t, c)
      ensures t.conns[c] == cfg.base
    {
      assert Idle(s, c);
    }
  }

  lemma BeginConns(cfg: Config, s: Sys, id: TxId, c: ConnId, floor: int)
    requires Conns(cfg, s)
    ensures Conns(cfg, Apply(cfg, s, Begin(id, c, floor)))
  {
    var s' := Apply(cfg, s, Begin(id, c, floor));
    if s' != s {
      forall j | j in s'.txs
        ensures TxOk(cfg, s', j)
      {
        assert j in s.txs ==> TxOk(cfg, s, j) && s.txs[j].conn != c;
      }
      forall d | Idle(s', d)
        ensures s'.conns[d] == cfg.base
      {
        assert s'.txs[id].conn == c;
        assert d != c;
        forall j | j in s.txs
          ensures s.txs[j].conn != d
        {
          assert s'.txs[j] == s.txs[j];
        }
        assert Idle(s, d);
      }
    }
  }

  /** A commit the level promises to flush is flushed: no earlier relaxed transaction has lowered
      the connection it runs on. */
  lemma CommitFlushes(cfg: Config, s: Sys, id: TxId)
    requires Conns(cfg, s) && id in s.txs && PerCommit(cfg.base)
    ensures s.txs[id].conn in s.conns && (Flushes(cfg, s, s.txs[id]) <==> Syncs(cfg.level, s.txs[id].floor))
  {
    assert TxOk(cfg, s, id);
  }

  lemma StepHardens(cfg: Config, s: Sys, step: Step)
    requires Conns(cfg, s) && Hardened(cfg, s)
    ensures Hardened(cfg, Apply(cfg, s, step))
  {
    if step.Commit? && step.id in s.txs {
      assert TxOk(cfg, s, step.id);
      if PerCommit(cfg.base) {
        CommitFlushes(cfg, s, step.id);
      }
    }
  }

  // ------------------------------------------------------------------------------------------
  // Over every run
  // ------------------------------------------------------------------------------------------

  ghost predicate IsRun(cfg: Config, states: seq<Sys>, steps: seq<Step>) {
    && |states| == |steps| + 1 && states[0] == Sys(map[], map[], [], 0)
    && forall i {:trigger steps[i]} :: 0 <= i < |steps| ==> states[i + 1] == Apply(cfg, states[i], steps[i])
  }

  lemma {:induction false} RunKeeps(cfg: Config, states: seq<Sys>, steps: seq<Step>, k: nat)
    requires IsRun(cfg, states, steps) && k < |states|
    ensures Conns(cfg, states[k]) && Hardened(cfg, states[k])
  {
    if k > 0 {
      RunKeeps(cfg, states, steps, k - 1);
      assert states[k] == Apply(cfg, states[k - 1], steps[k - 1]);
      StepConns(cfg, states[k - 1], steps[k - 1]);
      StepHardens(cfg, states[k - 1], steps[k - 1]);
    }
  }

  /** In every reachable state a commit waits for the disk exactly when the level asks it to, so no
      relaxed transaction has lowered the setting a later one commits at. */
  lemma RelaxedLowersNothing(cfg: Config, states: seq<Sys>, steps: seq<Step>, k: nat, id: TxId)
    requires IsRun(cfg, states, steps) && k < |states| && id in states[k].txs && PerCommit(cfg.base)
    ensures states[k].txs[id].conn in states[k].conns
    ensures Flushes(cfg, states[k], states[k].txs[id]) <==> Syncs(cfg.level, states[k].txs[id].floor)
  {
    RunKeeps(cfg, states, steps, k);
    CommitFlushes(cfg, states[k], id);
  }

  /** What is left of the log after a power cut: some prefix, with everything flushed in it. */
  ghost predicate Recovers(s: Sys, log: seq<int>) {
    log <= s.log && |log| >= s.flushed
  }

  /** Whenever the power goes, every committed write whose floor is at or below the level survives
      it, with everything committed before. */
  lemma SurvivesPowerCut(cfg: Config, states: seq<Sys>, steps: seq<Step>, k: nat, i: nat, log: seq<int>)
    requires IsRun(cfg, states, steps) && k < |states| && PerCommit(cfg.base)
    requires i < |states[k].log| && Syncs(cfg.level, states[k].log[i]) && Recovers(states[k], log)
    ensures i < |log| && log[..i + 1] == states[k].log[..i + 1]
  {
    RunKeeps(cfg, states, steps, k);
  }

  /** At terminal and above, a write that finished a process survives; at strict, every write. */
  lemma FinishedStaysFinished(cfg: Config, states: seq<Sys>, steps: seq<Step>, k: nat, i: nat, log: seq<int>,
                              terminal: bool)
    requires IsRun(cfg, states, steps) && k < |states| && PerCommit(cfg.base)
    requires i < |states[k].log| && states[k].log[i] == InstanceWriteFloor(terminal) && Recovers(states[k], log)
    requires cfg.level == STRICT || (cfg.level == TERMINAL && terminal)
    ensures i < |log| && log[..i + 1] == states[k].log[..i + 1]
  {
    SurvivesPowerCut(cfg, states, steps, k, i, log);
  }

  /** Flush is done at strict and none without a commit, and otherwise with one at the weakest floor.
      Once it has returned everything committed so far is on disk, at every level but none. */
  lemma FlushHardens(cfg: Config, states: seq<Sys>, steps: seq<Step>, k: nat)
    requires IsRun(cfg, states, steps) && k < |states| && PerCommit(cfg.base) && LevelOk(cfg.level) && cfg.level != NONE
    requires cfg.level == STRICT
      || (k > 0 && steps[k - 1].Commit? && steps[k - 1].id in states[k - 1].txs
          && states[k - 1].txs[steps[k - 1].id].floor == ESSENTIAL)
    ensures states[k].flushed == |states[k].log|
  {
    RunKeeps(cfg, states, steps, k);
    if cfg.level != STRICT {
      RunKeeps(cfg, states, steps, k - 1);
      assert states[k] == Apply(cfg, states[k - 1], steps[k - 1]);
      CommitFlushes(cfg, states[k - 1], steps[k - 1].id);
    }
  }

  /** All of this rests on connections that flush per commit when they are opened: with a weaker
      setting no level flushes anything. */
  lemma {:induction false} WeakBaseFlushesNothing(cfg: Config, states: seq<Sys>, steps: seq<Step>, k: nat)
    requires IsRun(cfg, states, steps) && k < |states| && !PerCommit(cfg.base)
    ensures states[k].flushed == 0
  {
    if k > 0 {
      WeakBaseFlushesNothing(cfg, states, steps, k - 1);
      RunKeeps(cfg, states, steps, k - 1);
      assert states[k] == Apply(cfg, states[k - 1], steps[k - 1]);
      if steps[k - 1].Commit? && steps[k - 1].id in states[k - 1].txs {
        assert TxOk(cfg, states[k - 1], steps[k - 1].id);
      }
    }
  }

  // ------------------------------------------------------------------------------------------
  // The transaction and its connection
  // ------------------------------------------------------------------------------------------

  class Database {
    const cfg: Config
    var conns: map<ConnId, Sync>
    var log: seq<int>
    var flushed: nat
    var flushes: nat

    constructor (cfg: Config)
      ensures this.cfg == cfg && conns == map[] && log == [] && flushed == 0 && flushes == 0
    {
      this.cfg, conns, log, flushed, flushes := cfg, map[], [], 0, 0;
    }

    /** The database as a state of the machine, with whatever other transactions are open. */
    ghost function State(txs: map<TxId, Tx>): (s: Sys)
      reads this
    {
      Sys(conns, txs, log, flushed)
    }

    /** withTxAt over one pooled connection: the machine's Begin followed by its Commit or Rollback,
        beside any other open transactions.  The commit is flushed exactly when the level asks for
        it, a failed body leaves the log alone, and on every path the connection goes back as it
        came. */
    method WithTxAt(c: ConnId, floor: int, bodyFails: bool, ghost id: TxId, ghost txs: map<TxId, Tx>)
      returns (committed: bool)
      requires c in conns && conns[c] == cfg.base && PerCommit(cfg.base) && FloorOk(floor) && flushed <= |log|
      requires id !in txs && Idle(State(txs), c)
      modifies this`conns, this`log, this`flushed
      ensures State(txs) == Apply(cfg, Apply(cfg, old(State(txs)), Begin(id, c, floor)),
                                  if bodyFails then Rollback(id) else Commit(id))
      ensures conns == old(conns) && committed == !bodyFails
      ensures log == old(log) + if committed then [floor] else []
      ensures flushed == if committed && Syncs(cfg.level, floor) then |log| else old(flushed)
    {
      ghost var begun := Apply(cfg, State(txs), Begin(id, c, floor));
      assert begun.txs - {id} == txs;
      var tx := BeginTxAt(c, floor);
      assert begun == State(txs[id := Tx(c, floor, tx.pinned, tx.local)]);
      if bodyFails {
        tx.Rollback();
        return false;
      }
      tx.Commit();
      tx.Rollback();
      return true;
    }

    method BeginTxAt(c: ConnId, floor: int) returns (tx: SyncTx)
      requires c in conns && conns[c] == cfg.base
      modifies this`conns
      ensures fresh(tx) && tx.db == this && tx.conn == c && tx.floor == floor && !tx.ended
      ensures tx.pinned == Pins(cfg, floor) && tx.local == (Relaxed(cfg, floor) && cfg.dialect.Postgres?)
      ensures conns == if tx.pinned then old(conns)[c := Normal] else old(conns)
    {
      var relaxed := !Syncs(cfg.level, floor);
      var pin := relaxed && cfg.dialect.Sqlite? && PerCommit(cfg.base);
      if pin {
        conns := conns[c := Normal];
      }
      tx := new SyncTx(this, c, floor, pin, relaxed && cfg.dialect.Postgres?);
    }

    /** Flush: a no-op at strict and none; otherwise one commit at the weakest floor. */
    method Flush(c: ConnId)
      requires c in conns && conns[c] == cfg.base && PerCommit(cfg.base) && LevelOk(cfg.level) && flushed <= |log|
      requires cfg.level == STRICT ==> flushed == |log|
      modifies this`conns, this`log, this`flushed, this`flushes
      ensures conns == old(conns) && old(log) <= log
      ensures cfg.level != NONE ==> flushed == |log|
      ensures cfg.level == NONE ==> log == old(log) && flushed == old(flushed)
      ensures flushes == old(flushes) + if cfg.level == STRICT || cfg.level == NONE then 0 else 1
    {
      if cfg.level == STRICT || cfg.level == NONE {
        return;
      }
      var ok := WithTxAt(c, ESSENTIAL, false, 0, map[]);
      if ok {
        flushes := flushes + 1;
      }
    }
  }

  /** A transaction and the connection pinned for it. */
  class SyncTx {
    const db: Database
    const conn: ConnId
    const floor: int
    const local: bool
    var pinned: bool
    var ended: bool

    constructor (db: Database, conn: ConnId, floor: int, pinned: bool, local: bool)
      ensures this.db == db && this.conn == conn && this.floor == floor && this.pinned == pinned && this.local == local
      ensures !ended
    {
      this.db, this.conn, this.floor, this.pinned, this.local, ended := db, conn, floor, pinned, local, false;
    }

    method Commit()
      requires conn in db.conns && !ended
      modifies this`pinned, this`ended, db`conns, db`log, db`flushed
      ensures ended && !pinned
      ensures db.log == old(db.log) + [floor]
      ensures db.flushed ==
        if PerCommit(old(db.conns)[conn]) && !(db.cfg.dialect.Postgres? && local) then |db.log| else old(db.flushed)
      ensures db.conns == if old(pinned) then old(db.conns)[conn := db.cfg.base] else old(db.conns)
    {
      db.log := db.log + [floor];
      if PerCommit(db.conns[conn]) && !(db.cfg.dialect.Postgres? && local) {
        db.flushed := |db.log|;
      }
      ended := true;
      ReleaseConn();
    }

    /** Idempotent: after a Commit there is nothing left to undo or to give back. */
    method Rollback()
      modifies this`pinned, this`ended, db`conns
      ensures ended && !pinned
      ensures db.conns == if old(pinned) then old(db.conns)[conn := db.cfg.base] else old(db.conns)
    {
      ended := true;
      ReleaseConn();
    }

    method ReleaseConn()
      modifies this`pinned, db`conns
      ensures !pinned && ended == old(ended)
      ensures db.conns == if old(pinned) then old(db.conns)[conn := db.cfg.base] else old(db.conns)
    {
      if !pinned {
        return;
      }
      db.conns := db.conns[conn := db.cfg.base];
      pinned := false;
    }
  }
}
