/**
 Planning a batch of process definitions: versions assigned children first, unversioned references
 pinned, and content that is already stored found by its hash.
 */
module BatchPlan {

  import opened Wrappers
  import opened TopoSort

  type Channel = nat

  const DEFAULT_CHANNEL: Channel := 0

  /** One reference to a child process, at a task and, for a map of children, a key.  Version 0 is
      an unversioned reference. */
  datatype Ref = Ref(task: nat, key: nat, child: Name, version: nat)

  datatype Def = Def(name: Name, body: nat, refs: seq<Ref>)

  /** A resolved dependency. */
  datatype Dep = Dep(task: nat, key: nat, child: Name, version: nat)

  /** The digest of a definition and its resolved dependencies: injective, and blind to their order. */
  datatype Hash = HashOf(def: Def, deps: set<Dep>)

  /** What is stored: each process's versions in order, and where its channels point. */
  datatype Registry = Registry(versions: map<Name, seq<Hash>>, channels: map<(Name, Channel), nat>)

  function History(r: Registry, n: Name): (hs: seq<Hash>) {
    if n in r.versions then r.versions[n] else []
  }

  /** The highest version stored under a hash; 0 if there is none. */
  function FindVersion(hs: seq<Hash>, h: Hash): (v: nat)
    ensures v == 0 <==> h !in hs
    ensures v > 0 ==> v <= |hs| && hs[v - 1] == h
  {
    if hs == [] then 0 else if hs[|hs| - 1] == h then |hs| else FindVersion(hs[..|hs| - 1], h)
  }

  /** No later version has the content. */
  lemma {:induction false} FindsHighest(hs: seq<Hash>, h: Hash, i: nat)
    requires FindVersion(hs, h) <= i < |hs|
    ensures hs[i] != h
  {
    if i < |hs| - 1 {
      FindsHighest(hs[..|hs| - 1], h, i);
    }
  }

  // ------------------------------------------------------------------------------------------
  // Resolving
  // ------------------------------------------------------------------------------------------

  /** A reference the engine runs at the caller's own version. */
  predicate SelfRef(name: Name, r: Ref, selfVersion: nat) {
    r.child == name && (r.version == 0 || r.version == selfVersion)
  }

  function ResolveChild(reg: Registry, channel: Channel, planned: map<Name, nat>, r: Ref): (v: Option<nat>) {
    if r.version != 0 then Some(r.version)
    else if r.child in planned then Some(planned[r.child])
    else if (r.child, channel) in reg.channels then Some(reg.channels[(r.child, channel)])
    else None
  }

  function ResolveDeps(reg: Registry, channel: Channel, planned: map<Name, nat>, name: Name, selfVersion: nat,
                       refs: seq<Ref>): (d: Option<set<Dep>>)
    decreases |refs|
  {
    if refs == [] then Some({})
    else
      var n := |refs| - 1;
      var rest := ResolveDeps(reg, channel, planned, name, selfVersion, refs[..n]);
      if rest.None? || SelfRef(name, refs[n], selfVersion) then rest
      else
        var v := ResolveChild(reg, channel, planned, refs[n]);
        if v.None? then None
        else Some(rest.value + {Dep(refs[n].task, refs[n].key, refs[n].child, v.value)})
  }

  method BuildResolvedDeps(reg: Registry, channel: Channel, planned: map<Name, nat>, def: Def, selfVersion: nat)
    returns (d: Option<set<Dep>>)
    ensures d == ResolveDeps(reg, channel, planned, def.name, selfVersion, def.refs)
  {
    var deps: set<Dep> := {};
    for i := 0 to |def.refs|
      invariant ResolveDeps(reg, channel, planned, def.name, selfVersion, def.refs[..i]) == Some(deps)
    {
      var r := def.refs[i];
      assert def.refs[..i + 1][..i] == def.refs[..i];
      if SelfRef(def.name, r, selfVersion) {
        continue;
      }
      var v := ResolveChild(reg, channel, planned, r);
      if v.None? {
        UnresolvedStays(reg, channel, planned, def.name, selfVersion, def.refs, i + 1);
        return None;
      }
      deps := deps + {Dep(r.task, r.key, r.child, v.value)};
    }
    assert def.refs[..|def.refs|] == def.refs;
    return Some(deps);
  }

  lemma {:induction false} UnresolvedStays(reg: Registry, channel: Channel, planned: map<Name, nat>, name: Name,
                                           selfVersion: nat, refs: seq<Ref>, i: nat)
    requires i <= |refs| && ResolveDeps(reg, channel, planned, name, selfVersion, refs[..i]).None?
    ensures ResolveDeps(reg, channel, planned, name, selfVersion, refs).None?
    decreases |refs|
  {
    if i == |refs| {
      assert refs[..i] == refs;
    } else {
      assert refs[..|refs| - 1][..i] == refs[..i];
      UnresolvedStays(reg, channel, planned, name, selfVersion, refs[..|refs| - 1], i);
    }
  }

  // ------------------------------------------------------------------------------------------
  // Planning
  // ------------------------------------------------------------------------------------------

  datatype Write = Write(name: Name, version: nat, saved: bool, hash: Hash)

  /** Whatever else an apply checks before it saves a new version. */
  type Judge = (Def, set<Dep>, nat) -> bool

  function PlanOne(reg: Registry, channel: Channel, judge: Judge, planned: map<Name, nat>,
                   def: Def): (w: Option<Write>) {
    var next := |History(reg, def.name)| + 1;
    var deps := ResolveDeps(reg, channel, planned, def.name, next, def.refs);
    if deps.None? then None
    else
      var hash := HashOf(def, deps.value);
      var v := FindVersion(History(reg, def.name), hash);
      if v > 0 then Some(Write(def.name, v, false, hash))
      else if !judge(def, deps.value, next) then None
      else Some(Write(def.name, next, true, hash))
  }

  function Plan(reg: Registry, channel: Channel, judge: Judge, planned: map<Name, nat>,
                defs: seq<Def>): (ws: Option<seq<Write>>)
    ensures ws.Some? ==> |ws.value| == |defs| && forall i :: 0 <= i < |defs| ==> ws.value[i].name == defs[i].name
    decreases |defs|
  {
    if defs == [] then Some([])
    else
      var w := PlanOne(reg, channel, judge, planned, defs[0]);
      if w.None? then None
      else
        var rest := Plan(reg, channel, judge, planned[defs[0].name := w.value.version], defs[1..]);
        if rest.None? then None else Some([w.value] + rest.value)
  }

  ghost predicate DistinctNames(defs: seq<Def>) {
    forall i, j :: 0 <= i < j < |defs| ==> defs[i].name != defs[j].name
  }

  /** References within the batch go to definitions planned before. */
  ghost predicate ChildrenPlanned(defs: seq<Def>, batch: set<Name>, before: set<Name>)
    decreases |defs|
  {
    defs != [] ==>
      && (forall r :: r in defs[0].refs && r.child != defs[0].name && r.child in batch ==> r.child in before)
      && ChildrenPlanned(defs[1..], batch, before + {defs[0].name})
  }

  lemma {:induction false} ResolvedDep(reg: Registry, channel: Channel, planned: map<Name, nat>, name: Name,
                                       selfVersion: nat, refs: seq<Ref>, r: Ref)
    requires ResolveDeps(reg, channel, planned, name, selfVersion, refs).Some?
    requires r in refs && !SelfRef(name, r, selfVersion)
    ensures ResolveChild(reg, channel, planned, r).Some?
    ensures Dep(r.task, r.key, r.child, ResolveChild(reg, channel, planned, r).value)
      in ResolveDeps(reg, channel, planned, name, selfVersion, refs).value
    decreases |refs|
  {
    var n := |refs| - 1;
    if r != refs[n] {
      assert refs == refs[..n] + [refs[n]];
      ResolvedDep(reg, channel, planned, name, selfVersion, refs[..n], r);
    }
  }

  /** The reference is resolved to the version written here. */
  predicate PinnedTo(w: Write, r: Ref, version: nat) {
    Dep(r.task, r.key, r.child, version) in w.hash.deps
  }

  lemma PinnedNow(reg: Registry, channel: Channel, judge: Judge, planned: map<Name, nat>, def: Def, r: Ref)
    requires PlanOne(reg, channel, judge, planned, def).Some?
    requires r in def.refs && r.version == 0 && r.child in planned && r.child != def.name
    ensures PinnedTo(PlanOne(reg, channel, judge, planned, def).value, r, planned[r.child])
  {
    ResolvedDep(reg, channel, planned, def.name, |History(reg, def.name)| + 1, def.refs, r);
  }

  lemma PlanHead(reg: Registry, channel: Channel, judge: Judge, planned: map<Name, nat>, defs: seq<Def>, w: Write)
    requires defs != [] && Plan(reg, channel, judge, planned, defs).Some?
    requires PlanOne(reg, channel, judge, planned, defs[0]) == Some(w)
    ensures w.name == defs[0].name && Plan(reg, channel, judge, planned[defs[0].name := w.version], defs[1..]).Some?
    ensures Plan(reg, channel, judge, planned, defs).value ==
      [w] + Plan(reg, channel, judge, planned[defs[0].name := w.version], defs[1..]).value
  {
  }

  /** The reference of the i-th write goes to the j-th, or, with none such, to one planned before. */
  predicate PinnedAt(ws: seq<Write>, planned: map<Name, nat>, i: nat, r: Ref, j: int)
    requires i < |ws|
  {
    if 0 <= j < i then ws[j].name == r.child && PinnedTo(ws[i], r, ws[j].version)
    else r.child in planned && PinnedTo(ws[i], r, planned[r.child])
  }

  /** Every unversioned reference to a definition of the batch is pinned to the version planned for
      that definition, whatever the channel says: with nothing planned before the batch, that of
      the write at position j, before this one. */
  lemma {:induction false} PinnedToPlanned(reg: Registry, channel: Channel, judge: Judge, planned: map<Name, nat>,
                                           defs: seq<Def>, ws: seq<Write>, batch: set<Name>, i: nat, r: Ref)
    returns (j: int)
    requires ChildrenPlanned(defs, batch, planned.Keys)
    requires Plan(reg, channel, judge, planned, defs) == Some(ws) && i < |defs|
    requires r in defs[i].refs && r.version == 0 && r.child in batch && r.child != defs[i].name
    ensures PinnedAt(ws, planned, i, r, j)
    ensures planned == map[] ==> 0 <= j < i
    decreases |defs|
  {
    var w := PlanOne(reg, channel, judge, planned, defs[0]).value;
    PlanHead(reg, channel, judge, planned, defs, w);
    if i == 0 {
      PinnedNow(reg, channel, judge, planned, defs[0], r);
      j := -1;
    } else {
      var next := planned[defs[0].name := w.version];
      assert next.Keys == planned.Keys + {defs[0].name};
      assert defs[1..][i - 1] == defs[i] && ws[1..] == Plan(reg, channel, judge, next, defs[1..]).value;
      j := PinnedToPlanned(reg, channel, judge, next, defs[1..], ws[1..], batch, i - 1, r);
      j := PinnedShift(ws, planned, i, r, j);
    }
  }

  lemma PinnedShift(ws: seq<Write>, planned: map<Name, nat>, i: nat, r: Ref, k: int) returns (j: int)
    requires 0 < i < |ws| && PinnedAt(ws[1..], planned[ws[0].name := ws[0].version], i - 1, r, k)
    ensures PinnedAt(ws, planned, i, r, j)
  {
    j := if 0 <= k < i - 1 then k + 1 else if r.child == ws[0].name then 0 else -1;
  }

  // ------------------------------------------------------------------------------------------
  // What a definition is pinned to
  // ------------------------------------------------------------------------------------------

  /** The dependencies are those of the references, one for each but the definition's own, and no others. */
  lemma {:induction false} DepsExact(reg: Registry, channel: Channel, planned: map<Name, nat>, name: Name,
                                     selfVersion: nat, refs: seq<Ref>, d: Dep)
    requires ResolveDeps(reg, channel, planned, name, selfVersion, refs).Some?
    ensures d in ResolveDeps(reg, channel, planned, name, selfVersion, refs).value <==>
      exists r :: r in refs && !SelfRef(name, r, selfVersion)
        && ResolveChild(reg, channel, planned, r) == Some(d.version) && d == Dep(r.task, r.key, r.child, d.version)
    decreases |refs|
  {
    if refs != [] {
      var n := |refs| - 1;
      DepsExact(reg, channel, planned, name, selfVersion, refs[..n], d);
      assert refs == refs[..n] + [refs[n]];
    }
  }

  /** Where an unversioned or an explicit reference of a definition goes, when it names nothing planned. */
  predicate PinsOutside(reg: Registry, channel: Channel, w: Write, r: Ref) {
    if r.version != 0 then PinnedTo(w, r, r.version)
    else (r.child, channel) in reg.channels && PinnedTo(w, r, reg.channels[(r.child, channel)])
  }

  lemma PinnedOutsideNow(reg: Registry, channel: Channel, judge: Judge, planned: map<Name, nat>, def: Def, r: Ref)
    requires PlanOne(reg, channel, judge, planned, def).Some? && r in def.refs
    requires !SelfRef(def.name, r, |History(reg, def.name)| + 1) && (r.version == 0 ==> r.child !in planned)
    ensures PinsOutside(reg, channel, PlanOne(reg, channel, judge, planned, def).value, r)
  {
    ResolvedDep(reg, channel, planned, def.name, |History(reg, def.name)| + 1, def.refs, r);
  }

  /** In every planned batch an unversioned reference to a process outside the batch is pinned to the
      version its apply channel points at, which must exist, and an explicit one to the version it names. */
  lemma {:induction false} PinnedOutside(reg: Registry, channel: Channel, judge: Judge, planned: map<Name, nat>,
                                         defs: seq<Def>, ws: seq<Write>, i: nat, r: Ref)
    requires Plan(reg, channel, judge, planned, defs) == Some(ws) && i < |defs| && r in defs[i].refs
    requires !SelfRef(defs[i].name, r, |History(reg, defs[i].name)| + 1)
    requires r.version == 0 ==> r.child !in planned && forall j :: 0 <= j < i ==> defs[j].name != r.child
    ensures PinsOutside(reg, channel, ws[i], r)
    decreases |defs|
  {
    var w := PlanOne(reg, channel, judge, planned, defs[0]).value;
    PlanHead(reg, channel, judge, planned, defs, w);
    if i == 0 {
      PinnedOutsideNow(reg, channel, judge, planned, defs[0], r);
    } else {
      assert defs[1..][i - 1] == defs[i];
      assert forall j :: 0 <= j < i - 1 ==> defs[1..][j] == defs[j + 1];
      PinnedOutside(reg, channel, judge, planned[defs[0].name := w.version], defs[1..], ws[1..], i - 1, r);
    }
  }

  // ------------------------------------------------------------------------------------------
  // Committing, and planning the same batch again
  // ------------------------------------------------------------------------------------------

  /** channelsFor, decided against the registry the batch was planned on. */
  function Upsert(planned: Registry, reg: Registry, channel: Channel, w: Write): (m: map<(Name, Channel), nat>) {
    var m := reg.channels[(w.name, channel) := w.version];
    if channel != DEFAULT_CHANNEL && (w.name, DEFAULT_CHANNEL) !in planned.channels
    then m[(w.name, DEFAULT_CHANNEL) := w.version] else m
  }

  function CommitOne(planned: Registry, reg: Registry, channel: Channel, w: Write): (r: Registry) {
    Registry(if w.saved then reg.versions[w.name := History(reg, w.name) + [w.hash]] else reg.versions,
             Upsert(planned, reg, channel, w))
  }

  function Commit(planned: Registry, reg: Registry, channel: Channel, ws: seq<Write>): (r: Registry)
    decreases |ws|
  {
    if ws == [] then reg else Commit(planned, CommitOne(planned, reg, channel, ws[0]), channel, ws[1..])
  }

  ghost predicate DistinctWrites(ws: seq<Write>) {
    forall i, j :: 0 <= i < j < |ws| ==> ws[i].name != ws[j].name
  }

  lemma {:induction false} CommitLeaves(planned: Registry, reg: Registry, channel: Channel, ws: seq<Write>, n: Name)
    requires forall i :: 0 <= i < |ws| ==> ws[i].name != n
    ensures History(Commit(planned, reg, channel, ws), n) == History(reg, n)
    ensures forall c :: (n, c) in Commit(planned, reg, channel, ws).channels <==> (n, c) in reg.channels
    ensures forall c :: (n, c) in reg.channels ==>
      Commit(planned, reg, channel, ws).channels[(n, c)] == reg.channels[(n, c)]
    decreases |ws|
  {
    if ws != [] {
      CommitLeaves(planned, CommitOne(planned, reg, channel, ws[0]), channel, ws[1..], n);
    }
  }

  lemma {:induction false} CommitStores(planned: Registry, reg: Registry, channel: Channel, ws: seq<Write>, i: nat)
    requires DistinctWrites(ws) && i < |ws|
    ensures History(Commit(planned, reg, channel, ws), ws[i].name)
      == History(reg, ws[i].name) + if ws[i].saved then [ws[i].hash] else []
    decreases |ws|
  {
    var next := CommitOne(planned, reg, channel, ws[0]);
    if i == 0 {
      CommitLeaves(planned, next, channel, ws[1..], ws[0].name);
    } else {
      CommitStores(planned, next, channel, ws[1..], i - 1);
      assert ws[1..][i - 1] == ws[i];
    }
  }

  /** The channel of this name, before and after, or none either way. */
  predicate SameChannel(m: map<(Name, Channel), nat>, m': map<(Name, Channel), nat>, n: Name, c: Channel) {
    ((n, c) in m' <==> (n, c) in m) && ((n, c) in m ==> m'[(n, c)] == m[(n, c)])
  }

  /** The apply's own channel, and the default one of a process that had none. */
  predicate MovesChannel(reg: Registry, channel: Channel, n: Name, c: Channel) {
    c == channel || (c == DEFAULT_CHANNEL && (n, c) !in reg.channels)
  }

  lemma {:induction false} ChannelMoves(planned: Registry, reg: Registry, channel: Channel, ws: seq<Write>, i: nat,
                                        c: Channel)
    requires DistinctWrites(ws) && i < |ws|
    ensures var n, m' := ws[i].name, Commit(planned, reg, channel, ws).channels;
      if MovesChannel(planned, channel, n, c)
      then (n, c) in m' && m'[(n, c)] == ws[i].version
      else SameChannel(reg.channels, m', n, c)
    decreases |ws|
  {
    var next := CommitOne(planned, reg, channel, ws[0]);
    if i == 0 {
      CommitLeaves(planned, next, channel, ws[1..], ws[0].name);
    } else {
      ChannelMoves(planned, next, channel, ws[1..], i - 1, c);
      assert ws[1..][i - 1] == ws[i];
    }
  }

  /** Where every channel points after an apply: the apply's own channel at the planned version for each
      process of the batch, the default channel too for a process that had none, and every other
      channel, of this process or another, where it was. */
  lemma ChannelsAfter(reg: Registry, channel: Channel, ws: seq<Write>, n: Name, c: Channel)
    requires DistinctWrites(ws)
    ensures var m' := Commit(reg, reg, channel, ws).channels;
      && (forall i :: 0 <= i < |ws| && ws[i].name == n && MovesChannel(reg, channel, n, c) ==>
            (n, c) in m' && m'[(n, c)] == ws[i].version)
      && (!MovesChannel(reg, channel, n, c) ==> SameChannel(reg.channels, m', n, c))
      && ((forall i :: 0 <= i < |ws| ==> ws[i].name != n) ==> SameChannel(reg.channels, m', n, c))
  {
    if i :| 0 <= i < |ws| && ws[i].name == n {
      ChannelMoves(reg, reg, channel, ws, i, c);
    } else {
      CommitLeaves(reg, reg, channel, ws, n);
    }
  }

  /** An explicit reference to oneself at the version just assigned, or at the one that would come
      next: left out of one plan's dependencies and not of the other's. */
  predicate SelfClash(def: Def, w: Write) {
    w.saved && exists r ::
      r in def.refs && r.child == def.name && (r.version == w.version || r.version == w.version + 1)
  }

  lemma {:induction false} SameDeps(reg: Registry, reg': Registry, channel: Channel, planned: map<Name, nat>,
                                    name: Name, v: nat, v': nat, refs: seq<Ref>)
    requires forall r :: r in refs ==> (SelfRef(name, r, v) <==> SelfRef(name, r, v'))
    requires forall r ::
      r in refs && !SelfRef(name, r, v) ==>
        ResolveChild(reg, channel, planned, r) == ResolveChild(reg', channel, planned, r)
    ensures ResolveDeps(reg, channel, planned, name, v, refs) == ResolveDeps(reg', channel, planned, name, v', refs)
    decreases |refs|
  {
    if refs != [] {
      SameDeps(reg, reg', channel, planned, name, v, v', refs[..|refs| - 1]);
    }
  }

  lemma FindAppended(hs: seq<Hash>, h: Hash)
    ensures FindVersion(hs + [h], h) == |hs| + 1
  {
  }

  /** The registry after the commit, as far as the rest of the batch can tell. */
  ghost predicate Committed(reg: Registry, reg': Registry, batch: set<Name>, ws: seq<Write>) {
    && (forall i :: 0 <= i < |ws| ==>
          History(reg', ws[i].name) == History(reg, ws[i].name) + if ws[i].saved then [ws[i].hash] else [])
    && (forall n, c :: n !in batch ==> ((n, c) in reg'.channels <==> (n, c) in reg.channels))
    && (forall n, c :: n !in batch && (n, c) in reg.channels ==> reg'.channels[(n, c)] == reg.channels[(n, c)])
  }

  lemma ReplanDeps(reg: Registry, reg': Registry, channel: Channel, planned: map<Name, nat>, def: Def,
                   batch: set<Name>, v: nat, v': nat)
    requires Committed(reg, reg', batch, [])
    requires v == v'
      || (v' == v + 1 && forall r :: r in def.refs && r.child == def.name ==> r.version != v && r.version != v')
    requires forall r :: r in def.refs && r.child != def.name && r.child in batch ==> r.child in planned
    requires v > 0
    requires def.name in batch
    ensures ResolveDeps(reg, channel, planned, def.name, v, def.refs) ==
      ResolveDeps(reg', channel, planned, def.name, v', def.refs)
  {
    SameDeps(reg, reg', channel, planned, def.name, v, v', def.refs);
  }

  lemma ReplanOne(reg: Registry, reg': Registry, channel: Channel, judge: Judge, judge': Judge,
                  planned: map<Name, nat>, def: Def, batch: set<Name>, w: Write)
    requires Replans(reg, reg', channel, judge, planned, def, batch, w) && !SelfClash(def, w)
    ensures PlanOne(reg', channel, judge', planned, def) == Some(w.(saved := false))
  {
    var hs, hs' := History(reg, def.name), History(reg', def.name);
    ReplanDeps(reg, reg', channel, planned, def, batch, |hs| + 1, |hs'| + 1);
    FindAppended(hs, w.hash);
    assert !w.saved ==> hs' == hs;
  }

  /** A definition planned on one registry, and the registry its commit left. */
  ghost predicate Replans(reg: Registry, reg': Registry, channel: Channel, judge: Judge,
                          planned: map<Name, nat>, def: Def, batch: set<Name>, w: Write) {
    && PlanOne(reg, channel, judge, planned, def) == Some(w) && def.name in batch
    && Committed(reg, reg', batch, [])
    && History(reg', def.name) == History(reg, def.name) + (if w.saved then [w.hash] else [])
    && (forall r :: r in def.refs && r.child != def.name && r.child in batch ==> r.child in planned)
  }

  // ------------------------------------------------------------------------------------------
  // Explicit self-versions
  // ------------------------------------------------------------------------------------------

  /** A task, or one key of a map of children, makes one reference; validation lets no two tasks share
      an id. */
  ghost predicate OneRefPerSlot(refs: seq<Ref>) {
    forall r, s :: r in refs && s in refs && r.task == s.task && r.key == s.key ==> r == s
  }

  lemma {:induction false} NoSuchDep(reg: Registry, channel: Channel, planned: map<Name, nat>, name: Name, v: nat,
                                     refs: seq<Ref>, d: Dep)
    requires forall r :: r in refs && r.task == d.task && r.key == d.key ==> SelfRef(name, r, v)
    ensures var deps := ResolveDeps(reg, channel, planned, name, v, refs); deps.Some? ==> d !in deps.value
    decreases |refs|
  {
    if refs != [] {
      NoSuchDep(reg, channel, planned, name, v, refs[..|refs| - 1], d);
    }
  }

  /** A reference left out of one plan and kept by the other gives the two different hashes. */
  lemma ClashMoves(reg: Registry, reg': Registry, channel: Channel, planned: map<Name, nat>, name: Name,
                   v: nat, v': nat, refs: seq<Ref>, r: Ref)
    requires OneRefPerSlot(refs) && r in refs && SelfRef(name, r, v) && !SelfRef(name, r, v')
    requires ResolveDeps(reg, channel, planned, name, v, refs).Some?
    requires ResolveDeps(reg', channel, planned, name, v', refs).Some?
    ensures ResolveDeps(reg, channel, planned, name, v, refs) != ResolveDeps(reg', channel, planned, name, v', refs)
  {
    ResolvedDep(reg', channel, planned, name, v', refs, r);
    var d := Dep(r.task, r.key, r.child, ResolveChild(reg', channel, planned, r).value);
    NoSuchDep(reg, channel, planned, name, v, refs, d);
  }

  lemma {:induction false} AllResolve(reg: Registry, channel: Channel, planned: map<Name, nat>, name: Name, v: nat,
                                      refs: seq<Ref>)
    requires forall r :: r in refs && !SelfRef(name, r, v) ==> ResolveChild(reg, channel, planned, r).Some?
    ensures ResolveDeps(reg, channel, planned, name, v, refs).Some?
    decreases |refs|
  {
    if refs != [] {
      AllResolve(reg, channel, planned, name, v, refs[..|refs| - 1]);
    }
  }

  /** What resolved once resolves again after the commit. */
  lemma StillResolves(reg: Registry, reg': Registry, channel: Channel, judge: Judge, planned: map<Name, nat>,
                      def: Def, batch: set<Name>, w: Write, v: nat)
    requires Replans(reg, reg', channel, judge, planned, def, batch, w)
    ensures ResolveDeps(reg', channel, planned, def.name, v, def.refs).Some?
  {
    var next := |History(reg, def.name)| + 1;
    forall r | r in def.refs && !SelfRef(def.name, r, v)
      ensures ResolveChild(reg', channel, planned, r).Some?
    {
      if r.version == 0 {
        ResolvedDep(reg, channel, planned, def.name, next, def.refs, r);
      }
    }
    AllResolve(reg', channel, planned, def.name, v, def.refs);
  }

  /** The dependencies a saved definition resolves to the second time. */
  ghost function DepsAgain(reg': Registry, channel: Channel, planned: map<Name, nat>, def: Def,
                           w: Write): (d: Option<set<Dep>>) {
    ResolveDeps(reg', channel, planned, def.name, w.version + 1, def.refs)
  }

  /** They differ exactly on a clash. */
  lemma ClashDeps(reg: Registry, reg': Registry, channel: Channel, judge: Judge, planned: map<Name, nat>,
                  def: Def, batch: set<Name>, w: Write)
    requires Replans(reg, reg', channel, judge, planned, def, batch, w) && OneRefPerSlot(def.refs) && w.saved
    ensures DepsAgain(reg', channel, planned, def, w).Some?
    ensures DepsAgain(reg', channel, planned, def, w).value != w.hash.deps <==> SelfClash(def, w)
  {
    var v := w.version;
    StillResolves(reg, reg', channel, judge, planned, def, batch, w, v + 1);
    if SelfClash(def, w) {
      var r :| r in def.refs && r.child == def.name && (r.version == v || r.version == v + 1);
      if r.version == v {
        ClashMoves(reg, reg', channel, planned, def.name, v, v + 1, def.refs, r);
      } else {
        ClashMoves(reg', reg, channel, planned, def.name, v + 1, v, def.refs, r);
      }
    } else {
      ReplanDeps(reg, reg', channel, planned, def, batch, v, v + 1);
    }
  }

  /** A plan that saves nothing and leaves the definition at the version it has. */
  predicate Unmoved(o: Option<Write>, w: Write) {
    o.Some? && !o.value.saved && o.value.version == w.version
  }

  /** Planned again after its commit, a definition keeps its version and is not saved exactly when it
      does not name its own assigned version or the next. */
  lemma ReplanOneExact(reg: Registry, reg': Registry, channel: Channel, judge: Judge, judge': Judge,
                       planned: map<Name, nat>, def: Def, batch: set<Name>, w: Write)
    requires Replans(reg, reg', channel, judge, planned, def, batch, w) && OneRefPerSlot(def.refs)
    ensures Unmoved(PlanOne(reg', channel, judge', planned, def), w) <==> !SelfClash(def, w)
    ensures !SelfClash(def, w) ==> PlanOne(reg', channel, judge', planned, def) == Some(w.(saved := false))
  {
    if SelfClash(def, w) {
      ClashDeps(reg, reg', channel, judge, planned, def, batch, w);
    } else {
      ReplanOne(reg, reg', channel, judge, judge', planned, def, batch, w);
    }
  }

  /** It is saved a second time exactly when, on top of a clash, no earlier version has the content
      it hashes to by then and the validator accepts it. */
  lemma SavedAgainExact(reg: Registry, reg': Registry, channel: Channel, judge: Judge, judge': Judge,
                        planned: map<Name, nat>, def: Def, batch: set<Name>, w: Write)
    requires Replans(reg, reg', channel, judge, planned, def, batch, w) && OneRefPerSlot(def.refs) && w.saved
    ensures DepsAgain(reg', channel, planned, def, w).Some?
    ensures var again := PlanOne(reg', channel, judge', planned, def);
      var deps := DepsAgain(reg', channel, planned, def, w).value;
      again.Some? && again.value.saved <==>
        SelfClash(def, w) && HashOf(def, deps) !in History(reg, def.name) && judge'(def, deps, w.version + 1)
  {
    ClashDeps(reg, reg', channel, judge, planned, def, batch, w);
    var hs, h := History(reg, def.name), HashOf(def, DepsAgain(reg', channel, planned, def, w).value);
    assert h in hs + [w.hash] <==> h in hs || h == w.hash;
  }

  // ------------------------------------------------------------------------------------------
  // The batch planned again
  // ------------------------------------------------------------------------------------------

  ghost predicate AllUnmoved(again: Option<seq<Write>>, ws: seq<Write>) {
    again.Some? && |again.value| == |ws| && forall i :: 0 <= i < |ws| ==> Unmoved(Some(again.value[i]), ws[i])
  }

  ghost predicate AnyClash(defs: seq<Def>, ws: seq<Write>)
    requires |defs| == |ws|
  {
    exists i :: 0 <= i < |defs| && SelfClash(defs[i], ws[i])
  }

  lemma AllUnmovedCons(w: Write, rest: seq<Write>, o: Write, again: seq<Write>)
    ensures AllUnmoved(Some([o] + again), [w] + rest) <==> Unmoved(Some(o), w) && AllUnmoved(Some(again), rest)
  {
    var ws, os := [w] + rest, [o] + again;
    assert ws[0] == w && os[0] == o;
    if AllUnmoved(Some(os), ws) {
      forall i | 0 <= i < |rest|
        ensures Unmoved(Some(again[i]), rest[i])
      {
        assert Unmoved(Some(os[i + 1]), ws[i + 1]);
      }
    }
  }

  lemma AnyClashCons(d: Def, defs: seq<Def>, w: Write, ws: seq<Write>)
    requires |defs| == |ws|
    ensures AnyClash([d] + defs, [w] + ws) <==> SelfClash(d, w) || AnyClash(defs, ws)
  {
    var ds, vs := [d] + defs, [w] + ws;
    if AnyClash(ds, vs) {
      var i :| 0 <= i < |ds| && SelfClash(ds[i], vs[i]);
      assert i > 0 ==> SelfClash(defs[i - 1], ws[i - 1]);
    }
    if SelfClash(d, w) {
      assert SelfClash(ds[0], vs[0]);
    }
    if AnyClash(defs, ws) {
      var i :| 0 <= i < |defs| && SelfClash(defs[i], ws[i]);
      assert SelfClash(ds[i + 1], vs[i + 1]);
    }
  }

  /** From any point of the batch on: up to the first clash the second plan follows the first. */
  lemma {:induction false} ReplanSuffix(reg: Registry, reg': Registry, channel: Channel, judge: Judge, judge': Judge,
                                        planned: map<Name, nat>, defs: seq<Def>, ws: seq<Write>, batch: set<Name>)
    requires Plan(reg, channel, judge, planned, defs) == Some(ws) && Committed(reg, reg', batch, ws)
    requires ChildrenPlanned(defs, batch, planned.Keys)
    requires forall i :: 0 <= i < |defs| ==> defs[i].name in batch && OneRefPerSlot(defs[i].refs)
    ensures AllUnmoved(Plan(reg', channel, judge', planned, defs), ws) <==> !AnyClash(defs, ws)
    decreases |defs|
  {
    if defs != [] {
      var w := PlanOne(reg, channel, judge, planned, defs[0]).value;
      PlanHead(reg, channel, judge, planned, defs, w);
      var next := planned[defs[0].name := w.version];
      var rest := Plan(reg, channel, judge, next, defs[1..]).value;
      assert ws[0] == w && ws[1..] == rest && defs == [defs[0]] + defs[1..];
      assert next.Keys == planned.Keys + {defs[0].name};
      CommittedTail(reg, reg', batch, ws);
      ReplanOneExact(reg, reg', channel, judge, judge', planned, defs[0], batch, w);
      AnyClashCons(defs[0], defs[1..], w, rest);
      if !SelfClash(defs[0], w) {
        ReplanSuffix(reg, reg', channel, judge, judge', next, defs[1..], rest, batch);
      }
      ReplanHead(reg', channel, judge', planned, defs, w, rest);
    }
  }

  lemma CommittedTail(reg: Registry, reg': Registry, batch: set<Name>, ws: seq<Write>)
    requires Committed(reg, reg', batch, ws) && ws != []
    ensures Committed(reg, reg', batch, ws[1..]) && Committed(reg, reg', batch, [])
    ensures History(reg', ws[0].name) == History(reg, ws[0].name) + if ws[0].saved then [ws[0].hash] else []
  {
  }

  /** The second plan is unmoved exactly when its first definition is, and the rest, planned with
      that definition's version, are. */
  lemma ReplanHead(reg: Registry, channel: Channel, judge: Judge, planned: map<Name, nat>, defs: seq<Def>, w: Write,
                   rest: seq<Write>)
    requires defs != [] && |rest| == |defs| - 1
    ensures AllUnmoved(Plan(reg, channel, judge, planned, defs), [w] + rest) <==>
      Unmoved(PlanOne(reg, channel, judge, planned, defs[0]), w)
      && AllUnmoved(Plan(reg, channel, judge, planned[defs[0].name := w.version], defs[1..]), rest)
  {
    var o := PlanOne(reg, channel, judge, planned, defs[0]);
    if o.Some? {
      var after := Plan(reg, channel, judge, planned[defs[0].name := o.value.version], defs[1..]);
      if after.Some? {
        AllUnmovedCons(w, rest, o.value, after.value);
      }
    }
  }

  ghost function Names(defs: seq<Def>): (ns: set<Name>) {
    set d | d in defs :: d.name
  }

  lemma CommitIsCommitted(reg: Registry, channel: Channel, defs: seq<Def>, ws: seq<Write>)
    requires DistinctNames(defs) && |ws| == |defs| && forall i :: 0 <= i < |defs| ==> ws[i].name == defs[i].name
    ensures Committed(reg, Commit(reg, reg, channel, ws), Names(defs), ws)
  {
    forall i | 0 <= i < |ws|
      ensures History(Commit(reg, reg, channel, ws), ws[i].name) ==
        History(reg, ws[i].name) + if ws[i].saved then [ws[i].hash] else []
    {
      CommitStores(reg, reg, channel, ws, i);
    }
    forall n | n !in Names(defs)
      ensures forall i :: 0 <= i < |ws| ==> ws[i].name != n
      ensures forall c :: (n, c) in Commit(reg, reg, channel, ws).channels <==> (n, c) in reg.channels
      ensures forall c :: (n, c) in reg.channels ==>
        Commit(reg, reg, channel, ws).channels[(n, c)] == reg.channels[(n, c)]
    {
      assert forall i :: 0 <= i < |defs| ==> defs[i] in defs;
      CommitLeaves(reg, reg, channel, ws, n);
    }
  }

  /** A committed batch, planned again on the same channel, saves nothing new and keeps every version,
      whatever the validator says by then, exactly when no definition it saved names its own assigned
      version or the next. */
  lemma ReplanSavesNothing(reg: Registry, channel: Channel, judge: Judge, judge': Judge, defs: seq<Def>, ws: seq<Write>)
    requires DistinctNames(defs) && ChildrenPlanned(defs, Names(defs), {})
    requires forall i :: 0 <= i < |defs| ==> OneRefPerSlot(defs[i].refs)
    requires Plan(reg, channel, judge, map[], defs) == Some(ws)
    ensures AllUnmoved(Plan(Commit(reg, reg, channel, ws), channel, judge', map[], defs), ws)
      <==> forall i :: 0 <= i < |defs| ==> !SelfClash(defs[i], ws[i])
  {
    CommitIsCommitted(reg, channel, defs, ws);
    var none: map<Name, nat> := map[];
    assert none.Keys == {};
    assert forall i :: 0 <= i < |defs| ==> defs[i] in defs;
    ReplanSuffix(reg, Commit(reg, reg, channel, ws), channel, judge, judge', map[], defs, ws, Names(defs));
  }

  // ------------------------------------------------------------------------------------------
  // Two runs with a clash
  // ------------------------------------------------------------------------------------------

  /** Whatever is asked of it. */
  function Lenient(): (j: Judge) {
    (d, deps, v) => true
  }

  /** A definition of process 7 whose one task calls process 7 at an explicit version. */
  function CallsItself(version: nat): (d: Def) {
    Def(7, 0, [Ref(0, 0, 7, version)])
  }

  function SelfDeps(version: nat, next: nat): (deps: set<Dep>) {
    if version == next then {} else {Dep(0, 0, 7, version)}
  }

  /** The plan of that definition on its own, over any history. */
  lemma PlanSelf(reg: Registry, version: nat, planned: map<Name, nat>)
    requires version > 0
    ensures var def := CallsItself(version); var hs := History(reg, 7); var next := |hs| + 1;
      var h := HashOf(def, SelfDeps(version, next)); var v := FindVersion(hs, h);
      Plan(reg, DEFAULT_CHANNEL, Lenient(), planned, [def]) ==
      Some([if v > 0 then Write(7, v, false, h) else Write(7, next, true, h)])
  {
    var def := CallsItself(version);
    var next := |History(reg, 7)| + 1;
    assert def.refs[..0] == [];
    assert ResolveDeps(reg, DEFAULT_CHANNEL, planned, 7, next, []) == Some({});
    assert {} + {Dep(0, 0, 7, version)} == {Dep(0, 0, 7, version)};
    assert ResolveDeps(reg, DEFAULT_CHANNEL, planned, 7, next, def.refs) == Some(SelfDeps(version, next));
    var h := HashOf(def, SelfDeps(version, next));
    var v := FindVersion(History(reg, 7), h);
    var w := if v > 0 then Write(7, v, false, h) else Write(7, next, true, h);
    assert PlanOne(reg, DEFAULT_CHANNEL, Lenient(), planned, def) == Some(w);
    assert [def][1..] == [] && [w] + [] == [w];
  }

  /** The registry once a single write is committed. */
  lemma CommitSingle(reg: Registry, w: Write)
    requires w.name == 7
    ensures History(Commit(reg, reg, DEFAULT_CHANNEL, [w]), 7) == History(reg, 7) + if w.saved then [w.hash] else []
    ensures var m := Commit(reg, reg, DEFAULT_CHANNEL, [w]).channels;
      (7, DEFAULT_CHANNEL) in m && m[(7, DEFAULT_CHANNEL)] == w.version
  {
    assert [w][1..] == [];
  }

  /** Plan and commit. */
  function ApplySelf(reg: Registry, version: nat): (res: Option<(Registry, Write)>) {
    var plan := Plan(reg, DEFAULT_CHANNEL, Lenient(), map[], [CallsItself(version)]);
    if plan.None? then None else Some((Commit(reg, reg, DEFAULT_CHANNEL, plan.value), plan.value[0]))
  }

  /** What one apply does to the history and the channel of process 7. */
  lemma AppliedSelf(reg: Registry, version: nat, v: nat, saved: bool)
    requires version > 0
    requires var hs := History(reg, 7); var h := HashOf(CallsItself(version), SelfDeps(version, |hs| + 1));
      if saved then h !in hs && v == |hs| + 1 else v > 0 && FindVersion(hs, h) == v
    ensures ApplySelf(reg, version).Some?
    ensures var hs := History(reg, 7); var h := HashOf(CallsItself(version), SelfDeps(version, |hs| + 1));
      var (reg', w) := ApplySelf(reg, version).value;
      w == Write(7, v, saved, h) && History(reg', 7) == hs + (if saved then [h] else [])
      && (7, DEFAULT_CHANNEL) in reg'.channels && reg'.channels[(7, DEFAULT_CHANNEL)] == v
  {
    PlanSelf(reg, version, map[]);
    var h := HashOf(CallsItself(version), SelfDeps(version, |History(reg, 7)| + 1));
    CommitSingle(reg, Write(7, v, saved, h));
  }

  /** Calling itself as version 1, it is saved as version 1 and, applied again, as version 2. */
  lemma SelfVersionSavesAgain() returns (first: (Registry, Write), again: (Registry, Write))
    ensures ApplySelf(Registry(map[], map[]), 1) == Some(first) && ApplySelf(first.0, 1) == Some(again)
    ensures first.1.saved && first.1.version == 1 && again.1.saved && again.1.version == 2
  {
    var empty := Registry(map[], map[]);
    AppliedSelf(empty, 1, 1, true);
    first := ApplySelf(empty, 1).value;
    assert Dep(0, 0, 7, 1) in SelfDeps(1, 2) && Dep(0, 0, 7, 1) !in SelfDeps(1, 1);
    AppliedSelf(first.0, 1, 2, true);
    again := ApplySelf(first.0, 1).value;
  }

  /** Calling itself as version 2, it is saved as version 1, then as version 2; the third apply saves
      nothing, finds version 1, and moves the channel back to it. */
  lemma SelfVersionMovesBack() returns (one: (Registry, Write), two: (Registry, Write), three: (Registry, Write))
    ensures ApplySelf(Registry(map[], map[]), 2) == Some(one) && ApplySelf(one.0, 2) == Some(two)
    ensures ApplySelf(two.0, 2) == Some(three)
    ensures one.1.saved && one.1.version == 1 && two.1.saved && two.1.version == 2 && SelfClash(CallsItself(2), two.1)
    ensures !three.1.saved && three.1.version == 1
    ensures (7, DEFAULT_CHANNEL) in three.0.channels && three.0.channels[(7, DEFAULT_CHANNEL)] == 1
  {
    var empty := Registry(map[], map[]);
    AppliedSelf(empty, 2, 1, true);
    one := ApplySelf(empty, 2).value;
    assert Dep(0, 0, 7, 2) in SelfDeps(2, 1) && Dep(0, 0, 7, 2) !in SelfDeps(2, 2);
    AppliedSelf(one.0, 2, 2, true);
    two := ApplySelf(one.0, 2).value;
    assert CallsItself(2).refs[0].version == 2;
    var hs := History(two.0, 7);
    assert hs[0] == HashOf(CallsItself(2), SelfDeps(2, 3)) && hs[1] != hs[0] && |hs| == 2;
    assert hs[..1][..0] == [] && FindVersion(hs[..1], hs[0]) == 1 && FindVersion(hs, hs[0]) == 1;
    AppliedSelf(two.0, 2, 1, false);
    three := ApplySelf(two.0, 2).value;
  }

  // ------------------------------------------------------------------------------------------
  // The whole plan
  // ------------------------------------------------------------------------------------------

  /** Two entries of one name: the last one stands. */
  function ByName(defs: seq<Def>): (m: map<Name, Def>)
    ensures forall n :: n in m <==> exists d :: d in defs && d.name == n
    ensures forall n :: n in m ==> m[n].name == n && m[n] in defs
  {
    if defs == [] then map[]
    else
      var n := |defs| - 1;
      assert defs == defs[..n] + [defs[n]];
      ByName(defs[..n])[defs[n].name := defs[n]]
  }

  function ChildNames(refs: seq<Ref>): (ns: seq<Name>)
    ensures |ns| == |refs| && forall i :: 0 <= i < |refs| ==> ns[i] == refs[i].child
  {
    seq(|refs|, i requires 0 <= i < |refs| => refs[i].child)
  }

  function GraphOf(m: map<Name, Def>): (g: Graph) {
    map n | n in m :: ChildNames(m[n].refs)
  }

  function InOrder(m: map<Name, Def>, names: seq<Name>): (defs: seq<Def>)
    requires forall n :: n in names ==> n in m
    ensures |defs| == |names| && forall i :: 0 <= i < |names| ==> defs[i] == m[names[i]]
  {
    seq(|names|, i requires 0 <= i < |names| => m[names[i]])
  }

  ghost function SetOf(names: seq<Name>): (ns: set<Name>) {
    set n | n in names
  }

  /** A children-first order plans every child of the batch before its parents. */
  lemma {:induction false} SortedIsPlanned(m: map<Name, Def>, names: seq<Name>, k: nat)
    requires Topological(GraphOf(m), names) && (forall n :: n in m ==> m[n].name == n) && k <= |names|
    ensures ChildrenPlanned(InOrder(m, names)[k..], m.Keys, SetOf(names[..k]))
    decreases |names| - k
  {
    var defs := InOrder(m, names);
    if k < |names| {
      SortedIsPlanned(m, names, k + 1);
      var d, g := defs[k], GraphOf(m);
      assert names[k] in g && g[names[k]] == ChildNames(d.refs) && d.name == names[k];
      forall r | r in d.refs && r.child != d.name && r.child in m
        ensures r.child in names[..k]
      {
        var i :| 0 <= i < |d.refs| && d.refs[i] == r;
        assert ChildNames(d.refs)[i] == r.child;
        assert Edge(g, names[k], r.child);
      }
      assert defs[k..][0] == d && defs[k..][1..] == defs[k + 1..];
      assert names[..k + 1] == names[..k] + [d.name];
      assert SetOf(names[..k]) + {d.name} == SetOf(names[..k + 1]);
    }
  }

  /** planBatch: refused when the batch refers to itself in a circle; otherwise planned in an order
      that lists every name once, children first, so that PinnedToPlanned and ReplanSavesNothing
      apply to it. */
  method PlanBatch(reg: Registry, channel: Channel, judge: Judge, batch: seq<Def>)
    returns (plan: Option<seq<Write>>, defs: seq<Def>)
    ensures HasCycle(GraphOf(ByName(batch))) ==> plan.None?
    ensures !HasCycle(GraphOf(ByName(batch))) ==>
      && plan == Plan(reg, channel, judge, map[], defs)
      && DistinctNames(defs) && ChildrenPlanned(defs, Names(defs), {})
      && Names(defs) == ByName(batch).Keys
      && forall d :: d in defs ==> d.name in ByName(batch) && d == ByName(batch)[d.name]
  {
    var byName := ByName(batch);
    RootNames(batch);
    var ok, names := Sort(GraphOf(byName), BatchNames(batch));
    if !ok {
      return None, [];
    }
    defs := OrderDefs(byName, names);
    plan := PlanInOrder(reg, channel, judge, defs);
  }

  function BatchNames(batch: seq<Def>): (ns: seq<Name>) {
    seq(|batch|, i requires 0 <= i < |batch| => batch[i].name)
  }

  lemma RootNames(batch: seq<Def>)
    ensures forall n :: n in BatchNames(batch) <==> n in GraphOf(ByName(batch))
  {
    var roots := BatchNames(batch);
    forall n
      ensures n in roots <==> n in ByName(batch)
    {
      if n in ByName(batch) {
        var d :| d in batch && d.name == n;
        var i :| 0 <= i < |batch| && batch[i] == d;
        assert roots[i] == n;
      }
      if n in roots {
        var i :| 0 <= i < |roots| && roots[i] == n;
        assert batch[i] in batch;
      }
    }
  }

  method OrderDefs(m: map<Name, Def>, names: seq<Name>) returns (defs: seq<Def>)
    requires Topological(GraphOf(m), names) && forall n :: n in m ==> m[n].name == n
    ensures DistinctNames(defs) && ChildrenPlanned(defs, Names(defs), {}) && Names(defs) == m.Keys
    ensures forall d :: d in defs ==> d.name in m && d == m[d.name]
  {
    assert forall n :: n in names ==> n in GraphOf(m);
    defs := InOrder(m, names);
    OrderedNames(m, names);
    SortedIsPlanned(m, names, 0);
    assert defs[0..] == defs && SetOf(names[..0]) == {};
  }

  lemma OrderedNames(m: map<Name, Def>, names: seq<Name>)
    requires Topological(GraphOf(m), names) && forall n :: n in m ==> m[n].name == n
    ensures DistinctNames(InOrder(m, names)) && Names(InOrder(m, names)) == m.Keys
    ensures forall d :: d in InOrder(m, names) ==> d.name in m && d == m[d.name]
  {
    var defs := InOrder(m, names);
    forall n | n in m
      ensures n in Names(defs)
    {
      assert n in GraphOf(m);
      var i :| 0 <= i < |names| && names[i] == n;
      assert defs[i] in defs;
    }
    forall d | d in defs
      ensures d.name in m && d == m[d.name]
    {
      var i :| 0 <= i < |defs| && defs[i] == d;
      assert names[i] in names;
    }
  }

  /** One definition: resolve, hash, look the content up, and only then judge it. */
  method PlanNext(reg: Registry, channel: Channel, judge: Judge, planned: map<Name, nat>, def: Def)
    returns (w: Option<Write>)
    ensures w == PlanOne(reg, channel, judge, planned, def)
  {
    var next := |History(reg, def.name)| + 1;
    var deps := BuildResolvedDeps(reg, channel, planned, def, next);
    if deps.None? {
      return None;
    }
    var hash := HashOf(def, deps.value);
    var v := FindVersion(History(reg, def.name), hash);
    if v > 0 {
      return Some(Write(def.name, v, false, hash));
    }
    if !judge(def, deps.value, next) {
      return None;
    }
    return Some(Write(def.name, next, true, hash));
  }

  /** A plan so far, and the plan of what is left. */
  function Joined(ws: seq<Write>, rest: Option<seq<Write>>): (plan: Option<seq<Write>>) {
    if rest.None? then None else Some(ws + rest.value)
  }

  lemma PlanStep(reg: Registry, channel: Channel, judge: Judge, planned: map<Name, nat>, defs: seq<Def>, i: nat,
                 ws: seq<Write>)
    requires i < |defs|
    ensures var w := PlanOne(reg, channel, judge, planned, defs[i]);
      Joined(ws, Plan(reg, channel, judge, planned, defs[i..])) ==
      if w.None? then None
      else Joined(ws + [w.value], Plan(reg, channel, judge, planned[defs[i].name := w.value.version], defs[i + 1..]))
  {
    assert defs[i..][0] == defs[i] && defs[i..][1..] == defs[i + 1..];
    var w := PlanOne(reg, channel, judge, planned, defs[i]);
    if w.Some? {
      var rest := Plan(reg, channel, judge, planned[defs[i].name := w.value.version], defs[i + 1..]);
      assert rest.Some? ==> ws + ([w.value] + rest.value) == (ws + [w.value]) + rest.value;
    }
  }

  /** The planning loop. */
  method PlanInOrder(reg: Registry, channel: Channel, judge: Judge, defs: seq<Def>) returns (plan: Option<seq<Write>>)
    ensures plan == Plan(reg, channel, judge, map[], defs)
  {
    var planned: map<Name, nat> := map[];
    var ws: seq<Write> := [];
    ghost var all := Plan(reg, channel, judge, planned, defs);
    assert defs[0..] == defs && (all.Some? ==> ws + all.value == all.value);
    for i := 0 to |defs|
      invariant all == Joined(ws, Plan(reg, channel, judge, planned, defs[i..]))
    {
      PlanStep(reg, channel, judge, planned, defs, i, ws);
      var w := PlanNext(reg, channel, judge, planned, defs[i]);
      if w.None? {
        return None;
      }
      ws := ws + [w.value];
      planned := planned[defs[i].name := w.value.version];
    }
    assert defs[|defs|..] == [] && ws + [] == ws;
    return Some(ws);
  }
}
