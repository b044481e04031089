/**
 The object store: content addressed by hash, claims on it held by instance and log rows, and a
 sweep that marks unclaimed content and deletes what stayed marked past the grace period.  Writes
 and the sweep's statements interleave freely.
 */
module ObjectStore {

  import opened Wrappers

  type Id = nat
  /** Content is addressed by an injective hash, so the address stands for the content. */
  type Hash = nat

  datatype Owner = Instance(id: Id) | Log(id: Id)

  /** Running or on its way to a stop, at rest under a pause, or finished. */
  datatype Stage = Busy | Suspended | Concluded

  /** An instance row: the tree it belongs to, how far it has got, its lease, and the hashes of its
      stored objects list. */
  datatype Row = Row(root: Id, stage: Stage, worker: Option<nat>, epoch: nat, objects: set<Hash>)

  /** A claimed copy: the hashes it loaded, and those of the concluded rows of its own tree it has
      read since (a parent collecting its children). */
  datatype Copy = Copy(worker: nat, loaded: set<Hash>, read: map<Id, set<Hash>>)

  datatype Store = Store(
    rows: map<Id, Row>, logs: map<Id, set<Hash>>, used: set<Owner>,
    refs: set<(Hash, Owner)>, objects: map<Hash, Option<int>>,
    memory: map<(Id, nat), Copy>, orphans: set<(Hash, Owner)>)

  predicate Claimed(s: Store, h: Hash) {
    exists p :: p in s.refs && p.0 == h
  }

  predicate Live(s: Store, o: Owner) {
    match o
    case Instance(x) => x in s.rows
    case Log(l) => l in s.logs
  }

  predicate Fenced(s: Store, x: Id, e: nat) {
    && (x, e) in s.memory && x in s.rows
    && s.rows[x].epoch == e && s.rows[x].worker == Some(s.memory[(x, e)].worker)
  }

  // ------------------------------------------------------------------------------------------
  // Statements
  // ------------------------------------------------------------------------------------------

  /** PutObject: writing content that is already there clears its mark. */
  function PutAll(objects: map<Hash, Option<int>>, pending: set<Hash>): (o: map<Hash, Option<int>>) {
    map h | h in objects.Keys + pending :: if h in pending then None else objects[h]
  }

  function ClaimAll(refs: set<(Hash, Owner)>, referenced: set<Hash>, o: Owner): (r: set<(Hash, Owner)>) {
    refs + set h | h in referenced :: (h, o)
  }

  /** applyContextObjectDiff: claim what the new state references, drop what only the old one did. */
  function Diff(refs: set<(Hash, Owner)>, o: Owner, loaded: set<Hash>, referenced: set<Hash>): (r: set<(Hash, Owner)>) {
    ClaimAll(refs, referenced, o) - set h | h in loaded - referenced :: (h, o)
  }

  /** Hashes a copy may refer to without writing them: markers it loaded or read. */
  function Known(c: Copy): (hs: set<Hash>) {
    c.loaded + set y, h | y in c.read && h in c.read[y] :: h
  }

  /** The rows a landed write inserts beside its own, in the same tree. */
  datatype Child = Child(id: Id, objects: set<Hash>)

  function AddChildren(s: Store, root: Id, children: seq<Child>): (s': Store)
    decreases |children|
  {
    if children == [] then s
    else
      var c := children[0];
      AddChildren(s.(rows := s.rows[c.id := Row(root, Busy, None, 0, c.objects)],
                     used := s.used + {Instance(c.id)},
                     refs := ClaimAll(s.refs, c.objects, Instance(c.id))), root, children[1..])
  }

  predicate ChildrenOk(s: Store, known: set<Hash>, children: seq<Child>) {
    && (forall i :: 0 <= i < |children| ==> Instance(children[i].id) !in s.used && children[i].objects <= known)
    && (forall i, j :: 0 <= i < j < |children| ==> children[i].id != children[j].id)
  }

  datatype Step =
    | Create(x: Id, pending: set<Hash>)
    | ClaimRow(x: Id, worker: nat)
    | ReadRow(x: Id, epoch: nat, y: Id)
    | WriteRow(x: Id, epoch: nat, pending: set<Hash>, referenced: set<Hash>, stage: Stage, children: seq<Child>)
    | SetStage(x: Id, stage: Stage)
    | Revive(root: Id, kept: map<Id, set<Hash>>)
    | Prune(root: Id)
    | WriteLog(l: Id, pending: set<Hash>, referenced: set<Hash>)
    | PruneLogs(ls: set<Id>)
    | FindOrphans
    | DropOrphans
    | Clear
    | Mark(now: int)
    | Collect(now: int, grace: nat)

  function ReviveRefs(s: Store, kept: map<Id, set<Hash>>): (r: set<(Hash, Owner)>) {
    set p | p in s.refs && (p.1.Instance? && p.1.id in kept ==> p.0 in kept[p.1.id])
  }

  function Doomed(s: Store, now: int, grace: nat): (hs: set<Hash>) {
    set h | h in s.objects && !Claimed(s, h) && s.objects[h].Some? && s.objects[h].value < now - grace
  }

  function Apply(s: Store, step: Step): (s': Store) {
    match step
    case Create(x, pending) =>
      if Instance(x) in s.used then s
      else s.(rows := s.rows[x := Row(x, Busy, None, 0, pending)], used := s.used + {Instance(x)},
              objects := PutAll(s.objects, pending), refs := ClaimAll(s.refs, pending, Instance(x)))
    case ClaimRow(x, w) =>
      if x !in s.rows || s.rows[x].stage != Busy then s
      else
        var r := s.rows[x];
        s.(rows := s.rows[x := r.(worker := Some(w), epoch := r.epoch + 1)],
           memory := s.memory[(x, r.epoch + 1) := Copy(w, r.objects, map[])])
    case ReadRow(x, e, y) =>
      if !Fenced(s, x, e) || y !in s.rows || s.rows[y].stage != Concluded || s.rows[y].root != s.rows[x].root then s
      else s.(memory := s.memory[(x, e) := s.memory[(x, e)].(read := s.memory[(x, e)].read[y := s.rows[y].objects])])
    case WriteRow(x, e, pending, referenced, stage, children) =>
      if !Fenced(s, x, e) || !(referenced <= pending + Known(s.memory[(x, e)]))
         || !ChildrenOk(s, pending + Known(s.memory[(x, e)]), children) then s
      else
        var r := s.rows[x];
        AddChildren(
          s.(rows := s.rows[x := r.(worker := None, stage := stage, objects := referenced)],
             objects := PutAll(s.objects, pending),
             refs := Diff(s.refs, Instance(x), s.memory[(x, e)].loaded, referenced)),
          r.root, children)
    case SetStage(x, stage) =>
      if x !in s.rows || s.rows[x].worker.Some? || s.rows[x].stage == Concluded then s
      else s.(rows := s.rows[x := s.rows[x].(stage := stage)])
    case Revive(root, kept) =>
      if exists x :: x in s.rows && s.rows[x].root == root && s.rows[x].worker.Some? then s
      else if !(forall x :: x in kept ==> x in s.rows && s.rows[x].root == root && kept[x] <= s.rows[x].objects) then s
      else s.(rows := map x | x in s.rows ::
                        if x in kept then s.rows[x].(stage := Busy, objects := kept[x]) else s.rows[x],
              refs := ReviveRefs(s, kept))
    case Prune(root) =>
      if root !in s.rows || s.rows[root].stage != Concluded then s
      else if exists x :: x in s.rows && s.rows[x].root == root && s.rows[x].stage == Busy then s
      else s.(rows := map x | x in s.rows && s.rows[x].root != root :: s.rows[x])
    case WriteLog(l, pending, referenced) =>
      if Log(l) in s.used || !(pending <= referenced) then s
      else s.(logs := s.logs[l := referenced], used := s.used + {Log(l)},
              objects := PutAll(s.objects, pending), refs := ClaimAll(s.refs, referenced, Log(l)))
    case PruneLogs(ls) => s.(logs := map l | l in s.logs && l !in ls :: s.logs[l])
    case FindOrphans => s.(orphans := set p | p in s.refs && !Live(s, p.1))
    case DropOrphans => s.(refs := s.refs - s.orphans)
    case Clear => s.(objects := map h | h in s.objects :: if Claimed(s, h) then None else s.objects[h])
    case Mark(now) =>
      s.(objects := map h | h in s.objects :: if s.objects[h].None? && !Claimed(s, h) then Some(now) else s.objects[h])
    case Collect(now, grace) => s.(objects := map h | h in s.objects && h !in Doomed(s, now, grace) :: s.objects[h])
  }

  // ------------------------------------------------------------------------------------------
  // The invariant
  // ------------------------------------------------------------------------------------------

  /** The claims of a live instance are exactly the hashes of its stored list, and each of them
      has its content. */
  ghost predicate RowOk(s: Store, x: Id)
    requires x in s.rows
  {
    && Instance(x) in s.used
    && (forall h :: (h, Instance(x)) in s.refs <==> h in s.rows[x].objects)
    && s.rows[x].objects <= s.objects.Keys
    && (s.rows[x].worker.Some? ==> s.rows[x].stage == Busy)
  }

  ghost predicate LogOk(s: Store, l: Id)
    requires l in s.logs
  {
    Log(l) in s.used && forall h :: (h, Log(l)) in s.refs <==> h in s.logs[l]
  }

  /** The copy a current grant holds is still true of the rows it was taken from. */
  ghost predicate CopyOk(s: Store, x: Id, e: nat) {
    (x, e) in s.memory && x in s.rows && s.rows[x].epoch == e && s.rows[x].worker.Some? ==>
      && s.memory[(x, e)].loaded == s.rows[x].objects
      && forall y :: y in s.memory[(x, e)].read ==>
           y in s.rows && s.rows[y].root == s.rows[x].root && s.rows[y].stage == Concluded &&
             s.rows[y].objects == s.memory[(x, e)].read[y]
  }

  ghost predicate Bounded(s: Store) {
    && (forall x, e :: (x, e) in s.memory ==> Instance(x) in s.used && (x in s.rows ==> e <= s.rows[x].epoch))
    && (forall p :: p in s.refs ==> p.1 in s.used)
    && (forall p :: p in s.orphans ==> p.1 in s.used && !Live(s, p.1))
  }

  ghost predicate Inv(s: Store) {
    && (forall x :: x in s.rows ==> RowOk(s, x))
    && (forall l :: l in s.logs ==> LogOk(s, l))
    && (forall x, e {:trigger CopyOk(s, x, e)} :: CopyOk(s, x, e))
    && Bounded(s)
  }

  // ------------------------------------------------------------------------------------------
  // Every step keeps it
  // ------------------------------------------------------------------------------------------

  lemma KnownHasContent(s: Store, x: Id, e: nat)
    requires Inv(s) && Fenced(s, x, e)
    ensures Known(s.memory[(x, e)]) <= s.objects.Keys
  {
    assert CopyOk(s, x, e);
    assert RowOk(s, x);
    forall y, h | y in s.memory[(x, e)].read && h in s.memory[(x, e)].read[y]
      ensures h in s.objects
    {
      assert RowOk(s, y);
    }
  }

  /** After the diff, and only because the copy loaded what the row still lists, the claims are
      the new references. */
  lemma DiffExact(refs: set<(Hash, Owner)>, o: Owner, loaded: set<Hash>, referenced: set<Hash>)
    requires forall h :: (h, o) in refs <==> h in loaded
    ensures forall h :: (h, o) in Diff(refs, o, loaded, referenced) <==> h in referenced
    ensures forall h, p :: p != o ==> ((h, p) in Diff(refs, o, loaded, referenced) <==> (h, p) in refs)
  {
  }

  lemma LandKeeps(s: Store, x: Id, e: nat, pending: set<Hash>, referenced: set<Hash>, stage: Stage, s1: Store)
    requires Inv(s) && Fenced(s, x, e) && referenced <= pending + Known(s.memory[(x, e)])
    requires s1 == s.(rows := s.rows[x := s.rows[x].(worker := None, stage := stage, objects := referenced)],
                      objects := PutAll(s.objects, pending),
                      refs := Diff(s.refs, Instance(x), s.memory[(x, e)].loaded, referenced))
    ensures Inv(s1) && s.objects.Keys + pending <= s1.objects.Keys && s1.used == s.used
  {
    KnownHasContent(s, x, e);
    assert CopyOk(s, x, e);
    assert RowOk(s, x);
    DiffExact(s.refs, Instance(x), s.memory[(x, e)].loaded, referenced);
    forall y | y in s1.rows
      ensures RowOk(s1, y)
    {
      assert RowOk(s, y);
    }
    forall l | l in s1.logs
      ensures LogOk(s1, l)
    {
      assert LogOk(s, l);
    }
    forall y, f
      ensures CopyOk(s1, y, f)
    {
      assert CopyOk(s, y, f);
    }
  }

  /** A new row with content for everything it references. */
  lemma InsertKeeps(s: Store, x: Id, root: Id, objects: set<Hash>, s1: Store)
    requires Inv(s) && Instance(x) !in s.used && objects <= s.objects.Keys
    requires s1 == s.(rows := s.rows[x := Row(root, Busy, None, 0, objects)], used := s.used + {Instance(x)},
                      refs := ClaimAll(s.refs, objects, Instance(x)))
    ensures Inv(s1)
  {
    assert x in s.rows ==> RowOk(s, x);
    forall y | y in s1.rows
      ensures RowOk(s1, y)
    {
      assert y in s.rows ==> RowOk(s, y);
    }
    forall l | l in s1.logs
      ensures LogOk(s1, l)
    {
      assert LogOk(s, l);
    }
    forall y, f
      ensures CopyOk(s1, y, f)
    {
      assert CopyOk(s, y, f);
    }
  }

  lemma {:induction false} AddChildrenKeeps(s: Store, root: Id, known: set<Hash>, children: seq<Child>)
    requires Inv(s) && ChildrenOk(s, known, children) && known <= s.objects.Keys
    ensures Inv(AddChildren(s, root, children))
    decreases |children|
  {
    if children != [] {
      var c := children[0];
      var s1 := s.(rows := s.rows[c.id := Row(root, Busy, None, 0, c.objects)], used := s.used + {Instance(c.id)},
                   refs := ClaimAll(s.refs, c.objects, Instance(c.id)));
      InsertKeeps(s, c.id, root, c.objects, s1);
      AddChildrenKeeps(s1, root, known, children[1..]);
    }
  }

  /** Content may be added and marks may move without touching anything the invariant reads. */
  lemma ContentKeeps(s: Store, objects: map<Hash, Option<int>>)
    requires Inv(s) && s.objects.Keys <= objects.Keys
    ensures Inv(s.(objects := objects))
  {
    var s1 := s.(objects := objects);
    forall y | y in s1.rows
      ensures RowOk(s1, y)
    {
      assert RowOk(s, y);
    }
    forall l | l in s1.logs
      ensures LogOk(s1, l)
    {
      assert LogOk(s, l);
    }
    forall y, f
      ensures CopyOk(s1, y, f)
    {
      assert CopyOk(s, y, f);
    }
  }

  lemma WriteKeeps(s: Store, step: Step)
    requires Inv(s) && step.WriteRow?
    ensures Inv(Apply(s, step))
  {
    var x, e := step.x, step.epoch;
    if Fenced(s, x, e) && step.referenced <= step.pending + Known(s.memory[(x, e)])
       && ChildrenOk(s, step.pending + Known(s.memory[(x, e)]), step.children) {
      KnownHasContent(s, x, e);
      var s1 := s.(rows := s.rows[x := s.rows[x].(worker := None, stage := step.stage, objects := step.referenced)],
                   objects := PutAll(s.objects, step.pending),
                   refs := Diff(s.refs, Instance(x), s.memory[(x, e)].loaded, step.referenced));
      LandKeeps(s, x, e, step.pending, step.referenced, step.stage, s1);
      AddChildrenKeeps(s1, s.rows[x].root, step.pending + Known(s.memory[(x, e)]), step.children);
    }
  }

  lemma CreateKeeps(s: Store, step: Step)
    requires Inv(s) && step.Create?
    ensures Inv(Apply(s, step))
  {
    if Instance(step.x) !in s.used {
      ContentKeeps(s, PutAll(s.objects, step.pending));
      InsertKeeps(s.(objects := PutAll(s.objects, step.pending)), step.x, step.x, step.pending, Apply(s, step));
    }
  }

  // Claims, reads, revivals, prunes, audit rows and the sweep.

  predicate IsSweep(step: Step) {
    step.FindOrphans? || step.DropOrphans? || step.Clear? || step.Mark? || step.Collect?
  }

  /** An orphaned claim has no live owner to miss it, and only unclaimed content is deleted. */
  lemma SweepRows(s: Store, step: Step, s1: Store, y: Id)
    requires Inv(s) && IsSweep(step) && s1 == Apply(s, step) && y in s1.rows
    ensures RowOk(s1, y)
  {
    assert RowOk(s, y) && Live(s, Instance(y));
    assert forall h :: h in s.rows[y].objects ==> (h, Instance(y)) in s.refs;
  }

  lemma ReviveRows(s: Store, step: Step, s1: Store, y: Id)
    requires Inv(s) && step.Revive? && s1 == Apply(s, step) && y in s1.rows
    ensures RowOk(s1, y)
  {
    assert RowOk(s, y);
  }

  lemma PlainRows(s: Store, step: Step, s1: Store, y: Id)
    requires Inv(s) && !step.WriteRow? && !step.Create? && s1 == Apply(s, step) && y in s1.rows
    ensures RowOk(s1, y)
  {
    if IsSweep(step) {
      SweepRows(s, step, s1, y);
    } else if step.Revive? {
      ReviveRows(s, step, s1, y);
    } else {
      assert RowOk(s, y);
    }
  }

  lemma PlainLogs(s: Store, step: Step, s1: Store, l: Id)
    requires Inv(s) && !step.WriteRow? && !step.Create? && s1 == Apply(s, step) && l in s1.logs
    ensures LogOk(s1, l)
  {
    assert l in s.logs ==> LogOk(s, l) && Live(s, Log(l));
  }

  /** No tree is pruned or revived under a grant. */
  lemma PlainCopies(s: Store, step: Step, s1: Store, y: Id, f: nat)
    requires Inv(s) && !step.WriteRow? && !step.Create? && s1 == Apply(s, step)
    ensures CopyOk(s1, y, f)
  {
    assert CopyOk(s, y, f);
    assert y in s.rows ==> RowOk(s, y);
  }

  lemma PlainBounded(s: Store, step: Step)
    requires Inv(s) && !step.WriteRow? && !step.Create?
    ensures Bounded(Apply(s, step))
  {
    assert forall x :: x in s.rows ==> RowOk(s, x);
  }

  lemma PlainKeeps(s: Store, step: Step, s1: Store)
    requires Inv(s) && !step.WriteRow? && !step.Create? && s1 == Apply(s, step)
    ensures Inv(s1)
  {
    forall y | y in s1.rows
      ensures RowOk(s1, y)
    {
      PlainRows(s, step, s1, y);
    }
    forall l | l in s1.logs
      ensures LogOk(s1, l)
    {
      PlainLogs(s, step, s1, l);
    }
    forall y, f
      ensures CopyOk(s1, y, f)
    {
      PlainCopies(s, step, s1, y, f);
    }
    PlainBounded(s, step);
  }

  lemma StepKeeps(s: Store, step: Step)
    requires Inv(s)
    ensures Inv(Apply(s, step))
  {
    if step.Create? {
      CreateKeeps(s, step);
    } else if step.WriteRow? {
      WriteKeeps(s, step);
    } else {
      PlainKeeps(s, step, Apply(s, step));
    }
  }

  // ------------------------------------------------------------------------------------------
  // Over every run
  // ------------------------------------------------------------------------------------------

  ghost predicate IsRun(states: seq<Store>, steps: seq<Step>) {
    && |states| == |steps| + 1 && states[0] == Store(map[], map[], {}, {}, map[], map[], {})
    && forall i {:trigger steps[i]} :: 0 <= i < |steps| ==> states[i + 1] == Apply(states[i], steps[i])
  }

  lemma {:induction false} RunKeeps(states: seq<Store>, steps: seq<Step>, k: nat)
    requires IsRun(states, steps) && k < |states|
    ensures Inv(states[k])
  {
    if k > 0 {
      RunKeeps(states, steps, k - 1);
      assert states[k] == Apply(states[k - 1], steps[k - 1]);
      StepKeeps(states[k - 1], steps[k - 1]);
    }
  }

  /** In every reachable state, whatever the interleaving with the sweep, an instance claims
      exactly the hashes its row lists, and the content of every one of them is there. */
  lemma ClaimsMatchReferences(states: seq<Store>, steps: seq<Step>, k: nat, x: Id, h: Hash)
    requires IsRun(states, steps) && k < |states| && x in states[k].rows
    ensures (h, Instance(x)) in states[k].refs <==> h in states[k].rows[x].objects
    ensures h in states[k].rows[x].objects ==> h in states[k].objects
  {
    RunKeeps(states, steps, k);
    assert RowOk(states[k], x);
  }

  lemma ClaimedStays(s: Store, step: Step, h: Hash, o: Owner)
    requires Inv(s) && h in s.objects && (h, o) in s.refs
    ensures h in Apply(s, step).objects
  {
    if step.WriteRow? && Fenced(s, step.x, step.epoch) {
      var s1 := s.(rows := s.rows[step.x := s.rows[step.x].(worker := None, stage := step.stage,
                                                            objects := step.referenced)],
                   objects := PutAll(s.objects, step.pending),
                   refs := Diff(s.refs, Instance(step.x), s.memory[(step.x, step.epoch)].loaded, step.referenced));
      AddChildrenContent(s1, s.rows[step.x].root, step.children);
    }
  }

  lemma {:induction false} AddChildrenContent(s: Store, root: Id, children: seq<Child>)
    ensures AddChildren(s, root, children).objects == s.objects
    ensures AddChildren(s, root, children).logs == s.logs
    ensures AddChildren(s, root, children).orphans == s.orphans
    decreases |children|
  {
    if children != [] {
      var c := children[0];
      AddChildrenContent(s.(rows := s.rows[c.id := Row(root, Busy, None, 0, c.objects)],
                            used := s.used + {Instance(c.id)},
                            refs := ClaimAll(s.refs, c.objects, Instance(c.id))), root, children[1..]);
    }
  }

  /** Content an audit row could fetch when it was written stays fetchable as long as the row. */
  lemma {:induction false} LogContentStays(states: seq<Store>, steps: seq<Step>, i: nat, j: nat, l: Id, h: Hash)
    requires IsRun(states, steps) && i <= j < |states|
    requires forall k {:trigger states[k]} :: i <= k <= j ==> l in states[k].logs && h in states[k].logs[l]
    requires h in states[i].objects
    ensures h in states[j].objects
  {
    if i < j {
      LogContentStays(states, steps, i, j - 1, l, h);
      RunKeeps(states, steps, j - 1);
      assert LogOk(states[j - 1], l);
      assert states[j] == Apply(states[j - 1], steps[j - 1]);
      ClaimedStays(states[j - 1], steps[j - 1], h, Log(l));
    }
  }

  /** Collected content was unclaimed, and had carried its mark since a sweep more than the grace
      period before found it unclaimed. */
  lemma CollectedWasMarked(states: seq<Store>, steps: seq<Step>, k: nat, h: Hash) returns (m: nat)
    requires IsRun(states, steps) && k < |steps| && h in states[k].objects && h !in states[k + 1].objects
    ensures steps[k].Collect? && !Claimed(states[k], h)
    ensures m < k && steps[m].Mark? && steps[m].now < steps[k].now - steps[k].grace
    ensures h in states[m].objects && !Claimed(states[m], h)
    ensures forall j {:trigger states[j]} ::
      m < j <= k ==> h in states[j].objects && states[j].objects[h] == Some(steps[m].now)
  {
    assert states[k + 1] == Apply(states[k], steps[k]);
    OnlyCollectDeletes(states[k], steps[k], h);
    m := MarkedSince(states, steps, k, h);
  }

  lemma OnlyCollectDeletes(s: Store, step: Step, h: Hash)
    requires h in s.objects && h !in Apply(s, step).objects
    ensures step.Collect? && h in Doomed(s, step.now, step.grace)
  {
    if step.WriteRow? && Fenced(s, step.x, step.epoch) {
      AddChildrenContent(
        s.(rows := s.rows[step.x := s.rows[step.x].(worker := None, stage := step.stage, objects := step.referenced)],
           objects := PutAll(s.objects, step.pending),
           refs := Diff(s.refs, Instance(step.x), s.memory[(step.x, step.epoch)].loaded, step.referenced)),
        s.rows[step.x].root, step.children);
    }
  }

  /** A mark is put on only by a sweep that finds the content unclaimed. */
  lemma MarkComesFrom(s: Store, step: Step, h: Hash)
    requires h in Apply(s, step).objects && Apply(s, step).objects[h].Some?
    ensures h in s.objects
    ensures s.objects[h] == Apply(s, step).objects[h]
      || (step.Mark? && !Claimed(s, h) && Apply(s, step).objects[h] == Some(step.now))
  {
    if step.WriteRow? && Fenced(s, step.x, step.epoch) {
      AddChildrenContent(
        s.(rows := s.rows[step.x := s.rows[step.x].(worker := None, stage := step.stage, objects := step.referenced)],
           objects := PutAll(s.objects, step.pending),
           refs := Diff(s.refs, Instance(step.x), s.memory[(step.x, step.epoch)].loaded, step.referenced)),
        s.rows[step.x].root, step.children);
    }
  }

  lemma {:induction false} MarkedSince(states: seq<Store>, steps: seq<Step>, k: nat, h: Hash) returns (m: nat)
    requires IsRun(states, steps) && k < |states| && h in states[k].objects && states[k].objects[h].Some?
    ensures m < k && steps[m].Mark? && steps[m].now == states[k].objects[h].value
    ensures h in states[m].objects && !Claimed(states[m], h)
    ensures forall j {:trigger states[j]} ::
      m < j <= k ==> h in states[j].objects && states[j].objects[h] == Some(steps[m].now)
  {
    assert k > 0;
    assert states[k] == Apply(states[k - 1], steps[k - 1]);
    MarkComesFrom(states[k - 1], steps[k - 1], h);
    if states[k - 1].objects[h] == states[k].objects[h] {
      m := MarkedSince(states, steps, k - 1, h);
    } else {
      m := k - 1;
    }
  }

  // ------------------------------------------------------------------------------------------
  // What nobody needs goes away
  // ------------------------------------------------------------------------------------------

  /** The step writes this content, whether or not it is already there. */
  predicate Rewrites(step: Step, h: Hash) {
    (step.Create? || step.WriteRow? || step.WriteLog?) && h in step.pending
  }

  /** What a landed write does to the content. */
  lemma WriteContent(s: Store, step: Step)
    requires step.WriteRow?
    ensures Apply(s, step).objects == s.objects || Apply(s, step).objects == PutAll(s.objects, step.pending)
    ensures Apply(s, step).orphans == s.orphans
  {
    if Fenced(s, step.x, step.epoch) {
      var s1 := s.(rows := s.rows[step.x := s.rows[step.x].(worker := None, stage := step.stage,
                                                            objects := step.referenced)],
                   objects := PutAll(s.objects, step.pending),
                   refs := Diff(s.refs, Instance(step.x), s.memory[(step.x, step.epoch)].loaded, step.referenced));
      AddChildrenContent(s1, s.rows[step.x].root, step.children);
    }
  }

  /** Content nobody claims and nobody writes keeps its mark until it is collected, and never comes back. */
  lemma UnclaimedStep(s: Store, step: Step, h: Hash)
    requires !Claimed(s, h) && !Rewrites(step, h)
    ensures h !in s.objects ==> h !in Apply(s, step).objects
    ensures h in s.objects && s.objects[h].Some? && h in Apply(s, step).objects ==>
      Apply(s, step).objects[h] == s.objects[h]
  {
    if step.WriteRow? {
      WriteContent(s, step);
    }
  }

  /** From state i on nobody claims the content and, up to step k, nobody writes it. */
  ghost predicate Unwanted(states: seq<Store>, steps: seq<Step>, i: nat, k: nat, h: Hash)
    requires |states| == |steps| + 1 && k < |states|
  {
    && (forall j {:trigger states[j]} :: i <= j <= k ==> !Claimed(states[j], h))
    && (forall j {:trigger steps[j]} :: i <= j < k ==> !Rewrites(steps[j], h))
  }

  lemma {:induction false} MarkKept(states: seq<Store>, steps: seq<Step>, i: nat, k: nat, h: Hash, mark: int)
    requires IsRun(states, steps) && i <= k < |states| && Unwanted(states, steps, i, k, h)
    requires h in states[i].objects ==> states[i].objects[h] == Some(mark)
    ensures h in states[k].objects ==> states[k].objects[h] == Some(mark)
    decreases k - i
  {
    if i < k {
      MarkKept(states, steps, i, k - 1, h, mark);
      assert states[k] == Apply(states[k - 1], steps[k - 1]);
      UnclaimedStep(states[k - 1], steps[k - 1], h);
    }
  }

  /** Over every run, content unclaimed and unwritten since it was marked more than the grace period ago
      is gone after the next collection, however many sweeps come between. */
  lemma GoneAfterGrace(states: seq<Store>, steps: seq<Step>, i: nat, k: nat, h: Hash)
    requires IsRun(states, steps) && i <= k < |steps| && steps[k].Collect? && Unwanted(states, steps, i, k, h)
    requires h in states[i].objects && states[i].objects[h].Some?
    requires states[i].objects[h].value < steps[k].now - steps[k].grace
    ensures h !in states[k + 1].objects
  {
    MarkKept(states, steps, i, k, h, states[i].objects[h].value);
    assert states[k + 1] == Apply(states[k], steps[k]);
  }

  /** ...and a sweep marks all that is unclaimed, so content nobody claims from one sweep on is gone once
      a collection comes more than the grace period after every sweep so far. */
  lemma UnclaimedIsCollected(states: seq<Store>, steps: seq<Step>, i: nat, k: nat, h: Hash)
    requires IsRun(states, steps) && i < k < |steps| && steps[i].Mark? && steps[k].Collect?
    requires Unwanted(states, steps, i, k, h)
    requires forall m {:trigger steps[m]} ::
      0 <= m <= i && steps[m].Mark? ==> steps[m].now < steps[k].now - steps[k].grace
    ensures h !in states[k + 1].objects
  {
    assert states[i + 1] == Apply(states[i], steps[i]);
    assert !Claimed(states[i], h);
    if h in states[i + 1].objects {
      var m := MarkedSince(states, steps, i + 1, h);
      GoneAfterGrace(states, steps, i + 1, k, h);
    } else {
      NeverBack(states, steps, i + 1, k, h);
      assert states[k + 1] == Apply(states[k], steps[k]);
    }
  }

  lemma {:induction false} NeverBack(states: seq<Store>, steps: seq<Step>, i: nat, k: nat, h: Hash)
    requires IsRun(states, steps) && i <= k < |states| && Unwanted(states, steps, i, k, h) && h !in states[i].objects
    ensures h !in states[k].objects
    decreases k - i
  {
    if i < k {
      NeverBack(states, steps, i, k - 1, h);
      assert states[k] == Apply(states[k - 1], steps[k - 1]);
      UnclaimedStep(states[k - 1], steps[k - 1], h);
    }
  }

  /** A claim found by the sweep's first statement, and any write of the content, voids the mark: nothing
      is collected on a mark older than either. */
  lemma MarkVoided(s: Store, step: Step, h: Hash)
    requires h in s.objects && h in Apply(s, step).objects
    requires (step.Clear? && Claimed(s, h)) || (Rewrites(step, h) && Apply(s, step) != s)
    ensures Apply(s, step).objects[h].None?
  {
    if step.WriteRow? {
      LandedWrite(s, step);
    }
  }

  lemma LandedWrite(s: Store, step: Step)
    requires step.WriteRow? && Apply(s, step) != s
    ensures Apply(s, step).objects == PutAll(s.objects, step.pending)
  {
    var s1 := s.(rows := s.rows[step.x := s.rows[step.x].(worker := None, stage := step.stage,
                                                          objects := step.referenced)],
                 objects := PutAll(s.objects, step.pending),
                 refs := Diff(s.refs, Instance(step.x), s.memory[(step.x, step.epoch)].loaded, step.referenced));
    AddChildrenContent(s1, s.rows[step.x].root, step.children);
  }

  /** Over every run, between the sweep that marked collected content and the collection no sweep found
      it claimed and no write of it landed. */
  lemma CollectedUnwanted(states: seq<Store>, steps: seq<Step>, k: nat, h: Hash) returns (m: nat)
    requires IsRun(states, steps) && k < |steps| && h in states[k].objects && h !in states[k + 1].objects
    ensures steps[k].Collect? && m < k && steps[m].Mark? && steps[m].now < steps[k].now - steps[k].grace
    ensures forall j {:trigger steps[j]} :: m < j < k ==>
      !(steps[j].Clear? && Claimed(states[j], h)) && !(Rewrites(steps[j], h) && states[j + 1] != states[j])
  {
    m := CollectedWasMarked(states, steps, k, h);
    forall j {:trigger steps[j]} | m < j < k
      ensures !(steps[j].Clear? && Claimed(states[j], h))
      ensures !(Rewrites(steps[j], h) && states[j + 1] != states[j])
    {
      assert states[j + 1] == Apply(states[j], steps[j]);
      assert states[j + 1].objects[h].Some? && h in states[j].objects;
      if (steps[j].Clear? && Claimed(states[j], h)) || (Rewrites(steps[j], h) && states[j + 1] != states[j]) {
        MarkVoided(states[j], steps[j], h);
      }
    }
  }

  lemma {:induction false} OrphansKept(states: seq<Store>, steps: seq<Step>, i: nat, k: nat)
    requires IsRun(states, steps) && i <= k < |states|
    requires forall j {:trigger steps[j]} :: i <= j < k ==> !steps[j].FindOrphans?
    ensures states[k].orphans == states[i].orphans
    decreases k - i
  {
    if i < k {
      OrphansKept(states, steps, i, k - 1);
      assert states[k] == Apply(states[k - 1], steps[k - 1]);
      if steps[k - 1].WriteRow? {
        WriteContent(states[k - 1], steps[k - 1]);
      }
    }
  }

  /** Over every run the orphan pass releases exactly the claims whose owner was gone when it looked, and
      none of them belongs to a live row when they go. */
  lemma OrphansGo(states: seq<Store>, steps: seq<Step>, i: nat, k: nat, p: (Hash, Owner))
    requires IsRun(states, steps) && i < k < |steps| && steps[i].FindOrphans? && steps[k].DropOrphans?
    requires forall j {:trigger steps[j]} :: i < j < k ==> !steps[j].FindOrphans?
    ensures p in states[k + 1].refs <==> p in states[k].refs && !(p in states[i].refs && !Live(states[i], p.1))
    ensures p in states[k].refs && p !in states[k + 1].refs ==> !Live(states[k], p.1)
  {
    assert states[i + 1] == Apply(states[i], steps[i]) && states[k + 1] == Apply(states[k], steps[k]);
    OrphansKept(states, steps, i + 1, k);
    RunKeeps(states, steps, k);
  }

  // ------------------------------------------------------------------------------------------
  // Rows come, are revived, and go
  // ------------------------------------------------------------------------------------------

  /** Over every run, a created row is there with what it references claimed and stored, and so is an audit
      row, for the content it brought. */
  lemma CreatedWhole(states: seq<Store>, steps: seq<Step>, k: nat, h: Hash)
    requires IsRun(states, steps) && k < |steps|
    ensures var s, s' := states[k], states[k + 1];
      && (steps[k].Create? && Instance(steps[k].x) !in s.used ==>
            && steps[k].x in s'.rows && s'.rows[steps[k].x].objects == steps[k].pending
            && (h in steps[k].pending ==> (h, Instance(steps[k].x)) in s'.refs && h in s'.objects))
      && (steps[k].WriteLog? && Log(steps[k].l) !in s.used && steps[k].pending <= steps[k].referenced ==>
            && steps[k].l in s'.logs && s'.logs[steps[k].l] == steps[k].referenced
            && (h in steps[k].referenced ==> (h, Log(steps[k].l)) in s'.refs)
            && (h in steps[k].pending ==> h in s'.objects))
  {
    assert states[k + 1] == Apply(states[k], steps[k]);
  }

  /** A tree may be pruned once its root has concluded and nothing in it is busy. */
  predicate Prunable(s: Store, root: Id) {
    && root in s.rows && s.rows[root].stage == Concluded
    && forall y {:trigger s.rows[y]} :: y in s.rows && s.rows[y].root == root ==> s.rows[y].stage != Busy
  }

  /** Over every run, retention removes exactly the rows of a prunable tree and the audit rows it names;
      what they claimed is orphaned from then on, and what other rows claim is not. */
  lemma PruneExact(states: seq<Store>, steps: seq<Step>, k: nat, x: Id, h: Hash)
    requires IsRun(states, steps) && k < |steps| && x in states[k].rows
    requires h in states[k].rows[x].objects && steps[k].Prune?
    ensures var s, s' := states[k], states[k + 1];
      && (x in s'.rows <==> !(Prunable(s, steps[k].root) && s.rows[x].root == steps[k].root))
      && (x in s'.rows ==> s'.rows[x] == s.rows[x])
      && s'.logs == s.logs && (h, Instance(x)) in s'.refs
      && ((h, Instance(x)) in Apply(s', FindOrphans).orphans <==> x !in s'.rows)
  {
    RunKeeps(states, steps, k);
    assert states[k + 1] == Apply(states[k], steps[k]);
    assert RowOk(states[k], x);
  }

  lemma PruneLogsExact(states: seq<Store>, steps: seq<Step>, k: nat, l: Id)
    requires IsRun(states, steps) && k < |steps| && l in states[k].logs && steps[k].PruneLogs?
    ensures states[k + 1].rows == states[k].rows && (l in states[k + 1].logs <==> l !in steps[k].ls)
    ensures l in states[k + 1].logs ==> states[k + 1].logs[l] == states[k].logs[l]
  {
    assert states[k + 1] == Apply(states[k], steps[k]);
  }

  /** Over every run, a revival of a tree nobody holds leaves each row it revives busy, with the references
      it keeps and claims on exactly those, and every other row as it was. */
  lemma ReviveExact(states: seq<Store>, steps: seq<Step>, k: nat, x: Id, h: Hash)
    requires IsRun(states, steps) && k < |steps| && steps[k].Revive? && x in states[k].rows
    requires forall y ::
      y in states[k].rows && states[k].rows[y].root == steps[k].root ==> states[k].rows[y].worker.None?
    requires forall y ::
      y in steps[k].kept ==>
        && y in states[k].rows && states[k].rows[y].root == steps[k].root
        && steps[k].kept[y] <= states[k].rows[y].objects
    ensures var s, s', kept := states[k], states[k + 1], steps[k].kept;
      && x in s'.rows
      && (x !in kept ==> s'.rows[x] == s.rows[x])
      && (x in kept ==> s'.rows[x] == s.rows[x].(stage := Busy, objects := kept[x]))
      && ((h, Instance(x)) in s'.refs <==> h in s'.rows[x].objects)
  {
    RunKeeps(states, steps, k);
    assert states[k + 1] == Apply(states[k], steps[k]);
    RunKeeps(states, steps, k + 1);
    assert RowOk(states[k + 1], x);
  }
}
