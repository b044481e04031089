/**
 An instance's context written to its columns and read back: each slot is cut on its own, and a
 single list of references, by path from the context down, says where each part belongs.
 */
module StateCodec {

  import opened Wrappers
  import opened Values
  import opened Encoding
  import opened Cuts
  import opened CutModel
  import opened ObjectCut

  /** Which context keys have a column: the value slots, the map of task outputs, and a whitelist of
      engine keys with the name each is stored under. */
  datatype Layout = Layout(slots: seq<string>, outputs: string, engine: map<string, string>)

  const LAYOUT: Layout := Layout(
    ["input", "output", "last_error", "_error_data", "external_input"],
    "outputs",
    map["_spawn_child_key" := "spawn_child_key", "_spawn_index" := "spawn_index",
        "_spawn_attempt" := "spawn_attempt", "_retry_override" := "retry_override"])

  ghost predicate Injective(names: map<string, string>) {
    forall j, k :: j in names && k in names && names[j] == names[k] ==> j == k
  }

  /** No key has two columns and no column two keys. */
  ghost predicate LayoutOk(y: Layout) {
    && (forall i, j :: 0 <= i < j < |y.slots| ==> y.slots[i] != y.slots[j])
    && y.outputs !in y.slots && y.outputs !in y.engine
    && (forall k :: k in y.engine ==> k !in y.slots)
    && Injective(y.engine)
  }

  lemma EngineNamesInjective()
    ensures Injective(LAYOUT.engine)
  {
    var e := LAYOUT.engine;
    assert |e["_spawn_child_key"]| == 15 && |e["_spawn_index"]| == 11 && |e["_spawn_attempt"]| == 13 &&
      |e["_retry_override"]| == 14;
  }

  lemma SlotLengths()
    ensures |LAYOUT.slots| == 5 && forall i :: 0 <= i < 5 ==> |LAYOUT.slots[i]| == [5, 6, 10, 11, 14][i]
    ensures LAYOUT.slots[4][0] == 'e' && |LAYOUT.outputs| == 7
  {
  }

  lemma EngineKeyShape(k: string)
    requires k in LAYOUT.engine
    ensures |k| >= 12 && k[0] == '_'
  {
    assert k == "_spawn_child_key" || k == "_spawn_index" || k == "_spawn_attempt" || k == "_retry_override";
  }

  lemma KeysApart(s: seq<string>, o: string, e: map<string, string>)
    requires |s| == 5 && (forall i :: 0 <= i < 5 ==> |s[i]| == [5, 6, 10, 11, 14][i]) && s[4][0] == 'e' && |o| == 7
    requires forall k :: k in e ==> |k| >= 12 && k[0] == '_'
    ensures forall i, j :: 0 <= i < j < |s| ==> s[i] != s[j]
    ensures o !in s && o !in e && forall k :: k in e ==> k !in s
  {
  }

  lemma LayoutIsOk()
    ensures LayoutOk(LAYOUT)
  {
    SlotLengths();
    forall k | k in LAYOUT.engine
      ensures |k| >= 12 && k[0] == '_'
    {
      EngineKeyShape(k);
    }
    KeysApart(LAYOUT.slots, LAYOUT.outputs, LAYOUT.engine);
    EngineNamesInjective();
  }

  /** The value columns as stored, and the one list of references. */
  datatype Columns = Columns(slots: map<string, Value>, outputs: Option<map<string, Value>>, engine: map<string, Value>,
                             objects: seq<Entry>)

  predicate StoredKey(y: Layout, cd: map<string, Value>, k: string)
    requires k in cd
  {
    k in y.slots || (k == y.outputs && cd[k].Obj?) || k in y.engine
  }

  /** What of a context has a column: anything else is dropped by the write. */
  function Stored(y: Layout, cd: map<string, Value>): (m: map<string, Value>) {
    map k | k in cd && StoredKey(y, cd, k) :: cd[k]
  }

  // ------------------------------------------------------------------------------------------
  // Cutting below a root
  // ------------------------------------------------------------------------------------------

  function Rooted(r: Path, cs: seq<Cut>): (rs: seq<Cut>)
    ensures |rs| == |cs| && forall i :: 0 <= i < |cs| ==> rs[i] == Cut(r + cs[i].path, cs[i].path == [])
  {
    seq(|cs|, i requires 0 <= i < |cs| => Cut(r + cs[i].path, cs[i].path == []))
  }

  function RootedEntries(r: Path, es: seq<Entry>): (rs: seq<Entry>)
    ensures |rs| == |es| && forall i :: 0 <= i < |es| ==> rs[i] == Entry(r + es[i].path, es[i].value)
  {
    seq(|es|, i requires 0 <= i < |es| => Entry(r + es[i].path, es[i].value))
  }

  lemma {:induction false} AtPlace(v: Value, r: Path, x: Value)
    requires Has(v, r) && r != []
    ensures Has(Place(v, r, x), r) && At(Place(v, r, x), r) == x
    decreases |r|
  {
    if |r| > 1 {
      AtPlace(StepTo(v, r[0]), r[1..], x);
    }
  }

  lemma {:induction false} RemoveBelow(v: Value, r: Path, p: Path)
    requires Has(v, r) && r != [] && p != []
    ensures Remove(v, r + p) == Place(v, r, Remove(At(v, r), p))
    decreases |r|
  {
    assert (r + p)[0] == r[0] && (r + p)[1..] == r[1..] + p;
    if |r| > 1 {
      RemoveBelow(StepTo(v, r[0]), r[1..], p);
    } else {
      assert r[1..] + p == p;
    }
  }

  /** Cutting a slot where it stands in the context is cutting it on its own. */
  lemma {:induction false} DropsBelow(v: Value, r: Path, cs: seq<Cut>)
    requires Has(v, r) && r != [] && forall i :: 0 <= i < |cs| ==> cs[i].path != [] && !cs[i].whole
    ensures DropAll(v, Rooted(r, cs)) == Place(v, r, DropAll(At(v, r), cs))
    decreases |cs|
  {
    if cs == [] {
      PlaceSame(v, r);
    } else {
      var n := |cs| - 1;
      var x := DropAll(At(v, r), cs[..n]);
      DropsBelow(v, r, cs[..n]);
      assert Rooted(r, cs)[..n] == Rooted(r, cs[..n]);
      AtPlace(v, r, x);
      RemoveBelow(Place(v, r, x), r, cs[n].path);
      PlaceOverPlace(v, r, x, Remove(x, cs[n].path));
    }
  }

  lemma {:induction false} AtPastPlace(v: Value, p: Path, x: Value, r: Path)
    requires !Nested(p, r)
    ensures Has(Place(v, p, x), r) <==> Has(v, r)
    ensures Has(v, r) ==> At(Place(v, p, x), r) == At(v, r)
    decreases |p|
  {
    if p[0] == r[0] {
      TailNested(p, r);
      if HasStep(v, p[0]) {
        AtPastPlace(StepTo(v, p[0]), p[1..], x, r[1..]);
      }
    }
  }

  lemma {:induction false} AtPastRemove(v: Value, p: Path, r: Path)
    requires !Nested(p, r)
    ensures Has(Remove(v, p), r) <==> Has(v, r)
    ensures Has(v, r) ==> At(Remove(v, p), r) == At(v, r)
    decreases |p|
  {
    if p[0] == r[0] {
      TailNested(p, r);
      if HasStep(v, p[0]) {
        AtPastRemove(StepTo(v, p[0]), p[1..], r[1..]);
      }
    }
  }

  lemma {:induction false} AtPastDrops(v: Value, cs: seq<Cut>, r: Path)
    requires Has(v, r) && forall i :: 0 <= i < |cs| ==> !Nested(cs[i].path, r)
    ensures Has(DropAll(v, cs), r) && At(DropAll(v, cs), r) == At(v, r)
    decreases |cs|
  {
    if cs != [] {
      var n := |cs| - 1;
      AtPastDrops(v, cs[..n], r);
      AtPastPlace(DropAll(v, cs[..n]), cs[n].path, Null, r);
      AtPastRemove(DropAll(v, cs[..n]), cs[n].path, r);
    }
  }

  lemma {:induction false} DropAllConcat(v: Value, a: seq<Cut>, b: seq<Cut>)
    ensures DropAll(v, a + b) == DropAll(DropAll(v, a), b)
    decreases |b|
  {
    if b == [] {
      assert a + b == a;
    } else {
      assert (a + b)[..|a + b| - 1] == a + b[..|b| - 1];
      DropAllConcat(v, a, b[..|b| - 1]);
    }
  }

  // ------------------------------------------------------------------------------------------
  // What has been cut so far
  // ------------------------------------------------------------------------------------------

  ghost predicate RefsOk(v: Value, cuts: seq<Cut>, refs: seq<Entry>) {
    && |refs| == |cuts|
    && forall i :: 0 <= i < |refs| ==>
      refs[i].path == cuts[i].path && Has(v, cuts[i].path) && refs[i].value == MarkerFor(v, cuts[i].path)
  }

  /** A cut at or below a root, leaving null exactly at the root itself. */
  ghost predicate Covers(r: Path, c: Cut) {
    r <= c.path && (c.whole <==> c.path == r)
  }

  ghost predicate Within(cuts: seq<Cut>, roots: set<Path>) {
    forall i :: 0 <= i < |cuts| ==> exists r :: r in roots && Covers(r, cuts[i])
  }

  ghost predicate MarkersListed(v: Value, refs: seq<Entry>, r: Path) {
    forall p :: MarkerAt(v, p) && r <= p ==> Entry(p, At(v, p)) in refs
  }

  ghost predicate ObjectsOk(v: Value, refs: seq<Entry>, objs: seq<Value>) {
    && (forall o :: o in objs ==> MarkerFree(o))
    && forall e :: e in refs && !MarkerAt(v, e.path) ==> e.value.Ref? && e.value.content in objs
  }

  ghost predicate Clean(ctx: Value, r: Path) {
    Has(ctx, r) && MarkerFree(At(ctx, r))
  }

  /** The roots cut so far: the context as its columns have it, and the references found. */
  ghost predicate Encoded(v: Value, ctx: Value, cuts: seq<Cut>, refs: seq<Entry>, objs: seq<Value>, roots: set<Path>) {
    && ctx == DropAll(v, cuts) && Apart(cuts) && RefsOk(v, cuts, refs) && Within(cuts, roots)
    && ObjectsOk(v, refs, objs)
    && forall r :: r in roots ==> MarkersListed(v, refs, r) && Clean(ctx, r)
  }

  lemma PrefixesNest(p: Path, q: Path, r: Path)
    requires p <= r && q <= r
    ensures Nested(p, q)
  {
    assert p == r[..|p|] && q == r[..|q|];
  }

  /** Two roots that are apart have nothing in common below them. */
  lemma ApartBelow(a: Path, p: Path, b: Path, q: Path)
    requires !Nested(a, b) && a <= p && b <= q
    ensures !Nested(p, q)
  {
    if p <= q {
      PrefixesNest(a, b, q);
    }
    if q <= p {
      PrefixesNest(a, b, p);
    }
  }

  lemma RootedNested(r: Path, p: Path, q: Path)
    ensures Nested(r + p, r + q) ==> Nested(p, q)
  {
    assert r + p <= r + q ==> (r + p)[|r|..] == p && (r + q)[|r|..] == q && p == q[..|p|];
    assert r + q <= r + p ==> (r + p)[|r|..] == p && (r + q)[|r|..] == q && q == p[..|q|];
  }

  /** The slot's own cut, seen from the context it stands in. */
  lemma SlotDrops(v: Value, cuts: seq<Cut>, r: Path, chosen: set<Path>, stripped: Value, scuts: seq<Cut>,
                  srefs: seq<Entry>, sobjs: seq<Value>)
    requires Has(v, r) && r != [] && CutResult(At(v, r), chosen, stripped, scuts, srefs, sobjs)
    requires forall i :: 0 <= i < |cuts| ==> !Nested(cuts[i].path, r)
    ensures DropAll(v, cuts + Rooted(r, scuts)) == Place(DropAll(v, cuts), r, stripped)
  {
    DropAllConcat(v, cuts, Rooted(r, scuts));
    AtPastDrops(v, cuts, r);
    assert forall i :: 0 <= i < |scuts| ==> scuts[i].path in CutPaths(scuts);
    if [] in chosen {
      RootAlone(At(v, r), chosen);
      OneWhole(scuts);
      assert Rooted(r, scuts)[0].path == r;
      assert DropAll(DropAll(v, cuts), []) == DropAll(v, cuts);
      assert Rooted(r, scuts)[..0] == [];
    } else {
      DropsBelow(DropAll(v, cuts), r, scuts);
    }
  }

  lemma OneWhole(cs: seq<Cut>)
    requires Apart(cs) && CutPaths(cs) == {[]}
    ensures |cs| == 1 && cs[0].path == []
  {
    assert cs == [] ==> CutPaths(cs) == {};
    assert forall i :: 0 <= i < |cs| ==> cs[i].path in CutPaths(cs);
    CutsWithout(cs, 0);
    NoCuts(cs[..0] + cs[1..]);
  }

  lemma SlotRefs(v: Value, r: Path, chosen: set<Path>, stripped: Value, scuts: seq<Cut>, srefs: seq<Entry>,
                 sobjs: seq<Value>)
    requires Has(v, r) && CutResult(At(v, r), chosen, stripped, scuts, srefs, sobjs)
    ensures RefsOk(v, Rooted(r, scuts), RootedEntries(r, srefs)) && Apart(Rooted(r, scuts))
  {
    forall i | 0 <= i < |scuts|
      ensures Has(v, r + scuts[i].path) && At(v, r + scuts[i].path) == At(At(v, r), scuts[i].path)
    {
      assert scuts[i].path == srefs[i].path;
      HasConcat(v, r, scuts[i].path);
    }
    forall i, j | 0 <= i < j < |scuts|
      ensures !Nested(r + scuts[i].path, r + scuts[j].path)
    {
      RootedNested(r, scuts[i].path, scuts[j].path);
    }
  }

  lemma SlotObjects(v: Value, r: Path, chosen: set<Path>, stripped: Value, scuts: seq<Cut>, srefs: seq<Entry>,
                    sobjs: seq<Value>)
    requires Has(v, r) && CutResult(At(v, r), chosen, stripped, scuts, srefs, sobjs)
    ensures ObjectsOk(v, RootedEntries(r, srefs), sobjs) && MarkerFree(stripped)
  {
    var w, es := At(v, r), RootedEntries(r, srefs);
    OwnEntries(w, chosen, stripped, scuts, srefs, sobjs);
    forall e | e in es && !MarkerAt(v, e.path)
      ensures e.value.Ref? && e.value.content in sobjs
    {
      var i :| 0 <= i < |es| && es[i] == e;
      var p := srefs[i].path;
      HasConcat(v, r, p);
      assert p == scuts[i].path && p in CutPaths(scuts);
      assert e.value == Ref(At(w, p)) && !MarkerAt(w, p);
    }
  }

  lemma SlotMarkers(v: Value, r: Path, chosen: set<Path>, stripped: Value, scuts: seq<Cut>, srefs: seq<Entry>,
                    sobjs: seq<Value>)
    requires Has(v, r) && CutResult(At(v, r), chosen, stripped, scuts, srefs, sobjs)
    ensures MarkersListed(v, RootedEntries(r, srefs), r)
  {
    var w, es := At(v, r), RootedEntries(r, srefs);
    OwnEntries(w, chosen, stripped, scuts, srefs, sobjs);
    forall p | MarkerAt(v, p) && r <= p
      ensures Entry(p, At(v, p)) in es
    {
      var q := p[|r|..];
      assert p == r + q;
      AtPrefix(v, r, q);
      assert Entry(q, At(w, q)) in srefs;
      var i :| 0 <= i < |srefs| && srefs[i] == Entry(q, At(w, q));
      assert es[i] == Entry(p, At(v, p));
    }
  }

  /** What CutKeepsTheValue says of a slot, without choosing an order for the entries. */
  lemma OwnEntries(v: Value, chosen: set<Path>, stripped: Value, cuts: seq<Cut>, refs: seq<Entry>, objs: seq<Value>)
    requires CutResult(v, chosen, stripped, cuts, refs, objs)
    ensures forall o :: o in objs ==> MarkerFree(o)
    ensures forall p :: MarkerAt(v, p) ==> Entry(p, At(v, p)) in refs
    ensures MarkerFree(stripped)
  {
    var es := seq(|refs|, i requires 0 <= i < |refs| =>
      Entry(refs[i].path, if Has(v, refs[i].path) then At(v, refs[i].path) else Null));
    assert forall i :: 0 <= i < |es| ==> es[i].path == cuts[i].path;
    forall i, j | 0 <= i < j < |es|
      ensures es[i].path != es[j].path
    {
      assert !Nested(cuts[i].path, cuts[j].path);
    }
    forall p | p in chosen
      ensures p in EntryPaths(es)
    {
      assert p in CutPaths(cuts);
      var i :| 0 <= i < |cuts| && cuts[i].path == p;
      assert es[i] in es;
    }
    forall e | e in es
      ensures e.path in chosen
    {
      var i :| 0 <= i < |es| && es[i] == e;
      assert cuts[i].path in CutPaths(cuts);
    }
    CutKeepsTheValue(v, chosen, stripped, cuts, refs, objs, es);
  }

  lemma AppendApart(v: Value, cuts: seq<Cut>, roots: set<Path>, r: Path, rcuts: seq<Cut>)
    requires Apart(cuts) && Apart(rcuts) && Within(cuts, roots) && forall s :: s in roots ==> !Nested(s, r)
    requires forall i :: 0 <= i < |rcuts| ==> Covers(r, rcuts[i])
    ensures Apart(cuts + rcuts) && Within(cuts + rcuts, roots + {r})
    ensures forall i :: 0 <= i < |cuts| ==> !Nested(cuts[i].path, r)
  {
    forall i, q | 0 <= i < |cuts| && r <= q
      ensures !Nested(cuts[i].path, q)
    {
      var s :| s in roots && Covers(s, cuts[i]);
      ApartBelow(s, cuts[i].path, r, q);
    }
    var all := cuts + rcuts;
    forall i, j | 0 <= i < j < |all|
      ensures !Nested(all[i].path, all[j].path)
    {
      assert i >= |cuts| ==> all[i] == rcuts[i - |cuts|] && all[j] == rcuts[j - |cuts|];
      assert j >= |cuts| ==> r <= all[j].path;
    }
  }

  lemma CleanPast(v: Value, ctx: Value, r: Path, stripped: Value, s: Path)
    requires Clean(ctx, s) && !Nested(s, r)
    ensures Clean(Place(ctx, r, stripped), s)
  {
    AtPastPlace(ctx, r, stripped, s);
  }

  lemma AppendLists(v: Value, cuts: seq<Cut>, refs: seq<Entry>, objs: seq<Value>, rcuts: seq<Cut>, rrefs: seq<Entry>,
                    robjs: seq<Value>)
    requires RefsOk(v, cuts, refs) && RefsOk(v, rcuts, rrefs) && ObjectsOk(v, refs, objs) && ObjectsOk(v, rrefs, robjs)
    ensures RefsOk(v, cuts + rcuts, refs + rrefs) && ObjectsOk(v, refs + rrefs, objs + robjs)
  {
  }

  lemma AppendMarkers(v: Value, refs: seq<Entry>, rrefs: seq<Entry>, r: Path)
    requires MarkersListed(v, refs, r) || MarkersListed(v, rrefs, r)
    ensures MarkersListed(v, refs + rrefs, r)
  {
  }

  /** One more slot. */
  lemma EncodeStep(v: Value, ctx: Value, cuts: seq<Cut>, refs: seq<Entry>, objs: seq<Value>, roots: set<Path>, r: Path,
                   chosen: set<Path>, stripped: Value, scuts: seq<Cut>, srefs: seq<Entry>, sobjs: seq<Value>)
    requires Encoded(v, ctx, cuts, refs, objs, roots) && Has(v, r) && r != []
    requires forall s :: s in roots ==> !Nested(s, r)
    requires CutResult(At(v, r), chosen, stripped, scuts, srefs, sobjs)
    ensures Encoded(v, Place(ctx, r, stripped), cuts + Rooted(r, scuts), refs + RootedEntries(r, srefs), objs + sobjs,
                    roots + {r})
  {
    SlotRefs(v, r, chosen, stripped, scuts, srefs, sobjs);
    SlotObjects(v, r, chosen, stripped, scuts, srefs, sobjs);
    SlotMarkers(v, r, chosen, stripped, scuts, srefs, sobjs);
    AppendApart(v, cuts, roots, r, Rooted(r, scuts));
    AppendLists(v, cuts, refs, objs, Rooted(r, scuts), RootedEntries(r, srefs), sobjs);
    SlotDrops(v, cuts, r, chosen, stripped, scuts, srefs, sobjs);
    AtPastDrops(v, cuts, r);
    AtPlace(ctx, r, stripped);
    AppendMarkers(v, refs, RootedEntries(r, srefs), r);
    forall s | s in roots
      ensures Clean(Place(ctx, r, stripped), s) && MarkersListed(v, refs + RootedEntries(r, srefs), s)
    {
      CleanPast(v, ctx, r, stripped, s);
      AppendMarkers(v, refs, RootedEntries(r, srefs), s);
    }
  }

  // ------------------------------------------------------------------------------------------
  // Encoding and decoding
  // ------------------------------------------------------------------------------------------

  /** cutSlot: an already external slot is one reference at the empty path; one that holds no reference
      gets some exactly when it is over the threshold. */
  method CutSlot(v: Value)
    returns (ghost chosen: set<Path>, stripped: Value, ghost cuts: seq<Cut>, refs: seq<Entry>, objs: seq<Value>)
    ensures CutResult(v, chosen, stripped, cuts, refs, objs)
    ensures MarkerFree(v) ==> (refs == [] <==> Size(v) <= CONTEXT_OBJECT_THRESHOLD)
  {
    if v.Ref? {
      chosen, stripped, cuts, refs, objs := {[]}, Null, [Cut([], false)], [Entry([], v)], [];
      assert forall p :: Has(v, p) ==> p == [];
      assert MarkerAt(v, []) && forall p :: p in chosen ==> MarkerAt(v, p);
    } else {
      var ch, cs;
      ch, stripped, cs, refs, objs := CutForSize(v, CONTEXT_OBJECT_THRESHOLD);
      chosen, cuts := ch, cs;
    }
  }

  /** Keys outside the whitelist are dropped, the rest renamed. */
  function Renamed(names: map<string, string>, cd: map<string, Value>): (es: map<string, Value>)
    requires Injective(names)
  {
    map k | k in names && k in cd :: names[k] := cd[k]
  }

  function Unrenamed(names: map<string, string>, es: map<string, Value>): (cd: map<string, Value>) {
    map k | k in names && names[k] in es :: es[names[k]]
  }

  lemma RenameRoundTrip(names: map<string, string>, cd: map<string, Value>)
    requires Injective(names)
    ensures Unrenamed(names, Renamed(names, cd)) == map k | k in names && k in cd :: cd[k]
  {
    var es := Renamed(names, cd);
    forall k | k in names && k in cd
      ensures names[k] in es && es[names[k]] == cd[k]
    {
    }
  }

  /** The context as its columns alone give it, before the references are placed. */
  function Joined(y: Layout, cols: Columns): (v: Value) {
    var outs := if cols.outputs.Some? then map[y.outputs := Obj(cols.outputs.value)] else map[];
    Obj(cols.slots + outs + Unrenamed(y.engine, cols.engine))
  }

  /** decodeState: each reference is placed where it was cut. */
  function DecodeState(y: Layout, cols: Columns): (v: Value) {
    PlaceAll(Joined(y, cols), cols.objects)
  }

  function Contents(es: seq<Entry>): (hs: set<Value>) {
    set e | e in es && e.value.Ref? :: e.value.content
  }

  /** Putting the references, or the values themselves, back into a context that was cut. */
  lemma EncodedRoundTrip(v: Value, ctx: Value, cuts: seq<Cut>, refs: seq<Entry>, objs: seq<Value>, roots: set<Path>,
                         es: seq<Entry>)
    requires Encoded(v, ctx, cuts, refs, objs, roots)
    requires Distinct(es) && EntryPaths(es) == EntryPaths(refs)
    requires forall i :: 0 <= i < |es| ==> es[i].value == if Has(v, es[i].path) then At(v, es[i].path) else Null
    ensures PlaceAll(ctx, refs) == PlaceAll(v, refs)
    ensures PlaceAll(ctx, es) == v
  {
    RefsList(v, cuts, refs);
    PlaceAllUndoesDrops(v, cuts, refs);
    forall i | 0 <= i < |es|
      ensures Has(v, es[i].path)
    {
      assert es[i].path in EntryPaths(es);
      var e :| e in refs && e.path == es[i].path;
    }
    CutRoundTrip(v, cuts, es);
  }

  lemma RefsList(v: Value, cuts: seq<Cut>, refs: seq<Entry>)
    requires Apart(cuts) && RefsOk(v, cuts, refs)
    ensures Lists(refs, cuts)
  {
    forall i, j | 0 <= i < j < |refs|
      ensures refs[i].path != refs[j].path
    {
      assert !Nested(cuts[i].path, cuts[j].path);
    }
    forall p | p in EntryPaths(refs)
      ensures p in CutPaths(cuts)
    {
      var i :| 0 <= i < |refs| && refs[i].path == p;
      assert cuts[i] in cuts;
    }
    forall p | p in CutPaths(cuts)
      ensures p in EntryPaths(refs)
    {
      var i :| 0 <= i < |cuts| && cuts[i].path == p;
      assert refs[i] in refs;
    }
  }

  /** The hashes a later write diffs against are exactly those this one referenced: each is content
      written with it or a marker the context already held, and every such marker is among them. */
  lemma EncodedReferences(v: Value, ctx: Value, cuts: seq<Cut>, refs: seq<Entry>, objs: seq<Value>, roots: set<Path>,
                          h: Value)
    requires Encoded(v, ctx, cuts, refs, objs, roots)
    ensures h in Contents(refs) ==> h in objs || exists p :: MarkerAt(v, p) && At(v, p) == Ref(h)
    ensures forall p, r :: MarkerAt(v, p) && At(v, p) == Ref(h) && r in roots && r <= p ==> h in Contents(refs)
  {
    if h in Contents(refs) {
      var e :| e in refs && e.value == Ref(h);
      var i :| 0 <= i < |refs| && refs[i] == e;
      assert Has(v, e.path) && e.value == MarkerFor(v, e.path);
    }
    forall p, r | MarkerAt(v, p) && At(v, p) == Ref(h) && r in roots && r <= p
      ensures h in Contents(refs)
    {
      assert MarkersListed(v, refs, r);
      assert Entry(p, At(v, p)) in refs;
    }
  }

  /** One slot cut and filed under its root. */
  method CutAt(ghost v: Value, ghost ctx: Value, ghost cuts0: seq<Cut>, refs0: seq<Entry>, pending0: seq<Value>,
               ghost roots: set<Path>, r: Path, w: Value)
    returns (stripped: Value, ghost cuts: seq<Cut>, refs: seq<Entry>, pending: seq<Value>)
    requires Encoded(v, ctx, cuts0, refs0, pending0, roots)
    requires r != [] && Has(v, r) && At(v, r) == w && forall s :: s in roots ==> !Nested(s, r)
    ensures Encoded(v, Place(ctx, r, stripped), cuts, refs, pending, roots + {r})
  {
    ghost var chosen, scuts;
    var srefs, sobjs;
    chosen, stripped, scuts, srefs, sobjs := CutSlot(w);
    EncodeStep(v, ctx, cuts0, refs0, pending0, roots, r, chosen, stripped, scuts, srefs, sobjs);
    cuts, refs, pending := cuts0 + Rooted(r, scuts), refs0 + RootedEntries(r, srefs), pending0 + sobjs;
  }

  lemma NothingEncoded(v: Value)
    ensures Encoded(v, v, [], [], [], {})
  {
  }

  /** Every root in turn: what stands there is replaced by what is left of it. */
  method CutRoots(v: Value, roots: seq<Path>)
    returns (ctx: Value, refs: seq<Entry>, pending: seq<Value>, ghost cuts: seq<Cut>)
    requires forall i :: 0 <= i < |roots| ==> roots[i] != [] && Has(v, roots[i])
    requires forall i, j :: 0 <= i < j < |roots| ==> !Nested(roots[i], roots[j])
    ensures Encoded(v, ctx, cuts, refs, pending, set r | r in roots)
  {
    ctx, refs, pending, cuts := v, [], [], [];
    ghost var done := {};
    NothingEncoded(v);
    for i := 0 to |roots|
      invariant done == (set r | r in roots[..i]) && Encoded(v, ctx, cuts, refs, pending, done)
    {
      var r := roots[i];
      assert roots[..i + 1] == roots[..i] + [r];
      var stripped;
      stripped, cuts, refs, pending := CutAt(v, ctx, cuts, refs, pending, done, r, At(v, r));
      ctx, done := Place(ctx, r, stripped), done + {r};
    }
    assert roots[..|roots|] == roots;
  }

  // ------------------------------------------------------------------------------------------
  // The columns
  // ------------------------------------------------------------------------------------------

  /** The roots of a context: each slot that is set, then each task's output on its own. */
  function SlotRoots(names: seq<string>, cd: map<string, Value>): (rs: seq<Path>)
    ensures forall r: Path :: r in rs <==> |r| == 1 && r[0].Key? && r[0].key in names && r[0].key in cd
    ensures (forall i, j :: 0 <= i < j < |names| ==> names[i] != names[j]) ==>
      forall i, j :: 0 <= i < j < |rs| ==> rs[i] != rs[j]
  {
    assert forall r: Path :: |r| == 1 ==> r == [r[0]];
    if names == [] then []
    else (if names[0] in cd then [[Key(names[0])]] else []) + SlotRoots(names[1..], cd)
  }

  function OutputRoots(o: string, outs: map<string, Value>): (rs: seq<Path>)
    ensures forall r: Path :: r in rs <==> |r| == 2 && r[0] == Key(o) && r[1].Key? && r[1].key in outs
    ensures forall i, j :: 0 <= i < j < |rs| ==> rs[i] != rs[j]
  {
    var ks := SortKeys(outs.Keys);
    var rs := seq(|ks|, i requires 0 <= i < |ks| => [Key(o), Key(ks[i])]);
    assert forall i :: 0 <= i < |ks| ==> rs[i][1] == Key(ks[i]) && ks[i] in ks;
    assert forall k :: k in outs ==> k in ks;
    assert forall r: Path :: |r| == 2 && r[0] == Key(o) && r[1].Key? ==> r == [Key(o), Key(r[1].key)];
    rs
  }

  /** Removing below a slot, or leaving null in its place, keeps the context's keys, and a map that
      is no root stays a map. */
  lemma {:induction false} DropsKeepKeys(v: Value, cs: seq<Cut>, k: string)
    requires v.Obj?
    requires forall i :: 0 <= i < |cs| ==> cs[i].path != [] && (|cs[i].path| == 1 ==> cs[i].whole && Has(v, cs[i].path))
    ensures DropAll(v, cs).Obj? && DropAll(v, cs).fields.Keys == v.fields.Keys
    ensures k in v.fields && v.fields[k].Obj? && (forall i :: 0 <= i < |cs| ==> cs[i].path != [Key(k)]) ==>
      DropAll(v, cs).fields[k].Obj?
    decreases |cs|
  {
    if cs != [] {
      var n := |cs| - 1;
      DropsKeepKeys(v, cs[..n], k);
      var p, w := cs[n].path, DropAll(v, cs[..n]);
      if |p| == 1 {
        assert HasStep(v, p[0]) && p == [p[0]];
      } else if k in v.fields && w.fields[k].Obj? {
        assert Remove(w.fields[k], p[1..]).Obj? && Place(w.fields[k], p[1..], Null).Obj?;
      }
    }
  }

  function Roots(y: Layout, cd: map<string, Value>): (rs: seq<Path>) {
    SlotRoots(y.slots, cd) +
    if y.outputs in cd && cd[y.outputs].Obj? then OutputRoots(y.outputs, cd[y.outputs].fields) else []
  }

  lemma RootsApart(a: seq<Path>, b: seq<Path>)
    requires forall i, j :: 0 <= i < j < |a| ==> a[i] != a[j]
    requires forall i, j :: 0 <= i < j < |b| ==> b[i] != b[j]
    requires (forall r :: r in a ==> |r| == 1) && forall r :: r in b ==> |r| == 2
    requires forall q, r :: q in a && r in b ==> q[0] != r[0]
    ensures forall i, j :: 0 <= i < j < |a + b| ==> !Nested((a + b)[i], (a + b)[j])
  {
    var rs := a + b;
    forall i, j | 0 <= i < j < |rs|
      ensures !Nested(rs[i], rs[j])
    {
      if j < |a| {
        assert rs[i] == a[i] && rs[j] == a[j];
      } else if i < |a| {
        assert rs[i] in a && rs[j] in b;
      } else {
        assert rs[i] == b[i - |a|] && rs[j] == b[j - |a|];
      }
    }
  }

  /** A root is a slot of the context or one output of its outputs. */
  ghost predicate IsRoot(y: Layout, cd: map<string, Value>, r: Path) {
    || (|r| == 1 && r[0].Key? && r[0].key in y.slots && r[0].key in cd)
    || (|r| == 2 && r[0] == Key(y.outputs) && y.outputs in cd && cd[y.outputs].Obj?
        && r[1].Key? && r[1].key in cd[y.outputs].fields)
  }

  lemma RootsAre(y: Layout, cd: map<string, Value>)
    requires LayoutOk(y)
    ensures forall r :: r in Roots(y, cd) <==> IsRoot(y, cd, r)
    ensures forall i, j :: 0 <= i < j < |Roots(y, cd)| ==> !Nested(Roots(y, cd)[i], Roots(y, cd)[j])
  {
    RootsApart(SlotRoots(y.slots, cd),
               if y.outputs in cd && cd[y.outputs].Obj? then OutputRoots(y.outputs, cd[y.outputs].fields) else []);
  }

  lemma RootStands(y: Layout, cd: map<string, Value>, m: map<string, Value>, r: Path)
    requires IsRoot(y, cd, r) && m == Stored(y, cd)
    ensures r != [] && Has(Obj(m), r)
  {
    if |r| == 2 {
      assert y.outputs in m && r[1..] == [r[1]];
      assert Has(cd[y.outputs], r[1..]);
    } else {
      assert r[0].key in m && r[1..] == [];
    }
  }

  /** The columns of a context that has been cut. */
  function ColumnsOf(y: Layout, ctx: map<string, Value>, cd: map<string, Value>, refs: seq<Entry>): (cols: Columns)
    requires Injective(y.engine)
  {
    Columns(map k | k in ctx && k in y.slots :: ctx[k],
            if y.outputs in ctx && ctx[y.outputs].Obj? then Some(ctx[y.outputs].fields) else None,
            Renamed(y.engine, cd), refs)
  }

  lemma JoinedPieces(y: Layout, ctx: map<string, Value>, cd: map<string, Value>, cols: Columns)
    requires ctx.Keys == Stored(y, cd).Keys && (y.outputs in ctx ==> ctx[y.outputs].Obj?)
    requires forall k :: k in y.engine && k in cd ==> ctx[k] == cd[k]
    requires cols.slots == map k | k in ctx && k in y.slots :: ctx[k]
    requires cols.outputs == if y.outputs in ctx && ctx[y.outputs].Obj? then Some(ctx[y.outputs].fields) else None
    requires Unrenamed(y.engine, cols.engine) == map k | k in y.engine && k in cd :: cd[k]
    ensures Joined(y, cols) == Obj(ctx)
  {
    var outs := if cols.outputs.Some? then map[y.outputs := Obj(cols.outputs.value)] else map[];
    var engine := Unrenamed(y.engine, cols.engine);
    assert forall k :: k in outs ==> k in ctx && outs[k] == ctx[k];
    assert forall k :: k in engine ==> k in Stored(y, cd);
    MergePieces(ctx, cols.slots, outs, engine, y, cd);
  }

  /** Three pieces that agree with a context and have its keys between them. */
  lemma MergePieces(ctx: map<string, Value>, a: map<string, Value>, b: map<string, Value>, c: map<string, Value>,
                    y: Layout, cd: map<string, Value>)
    requires (forall k :: k in a ==> k in ctx && a[k] == ctx[k]) && (forall k :: k in b ==> k in ctx && b[k] == ctx[k])
    requires forall k :: k in c ==> k in ctx && c[k] == ctx[k]
    requires ctx.Keys == Stored(y, cd).Keys
    requires forall k :: k in ctx && k in y.slots ==> k in a
    requires y.outputs in ctx ==> y.outputs in b
    requires forall k :: k in y.engine && k in cd ==> k in c
    ensures a + b + c == ctx
  {
    forall k | k in ctx
      ensures k in a + b + c && (a + b + c)[k] == ctx[k]
    {
      assert k in cd && StoredKey(y, cd, k);
    }
  }

  lemma JoinedColumns(y: Layout, ctx: map<string, Value>, cd: map<string, Value>, refs: seq<Entry>)
    requires LayoutOk(y) && ctx.Keys == Stored(y, cd).Keys
    requires y.outputs in ctx ==> ctx[y.outputs].Obj?
    requires forall k :: k in y.engine && k in cd ==> ctx[k] == cd[k]
    ensures Joined(y, ColumnsOf(y, ctx, cd, refs)) == Obj(ctx)
  {
    RenameRoundTrip(y.engine, cd);
    JoinedPieces(y, ctx, cd, ColumnsOf(y, ctx, cd, refs));
  }

  ghost function RootSet(y: Layout, cd: map<string, Value>): (rs: set<Path>) {
    set r | r in Roots(y, cd)
  }

  lemma CutPlacement(y: Layout, cd: map<string, Value>, m: map<string, Value>, cuts: seq<Cut>, i: nat)
    requires LayoutOk(y) && m == Stored(y, cd) && Within(cuts, RootSet(y, cd)) && i < |cuts|
    ensures cuts[i].path != [] && cuts[i].path != [Key(y.outputs)]
    ensures (|cuts[i].path| == 1 ==> cuts[i].whole && Has(Obj(m), cuts[i].path))
    ensures forall k :: k in y.engine ==> cuts[i].path[0] != Key(k)
  {
    RootsAre(y, cd);
    var r :| r in RootSet(y, cd) && Covers(r, cuts[i]);
    assert IsRoot(y, cd, r);
    RootStands(y, cd, m, r);
    assert r[0] == cuts[i].path[0];
    assert |cuts[i].path| == 1 ==> cuts[i].path == r;
  }

  lemma KeyStands(m: map<string, Value>, k: string)
    requires k in m
    ensures Has(Obj(m), [Key(k)]) && At(Obj(m), [Key(k)]) == m[k]
  {
    var r: Path := [Key(k)];
    assert r[0] == Key(k) && r[1..] == [];
    assert HasStep(Obj(m), r[0]) && StepTo(Obj(m), r[0]) == m[k];
    assert Has(m[k], r[1..]) && At(m[k], r[1..]) == m[k];
  }

  /** Engine keys are no root, and are left alone. */
  lemma {:induction false} EngineKept(m: map<string, Value>, cuts: seq<Cut>, k: string)
    requires k in m && forall i :: 0 <= i < |cuts| ==> cuts[i].path != [] && cuts[i].path[0] != Key(k)
    ensures Has(DropAll(Obj(m), cuts), [Key(k)]) && At(DropAll(Obj(m), cuts), [Key(k)]) == m[k]
  {
    KeyStands(m, k);
    AtPastDrops(Obj(m), cuts, [Key(k)]);
  }

  /** Cutting at the roots keeps every key, keeps the outputs a map, and leaves engine keys alone. */
  lemma CutShape(y: Layout, cd: map<string, Value>, m: map<string, Value>, cuts: seq<Cut>, ctx: Value)
    requires LayoutOk(y) && m == Stored(y, cd) && Within(cuts, RootSet(y, cd)) && ctx == DropAll(Obj(m), cuts)
    ensures ctx.Obj? && ctx.fields.Keys == m.Keys
    ensures y.outputs in m ==> ctx.fields[y.outputs].Obj?
    ensures forall k :: k in y.engine && k in cd ==> ctx.fields[k] == cd[k]
  {
    forall i | 0 <= i < |cuts|
      ensures cuts[i].path != [] && cuts[i].path != [Key(y.outputs)]
      ensures (|cuts[i].path| == 1 ==> cuts[i].whole && Has(Obj(m), cuts[i].path))
      ensures forall k :: k in y.engine ==> cuts[i].path[0] != Key(k)
    {
      CutPlacement(y, cd, m, cuts, i);
    }
    DropsKeepKeys(Obj(m), cuts, y.outputs);
    forall k | k in y.engine && k in cd
      ensures ctx.fields[k] == cd[k]
    {
      EngineKept(m, cuts, k);
    }
  }

  /** The columns of a context whose slots and outputs have all been cut. */
  ghost predicate EncodedState(y: Layout, cd: map<string, Value>, cols: Columns, cuts: seq<Cut>, pending: seq<Value>) {
    Encoded(Obj(Stored(y, cd)), Joined(y, cols), cuts, cols.objects, pending, RootSet(y, cd))
  }

  /** encodeState: every context, whatever it holds; referenced is what the row will claim. */
  method EncodeState(cd: map<string, Value>)
    returns (cols: Columns, pending: seq<Value>, referenced: set<Value>, ghost cuts: seq<Cut>)
    ensures EncodedState(LAYOUT, cd, cols, cuts, pending)
    ensures referenced == Contents(cols.objects)
  {
    LayoutIsOk();
    cols, pending, cuts := EncodeWith(LAYOUT, cd);
    referenced := Contents(cols.objects);
  }

  method EncodeWith(y: Layout, cd: map<string, Value>)
    returns (cols: Columns, pending: seq<Value>, ghost cuts: seq<Cut>)
    requires LayoutOk(y)
    ensures EncodedState(y, cd, cols, cuts, pending)
  {
    var m, roots := Stored(y, cd), Roots(y, cd);
    RootsAre(y, cd);
    forall i | 0 <= i < |roots|
      ensures roots[i] != [] && Has(Obj(m), roots[i])
    {
      RootStands(y, cd, m, roots[i]);
    }
    var ctx, refs;
    ctx, refs, pending, cuts := CutRoots(Obj(m), roots);
    CutShape(y, cd, m, cuts, ctx);
    cols := ColumnsOf(y, ctx.fields, cd, refs);
    JoinedColumns(y, ctx.fields, cd, refs);
  }

  /** The decoded context is the stored part of the original with every externalized part replaced
      by its marker where it was cut, and putting each object back gives the original. */
  lemma StateRoundTrip(y: Layout, cd: map<string, Value>, cols: Columns, cuts: seq<Cut>, pending: seq<Value>,
                       v: Value, es: seq<Entry>)
    requires EncodedState(y, cd, cols, cuts, pending) && v == Obj(Stored(y, cd))
    requires Distinct(es) && EntryPaths(es) == EntryPaths(cols.objects)
    requires forall i :: 0 <= i < |es| ==> es[i].value == if Has(v, es[i].path) then At(v, es[i].path) else Null
    ensures DecodeState(y, cols) == PlaceAll(v, cols.objects)
    ensures PlaceAll(Joined(y, cols), es) == v
  {
    EncodedRoundTrip(v, Joined(y, cols), cuts, cols.objects, pending, RootSet(y, cd), es);
  }
}
