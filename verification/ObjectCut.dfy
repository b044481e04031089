/**
 The search for a cut, round by round, and the cut itself.
 */
module ObjectCut {

  import opened Values
  import opened Encoding
  import opened Cuts
  import opened CutModel
  import opened CutFits
  import opened CutChoice

  // ------------------------------------------------------------------------------------------
  // What a cut leaves behind
  // ------------------------------------------------------------------------------------------

  /** What stands at a chosen position once it is external: a fresh reference, or the one it was. */
  function MarkerFor(v: Value, p: Path): (m: Value)
    requires Has(v, p)
  {
    if At(v, p).Ref? then At(v, p) else Ref(At(v, p))
  }

  /** The stripped value, the references in the order they were cut, and the content to write. */
  ghost predicate CutResult(v: Value, chosen: set<Path>, stripped: Value, cuts: seq<Cut>, refs: seq<Entry>,
                            objs: seq<Value>) {
    && CutOk(v, chosen) && CutPaths(cuts) == chosen && Apart(cuts)
    && (forall i :: 0 <= i < |cuts| ==> !cuts[i].whole)
    && |refs| == |cuts|
    && (forall i :: 0 <= i < |refs| ==>
          refs[i].path == cuts[i].path && Has(v, refs[i].path) && refs[i].value == MarkerFor(v, refs[i].path))
    && (forall o :: o in objs <==> exists p :: p in chosen && !MarkerAt(v, p) && o == At(v, p))
    && stripped == if [] in chosen then Null else DropAll(v, cuts)
  }

  /** Putting values back: at the empty path, the whole value. */
  function PutBack(stripped: Value, es: seq<Entry>): (v: Value) {
    if |es| == 1 && es[0].path == [] then es[0].value else PlaceAll(stripped, es)
  }

  lemma RootAlone(v: Value, chosen: set<Path>)
    requires CutOk(v, chosen) && [] in chosen
    ensures chosen == {[]}
  {
    forall p | p in chosen
      ensures p == []
    {
      assert [] <= p;
    }
  }

  /** For every value: putting each object back at its listed path, in any order, gives the
      original; no stored object contains a marker; every marker is still listed; and the
      stripped value holds none. */
  lemma CutKeepsTheValue(v: Value, chosen: set<Path>, stripped: Value, cuts: seq<Cut>, refs: seq<Entry>,
                         objs: seq<Value>, es: seq<Entry>)
    requires CutResult(v, chosen, stripped, cuts, refs, objs)
    requires Distinct(es) && EntryPaths(es) == chosen
    requires forall i :: 0 <= i < |es| ==> es[i].value == if Has(v, es[i].path) then At(v, es[i].path) else Null
    ensures PutBack(stripped, es) == v
    ensures forall o :: o in objs ==> MarkerFree(o)
    ensures forall p :: MarkerAt(v, p) ==> Entry(p, At(v, p)) in refs
    ensures MarkerFree(stripped)
  {
    forall i | 0 <= i < |es|
      ensures Has(v, es[i].path)
    {
      assert es[i].path in EntryPaths(es);
    }
    forall o | o in objs
      ensures MarkerFree(o)
    {
      var p :| p in chosen && !MarkerAt(v, p) && o == At(v, p);
      ObjectsHaveNoMarkers(v, chosen, p);
    }
    forall p | MarkerAt(v, p)
      ensures Entry(p, At(v, p)) in refs
    {
      assert p in CutPaths(cuts);
      var i :| 0 <= i < |cuts| && cuts[i].path == p;
      assert refs[i] == Entry(p, At(v, p));
    }
    if [] in chosen {
      RootAlone(v, chosen);
      WholeBack(v, es);
    } else {
      assert forall i :: 0 <= i < |es| ==> es[i].path in chosen;
      CutRoundTrip(v, cuts, es);
      StrippedHasNoMarkers(v, chosen, cuts);
    }
  }

  lemma WholeBack(v: Value, es: seq<Entry>)
    requires Distinct(es) && EntryPaths(es) == {[]}
    ensures |es| == 1 && es[0].path == []
  {
    assert forall i :: 0 <= i < |es| ==> es[i].path in EntryPaths(es);
    assert es == [] ==> EntryPaths(es) == {};
    EntriesTail(es);
    NoEntries(es[1..]);
  }

  lemma NoEntries(es: seq<Entry>)
    ensures EntryPaths(es) == {} ==> es == []
  {
    if es != [] {
      assert es[0].path in EntryPaths(es);
    }
  }

  lemma DropStepMarkers(v: Value, s: Seg, q: Path)
    requires q != [] && q[0] == s
    ensures !MarkerAt(DropStep(v, s), q)
  {
    var d := DropStep(v, s);
    assert v.Obj? ==> !HasStep(d, s);
    assert HasStep(d, s) ==> StepTo(d, s) == Null;
    assert Has(Null, q[1..]) ==> q[1..] == [];
    assert Has(d, q) ==> At(d, q) == Null;
  }

  /** Removing at p moves no marker and leaves none at or under p. */
  lemma {:induction false} RemoveMarkers(v: Value, p: Path, q: Path)
    requires p != []
    ensures MarkerAt(Remove(v, p), q) ==> MarkerAt(v, q) && !(p <= q)
    decreases |p|
  {
    if q != [] && q[0] == p[0] {
      if |p| == 1 {
        DropStepMarkers(v, p[0], q);
      } else if HasStep(v, p[0]) {
        RemoveMarkers(StepTo(v, p[0]), p[1..], q[1..]);
        assert p <= q ==> p[1..] <= q[1..];
      }
    } else {
      assert !(p <= q);
    }
  }

  lemma {:induction false} DropAllMarkers(v: Value, cs: seq<Cut>, q: Path)
    requires forall i :: 0 <= i < |cs| ==> !cs[i].whole && cs[i].path != []
    ensures MarkerAt(DropAll(v, cs), q) ==> MarkerAt(v, q) && q !in CutPaths(cs)
    decreases |cs|
  {
    if cs != [] {
      var n := |cs| - 1;
      RemoveMarkers(DropAll(v, cs[..n]), cs[n].path, q);
      DropAllMarkers(v, cs[..n], q);
      assert cs == cs[..n] + [cs[n]];
    }
  }

  lemma StrippedHasNoMarkers(v: Value, chosen: set<Path>, cs: seq<Cut>)
    requires CutOk(v, chosen) && CutPaths(cs) == chosen && [] !in chosen && forall i :: 0 <= i < |cs| ==> !cs[i].whole
    ensures MarkerFree(DropAll(v, cs))
  {
    assert forall i :: 0 <= i < |cs| ==> cs[i].path in CutPaths(cs);
    forall q | Has(DropAll(v, cs), q)
      ensures !MarkerAt(DropAll(v, cs), q)
    {
      DropAllMarkers(v, cs, q);
    }
  }

  // ------------------------------------------------------------------------------------------
  // The search
  // ------------------------------------------------------------------------------------------

  /** What is chosen under p is dropped again, one position at a time. */
  method DropUnder(v: Value, chosen0: set<Path>, data0: int, objects0: int, p: Path)
    returns (chosen: set<Path>, data: int, objects: int)
    requires forall q :: q in chosen0 ==> Has(v, q)
    ensures chosen == chosen0 - Under(chosen0, p)
    ensures data + ChosenSize(v, chosen) == data0 + ChosenSize(v, chosen0)
    ensures objects - EntriesSize(chosen) == objects0 - EntriesSize(chosen0)
  {
    chosen, data, objects := chosen0, data0, objects0;
    var todo := Under(chosen0, p);
    while todo != {}
      invariant todo <= Under(chosen0, p) && chosen == chosen0 - (Under(chosen0, p) - todo)
      invariant data + ChosenSize(v, chosen) == data0 + ChosenSize(v, chosen0)
      invariant objects - EntriesSize(chosen) == objects0 - EntriesSize(chosen0)
      decreases todo
    {
      var d :| d in todo;
      SumTake(chosen, SizeAt(v), d);
      SumTake(chosen, EntryFn(), d);
      chosen, data, objects := chosen - {d}, data + Size(At(v, d)), objects - EntrySize(d);
      todo := todo - {d};
    }
  }

  /** Takes p, dropping what it now contains. */
  method Take(v: Value, chosen0: set<Path>, data0: int, objects0: int, p: Path)
    returns (chosen: set<Path>, data: int, objects: int)
    requires CutOk(v, chosen0) && Takes(v, chosen0, p)
    ensures Sel(chosen, data, objects) == Taken(v, Sel(chosen0, data0, objects0), p)
    ensures Moved(v, Sel(chosen0, data0, objects0), Sel(chosen, data, objects))
  {
    chosen, data, objects := DropUnder(v, chosen0, data0, objects0, p);
    SumAdd(chosen, SizeAt(v), p);
    SumAdd(chosen, EntryFn(), p);
    chosen, data, objects := chosen + {p}, data - Size(At(v, p)), objects + EntrySize(p);
    ChooseKeeps(v, chosen0, p);
  }

  /** What is still inline of a position, and whether anything under it is chosen. */
  method Rank(v: Value, chosen: set<Path>, p: Path) returns (rank: int, holdsChosen: bool)
    requires CutOk(v, chosen) && Has(v, p)
    ensures rank == RankOf(v, chosen)(p)
    ensures holdsChosen <==> Under(chosen, p) != {}
  {
    rank, holdsChosen := Size(At(v, p)), false;
    var below := Under(chosen, p);
    var done := {};
    while done != below
      invariant done <= below && (holdsChosen <==> done != {})
      invariant rank == Size(At(v, p)) - ChosenSize(v, done) + EntriesSize(done)
      decreases below - done
    {
      assert !(below <= done);
      var d :| d in below && d !in done;
      SumAdd(done, SizeAt(v), d);
      SumAdd(done, EntryFn(), d);
      rank, holdsChosen := rank - (Size(At(v, d)) - EntrySize(d)), true;
      done := done + {d};
    }
  }

  /** The first of some positions by key, ties by path. */
  method First(todo: set<Path>, key: Path -> int) returns (p: Path)
    requires todo != {}
    ensures p == FirstOf(key, todo)
  {
    p :| p in todo;
    var rest := todo - {p};
    while rest != {}
      invariant p in todo && p !in rest && rest <= todo
      invariant forall q :: q in todo - rest && q != p ==> Before(key, p, q)
      decreases rest
    {
      var q :| q in rest;
      BeforeTotal(key, p, q);
      if Before(key, q, p) {
        forall r | r in todo - rest && r != p
          ensures Before(key, q, r)
        {
          BeforeTrans(key, q, p, r);
        }
        p := q;
      }
      rest := rest - {q};
    }
    FirstUnique(key, todo, p, FirstOf(key, todo));
  }

  /** Ranks of a level, as found when it begins. */
  method RankAll(v: Value, level: set<Path>, chosen: set<Path>) returns (rank: map<Path, int>, holds: map<Path, bool>)
    requires CutOk(v, chosen) && forall p :: p in level ==> Has(v, p)
    ensures rank.Keys == holds.Keys == level
    ensures forall p :: p in level ==> rank[p] == RankOf(v, chosen)(p) && (holds[p] <==> Under(chosen, p) != {})
  {
    rank, holds := map[], map[];
    var todo := level;
    while todo != {}
      invariant todo <= level && rank.Keys == holds.Keys == level - todo
      invariant forall p ::
        p in rank ==> rank[p] == RankOf(v, chosen)(p) && (holds[p] <==> Under(chosen, p) != {})
      decreases todo
    {
      var p :| p in todo;
      var r, h := Rank(v, chosen, p);
      rank, holds := rank[p := r], holds[p := h];
      todo := todo - {p};
    }
  }

  lemma SameFirst(ps: set<Path>, f: Path -> int, g: Path -> int)
    requires ps != {} && forall p :: p in ps ==> f(p) == g(p)
    ensures FirstOf(f, ps) == FirstOf(g, ps)
  {
    var p := FirstOf(f, ps);
    forall q | q in ps && q != p
      ensures Before(g, p, q)
    {
      assert Before(f, p, q);
    }
    FirstUnique(g, ps, p, FirstOf(g, ps));
  }

  method FirstRanked(v: Value, start: set<Path>, todo: set<Path>, rank: map<Path, int>) returns (p: Path)
    requires todo != {} && forall q :: q in todo ==> q in rank && rank[q] == RankOf(v, start)(q)
    ensures p == FirstOf(RankOf(v, start), todo)
  {
    var key := (q: Path) => if q in rank then rank[q] else 0;
    p := First(todo, key);
    SameFirst(todo, key, RankOf(v, start));
  }

  /** One candidate: passed over, taken, or so small that the level is done. */
  method TryOne(v: Value, ghost start: set<Path>, ghost todo: set<Path>, chosen0: set<Path>, data0: int, objects0: int,
                ghost target: int, p: Path, rank: int, holds: bool)
    returns (stop: bool, chosen: set<Path>, data: int, objects: int)
    requires todo != {} && p == FirstOf(RankOf(v, start), todo) && Has(v, p)
    requires CutOk(v, chosen0) && Over(Sel(chosen0, data0, objects0), target)
    requires rank == RankOf(v, start)(p) && (holds <==> Under(start, p) != {})
    ensures CutOk(v, chosen)
    ensures Level(v, start, todo, Sel(chosen0, data0, objects0), target) ==
      if stop then Sel(chosen, data, objects) else Level(v, start, todo - {p}, Sel(chosen, data, objects), target)
  {
    stop, chosen, data, objects := false, chosen0, data0, objects0;
    if MarkerAt(v, p) || p in chosen || CoveredByAncestor(p, chosen) {
      return;
    }
    if HoldsMarker(v, p) {
      return;
    }
    if rank < MIN_EXTERNALIZE_BYTES {
      stop := true;
      return;
    }
    if holds && rank - EntrySize(p) < MIN_EXTERNALIZE_BYTES {
      return;
    }
    chosen, data, objects := Take(v, chosen, data, objects, p);
  }

  /** One depth: candidates by rank, until the estimate fits or nothing left there can help. */
  method SelectLevel(v: Value, level: set<Path>, chosen0: set<Path>, data0: int, objects0: int, target: int)
    returns (chosen: set<Path>, data: int, objects: int)
    requires CutOk(v, chosen0) && forall p :: p in level ==> Has(v, p)
    ensures Sel(chosen, data, objects) == Level(v, chosen0, level, Sel(chosen0, data0, objects0), target)
    ensures CutOk(v, chosen)
  {
    chosen, data, objects := chosen0, data0, objects0;
    var rank, holds := RankAll(v, level, chosen0);
    var todo := level;
    while todo != {} && data + objects > target
      invariant todo <= level && CutOk(v, chosen)
      invariant Level(v, chosen0, todo, Sel(chosen, data, objects), target) ==
                Level(v, chosen0, level, Sel(chosen0, data0, objects0), target)
      decreases todo
    {
      var p := FirstRanked(v, chosen0, todo, rank);
      var stop;
      stop, chosen, data, objects := TryOne(v, chosen0, todo, chosen, data, objects, target, p, rank[p], holds[p]);
      if stop {
        break;
      }
      todo := todo - {p};
    }
  }

  method MaxDepth(ps: set<Path>) returns (depth: nat)
    requires ps != {}
    ensures (forall p :: p in ps ==> |p| <= depth) && exists p :: p in ps && |p| == depth
  {
    var deepest :| deepest in ps;
    var rest := ps - {deepest};
    while rest != {}
      invariant rest <= ps && deepest in ps && forall p :: p in ps - rest ==> |p| <= |deepest|
      decreases rest
    {
      var p :| p in rest;
      if |p| > |deepest| {
        deepest := p;
      }
      rest := rest - {p};
    }
    depth := |deepest|;
  }

  /** selectNodes: from the deepest level up, each tried out before the next coarser one. */
  method SelectNodes(v: Value, chosen0: set<Path>, data0: int, objects0: int, target: int)
    returns (chosen: set<Path>, data: int, objects: int)
    requires CutOk(v, chosen0)
    ensures IsRound(v, Sel(chosen0, data0, objects0), target, Sel(chosen, data, objects))
  {
    chosen, data, objects := chosen0, data0, objects0;
    var nodes := Positions(v);
    PositionsAreValid(v, []);
    var maxDepth := MaxDepth(nodes);
    assert IsDepth(v, maxDepth);
    forall d: nat | IsDepth(v, d)
      ensures d == maxDepth
    {
      OneDepth(v, maxDepth, d);
    }
    var depth: int := maxDepth;
    while depth >= 0 && data + objects > target
      invariant -1 <= depth && CutOk(v, chosen)
      invariant Levels(v, depth, Sel(chosen, data, objects), target) ==
                Levels(v, maxDepth, Sel(chosen0, data0, objects0), target)
      decreases depth
    {
      DepthIsLevel(v, depth);
      chosen, data, objects := SelectLevel(v, AtDepth(v, depth), chosen, data, objects, target);
      depth := depth - 1;
    }
  }

  /** `s'` is what a round from `s` comes to. */
  ghost predicate IsRound(v: Value, s: Sel, target: int, s': Sel) {
    CutOk(v, s.chosen) && forall d: nat {:trigger IsDepth(v, d)} :: IsDepth(v, d) ==> s' == Levels(v, d, s, target)
  }

  lemma OneDepth(v: Value, d: nat, e: nat)
    requires IsDepth(v, d) && IsDepth(v, e)
    ensures d == e
  {
    var p :| p in Positions(v) && |p| == d;
    var q :| q in Positions(v) && |q| == e;
  }

  // ------------------------------------------------------------------------------------------
  // The cut
  // ------------------------------------------------------------------------------------------

  /** The value with some of its positions out, and what listing them costs. */
  method Weigh(v: Value, out: set<Path>) returns (data: int, objects: int)
    requires forall p :: p in out ==> Has(v, p)
    ensures data == Size(v) - ChosenSize(v, out) && objects == EntriesSize(out)
  {
    data, objects := Size(v), 0;
    var done := {};
    while done != out
      invariant done <= out && data == Size(v) - ChosenSize(v, done) && objects == EntriesSize(done)
      decreases out - done
    {
      assert !(out <= done);
      var p :| p in out && p !in done;
      SumAdd(done, SizeAt(v), p);
      SumAdd(done, EntryFn(), p);
      data, objects := data - Size(At(v, p)), objects + EntrySize(p);
      done := done + {p};
    }
  }

  /** The estimate before the search: the whole value inline, and an entry for each marker. */
  method Estimate(v: Value) returns (data: int, objects: int)
    ensures CutOk(v, Markers(v)) && Sel(Markers(v), data, objects) == Start(v)
  {
    MarkersOk(v);
    data, objects := Weigh(v, Markers(v));
  }

  /** The selection starts from what is already external; in the first round the inline estimate
      is exactly the value less its chosen parts, and never negative. */
  method FirstRound(v: Value, target: int) returns (chosen: set<Path>, data: int, objects: int)
    ensures CutOk(v, Markers(v)) && Sel(chosen, data, objects) == Round(v, Start(v), target)
    ensures CutOk(v, chosen) && objects == EntriesSize(chosen)
    ensures data == Size(v) - ChosenSize(v, chosen) && data >= 0
  {
    data, objects := Estimate(v);
    chosen, data, objects := SelectNodes(v, Markers(v), data, objects, target);
    RoundIs(v, Start(v), target, Sel(chosen, data, objects));
    MarkersOk(v);
    StartedFrom(v, Sel(chosen, data, objects));
  }

  lemma StartedFrom(v: Value, s: Sel)
    requires Moved(v, Start(v), s) && ChosenSize(v, Markers(v)) == 0
    ensures CutOk(v, s.chosen) && s.objects == EntriesSize(s.chosen)
    ensures s.data == Size(v) - ChosenSize(v, s.chosen) && s.data >= 0
  {
    ChosenFits(v, s.chosen);
  }

  ghost predicate CutDown(cuts: seq<Cut>, done: set<Path>) {
    CutPaths(cuts) == done && Apart(cuts) && forall i :: 0 <= i < |cuts| ==> !cuts[i].whole
  }

  lemma CutMore(v: Value, chosen: set<Path>, cuts: seq<Cut>, done: set<Path>, p: Path)
    requires CutOk(v, chosen) && CutDown(cuts, done) && done <= chosen && p in chosen && p !in done
    ensures CutDown(cuts + [Cut(p, false)], done + {p})
  {
    forall i | 0 <= i < |cuts|
      ensures !Nested(cuts[i].path, p)
    {
      assert cuts[i].path in CutPaths(cuts);
    }
    assert CutPaths(cuts + [Cut(p, false)]) == CutPaths(cuts) + {p};
  }

  lemma SpliceDown(v: Value, chosen: set<Path>, cuts: seq<Cut>, todo: set<Path>, p: Path)
    requires CutOk(v, chosen) && todo <= chosen && CutDown(cuts, chosen - todo) && p in todo
    ensures CutDown(cuts + [Cut(p, false)], chosen - (todo - {p}))
  {
    CutMore(v, chosen, cuts, chosen - todo, p);
    assert chosen - (todo - {p}) == chosen - todo + {p};
  }

  lemma SpliceOrder(cuts: seq<Cut>, todo: set<Path>, p: Path)
    requires todo != {} && p == FirstOf(DepthKey(), todo)
    ensures cuts + [Cut(p, false)] + CutOrder(todo - {p}) == cuts + CutOrder(todo)
  {
  }

  /** Removing every chosen position, deepest first, to weigh the rest or to keep it. */
  method Splice(v: Value, chosen: set<Path>) returns (stripped: Value, cuts: seq<Cut>)
    requires CutOk(v, chosen)
    ensures CutPaths(cuts) == chosen && Apart(cuts) && forall i :: 0 <= i < |cuts| ==> !cuts[i].whole
    ensures cuts == CutOrder(chosen) && stripped == Stripped(v, chosen)
  {
    cuts := [];
    var out := v;
    var todo := chosen;
    while todo != {}
      invariant todo <= chosen && CutDown(cuts, chosen - todo)
      invariant out == DropAll(v, cuts) && cuts + CutOrder(todo) == CutOrder(chosen)
      decreases todo
    {
      var p := First(todo, DepthKey());
      out := Remove(out, p);
      DropLast(v, cuts, Cut(p, false));
      SpliceDown(v, chosen, cuts, todo, p);
      SpliceOrder(cuts, todo, p);
      cuts, todo := cuts + [Cut(p, false)], todo - {p};
    }
    assert chosen - todo == chosen;
    stripped := if [] in chosen then Null else out;
  }

  method StoredSize(v: Value, chosen: set<Path>, objects: int) returns (size: int)
    requires CutOk(v, chosen) && objects == EntriesSize(chosen)
    ensures size == Measured(v, chosen)
  {
    var stripped, _ := Splice(v, chosen);
    size := |Encode(stripped)| + objects;
  }

  method MakeRefs(v: Value, cuts: seq<Cut>) returns (refs: seq<Entry>, objs: seq<Value>)
    requires forall i :: 0 <= i < |cuts| ==> Has(v, cuts[i].path)
    ensures |refs| == |cuts|
    ensures forall i :: 0 <= i < |refs| ==> refs[i] == Entry(cuts[i].path, MarkerFor(v, cuts[i].path))
    ensures forall i :: 0 <= i < |cuts| && !MarkerAt(v, cuts[i].path) ==> At(v, cuts[i].path) in objs
    ensures forall o :: o in objs ==> exists c ::
      c in cuts && !MarkerAt(v, c.path) && Has(v, c.path) && o == At(v, c.path)
  {
    refs, objs := [], [];
    for i := 0 to |cuts|
      invariant |refs| == i
      invariant forall j :: 0 <= j < i ==> refs[j] == Entry(cuts[j].path, MarkerFor(v, cuts[j].path))
      invariant forall j :: 0 <= j < i && !MarkerAt(v, cuts[j].path) ==> At(v, cuts[j].path) in objs
      invariant forall o :: o in objs ==> exists c ::
        c in cuts && !MarkerAt(v, c.path) && Has(v, c.path) && o == At(v, c.path)
    {
      var p := cuts[i].path;
      refs := refs + [Entry(p, MarkerFor(v, p))];
      if !At(v, p).Ref? {
        assert cuts[i] in cuts;
        objs := objs + [At(v, p)];
      }
    }
  }

  /** applyCut: each chosen position becomes a reference, and its content an object to write unless
      it was already external. */
  method ApplyCut(v: Value, chosen: set<Path>)
    returns (stripped: Value, cuts: seq<Cut>, refs: seq<Entry>, objs: seq<Value>)
    requires CutOk(v, chosen)
    ensures CutResult(v, chosen, stripped, cuts, refs, objs) && cuts == CutOrder(chosen)
  {
    stripped, cuts := Splice(v, chosen);
    assert forall i :: 0 <= i < |cuts| ==> cuts[i].path in CutPaths(cuts);
    refs, objs := MakeRefs(v, cuts);
    forall p | p in chosen && !MarkerAt(v, p)
      ensures At(v, p) in objs
    {
      assert p in CutPaths(cuts);
      var j :| 0 <= j < |cuts| && cuts[j].path == p;
    }
    forall o | o in objs
      ensures exists p :: p in chosen && !MarkerAt(v, p) && o == At(v, p)
    {
      var c :| c in cuts && !MarkerAt(v, c.path) && Has(v, c.path) && o == At(v, c.path);
      assert c.path in chosen;
    }
  }

  /** The search has come to `s` out of `before`, and what is left to do decides the cut. */
  ghost predicate Searching(v: Value, target: int, before: set<Path>, s: Sel) {
    && CutOk(v, s.chosen) && s.objects == EntriesSize(s.chosen)
    && (s.chosen == before || Uncovered(v, s.chosen) < Uncovered(v, before))
    && forall c {:trigger IsCut(v, target, c)} :: IsCut(v, target, c) ==> Rounds(v, before, s, target) == c
  }

  ghost predicate IsCut(v: Value, target: int, chosen: set<Path>) {
    chosen == Chosen(v, target)
  }

  lemma RoundsStep(v: Value, before: set<Path>, s: Sel, target: int, size: int, s1: Sel)
    requires Searching(v, target, before, s) && size == Measured(v, s.chosen)
    requires s.chosen != {} && size > target && |s.chosen| != |before|
    requires IsRound(v, Sel(s.chosen, size - s.objects, s.objects), target, s1)
    ensures Searching(v, target, s.chosen, s1) && Uncovered(v, s.chosen) < Uncovered(v, before)
  {
    assert Reseeded(v, s) == Sel(s.chosen, size - s.objects, s.objects);
    RoundIs(v, Reseeded(v, s), target, s1);
    assert IsCut(v, target, Chosen(v, target));
  }

  lemma RoundIs(v: Value, s: Sel, target: int, s1: Sel)
    requires IsRound(v, s, target, s1)
    ensures s1 == Round(v, s, target)
  {
    assert IsDepth(v, Depth(v));
  }

  lemma RoundsStop(v: Value, before: set<Path>, s: Sel, target: int)
    requires Searching(v, target, before, s)
    requires s.chosen == {} || Measured(v, s.chosen) <= target || |s.chosen| == |before|
    ensures s.chosen == Chosen(v, target)
  {
    assert IsCut(v, target, Chosen(v, target));
  }

  lemma SearchStarts(v: Value, target: int, s: Sel)
    requires CutOk(v, Markers(v)) && s == Round(v, Start(v), target)
    ensures Searching(v, target, Markers(v), s)
  {
    MovedFrom(v, Start(v), s);
    FirstOfRounds(v, target, s);
  }

  lemma MovedFrom(v: Value, s: Sel, s': Sel)
    requires Moved(v, s, s') && s.objects == EntriesSize(s.chosen)
    ensures CutOk(v, s'.chosen) && s'.objects == EntriesSize(s'.chosen)
    ensures s'.chosen == s.chosen || Uncovered(v, s'.chosen) < Uncovered(v, s.chosen)
  {
  }

  lemma FirstOfRounds(v: Value, target: int, s: Sel)
    requires CutOk(v, Markers(v)) && s == Round(v, Start(v), target) && CutOk(v, s.chosen)
    requires s.chosen == Markers(v) || Uncovered(v, s.chosen) < Uncovered(v, Markers(v))
    ensures Rounds(v, Markers(v), s, target) == Chosen(v, target)
  {
  }

  method StartSearch(v: Value, target: int) returns (before: set<Path>, chosen: set<Path>, data: int, objects: int)
    ensures Searching(v, target, before, Sel(chosen, data, objects))
  {
    before := Markers(v);
    chosen, data, objects := FirstRound(v, target);
    SearchStarts(v, target, Sel(chosen, data, objects));
  }

  /** A later round: the estimate is put right by the measured size, and the levels are gone through again. */
  method NextRound(v: Value, target: int, ghost before: set<Path>, chosen0: set<Path>, ghost data0: int, objects0: int,
                   size: int)
    returns (chosen: set<Path>, data: int, objects: int)
    requires Searching(v, target, before, Sel(chosen0, data0, objects0)) && chosen0 != {}
    requires size == Measured(v, chosen0) && size > target && |chosen0| != |before|
    ensures Searching(v, target, chosen0, Sel(chosen, data, objects)) && Uncovered(v, chosen0) < Uncovered(v, before)
  {
    chosen, data, objects := SelectNodes(v, chosen0, size - objects0, objects0, target);
    RoundsStep(v, before, Sel(chosen0, data0, objects0), target, size, Sel(chosen, data, objects));
  }

  /** Round after round, each covering strictly more of the value, which is why the search ends. */
  method Search(v: Value, target: int)
    returns (ghost before: set<Path>, chosen: set<Path>, ghost data: int, ghost objects: int)
    ensures Searching(v, target, before, Sel(chosen, data, objects))
    ensures chosen == {} || Measured(v, chosen) <= target || |chosen| == |before|
  {
    var b, d, o;
    b, chosen, d, o := StartSearch(v, target);
    while chosen != {}
      invariant Searching(v, target, b, Sel(chosen, d, o))
      decreases Uncovered(v, b)
    {
      var size := StoredSize(v, chosen, o);
      if size <= target || |chosen| == |b| {
        break;
      }
      var c1, d1, o1 := NextRound(v, target, b, chosen, d, o, size);
      b, chosen, d, o := chosen, c1, d1, o1;
    }
    before, data, objects := b, d, o;
  }

  method SelectCut(v: Value, target: int) returns (chosen: set<Path>)
    ensures chosen == Chosen(v, target) && CutOk(v, chosen)
  {
    ghost var before, data, objects;
    before, chosen, data, objects := Search(v, target);
    RoundsStop(v, before, Sel(chosen, data, objects), target);
  }

  /** cutForSize: every value, under any target, comes apart so that CutKeepsTheValue holds of it, at
      positions that depend on the value and the target alone; a value that holds no marker is left
      whole exactly when it fits. */
  method CutForSize(v: Value, target: int)
    returns (chosen: set<Path>, stripped: Value, cuts: seq<Cut>, refs: seq<Entry>, objs: seq<Value>)
    ensures CutResult(v, chosen, stripped, cuts, refs, objs)
    ensures chosen == Chosen(v, target) && cuts == CutOrder(chosen)
    ensures MarkerFree(v) && MIN_EXTERNALIZE_BYTES <= target ==> (refs == [] <==> Size(v) <= target)
    ensures MarkerFree(v) && Size(v) <= target ==> refs == [] && stripped == v
  {
    chosen := SelectCut(v, target);
    stripped, cuts, refs, objs := ApplyCut(v, chosen);
    NoCuts(cuts);
    if MarkerFree(v) {
      CutWhenOver(v, target);
    }
  }

  lemma CutWhenOver(v: Value, target: int)
    requires MarkerFree(v)
    ensures Size(v) <= target ==> Chosen(v, target) == {}
    ensures MIN_EXTERNALIZE_BYTES <= target ==> (Chosen(v, target) == {} <==> Size(v) <= target)
  {
    if MIN_EXTERNALIZE_BYTES <= target {
      CutExactlyWhenOver(v, target);
    }
    MarkersOk(v);
    assert Markers(v) == {};
  }
}
