/**
 The cut of a value: which positions are externalized, what the row then costs, and the sums the
 search keeps.
 */
module CutModel {

  import opened Values
  import opened Encoding

  const MIN_EXTERNALIZE_BYTES: int := 128
  const CONTEXT_OBJECT_THRESHOLD: int := 2 * 1024

  // ------------------------------------------------------------------------------------------
  // Positions
  // ------------------------------------------------------------------------------------------

  function Positions(v: Value): (ps: set<Path>) {
    match v
    case Arr(a) => {[]} + set i, q | 0 <= i < |a| && q in Positions(a[i]) :: [Index(i)] + q
    case Obj(m) => {[]} + set k, q | k in m && q in Positions(m[k]) :: [Key(k)] + q
    case _ => {[]}
  }

  lemma {:induction false} PositionsAreValid(v: Value, p: Path)
    ensures p in Positions(v) <==> Has(v, p)
    decreases |p|
  {
    if p != [] {
      assert p == [p[0]] + p[1..];
      if HasStep(v, p[0]) {
        PositionsAreValid(StepTo(v, p[0]), p[1..]);
      }
    }
  }

  /** The value at a position is below the value at every position above it. */
  lemma {:induction false} AtPrefix(v: Value, p: Path, q: Path)
    requires Has(v, p + q)
    ensures Has(v, p) && Has(At(v, p), q) && At(At(v, p), q) == At(v, p + q)
    decreases |p|
  {
    if p == [] {
      assert p + q == q;
    } else {
      assert (p + q)[0] == p[0] && (p + q)[1..] == p[1..] + q;
      AtPrefix(StepTo(v, p[0]), p[1..], q);
    }
  }

  lemma {:induction false} HasConcat(v: Value, p: Path, q: Path)
    requires Has(v, p) && Has(At(v, p), q)
    ensures Has(v, p + q) && At(v, p + q) == At(At(v, p), q)
    decreases |p|
  {
    if p == [] {
      assert p + q == q;
    } else {
      assert (p + q)[0] == p[0] && (p + q)[1..] == p[1..] + q;
      HasConcat(StepTo(v, p[0]), p[1..], q);
    }
  }

  predicate MarkerAt(v: Value, p: Path) {
    Has(v, p) && At(v, p).Ref?
  }

  /** No position holds a reference marker. */
  ghost predicate MarkerFree(v: Value) {
    forall p :: Has(v, p) ==> !At(v, p).Ref?
  }

  // ------------------------------------------------------------------------------------------
  // Selections
  // ------------------------------------------------------------------------------------------

  /** A selection: positions of the value, none under another, with every marker among them. */
  ghost predicate CutOk(v: Value, chosen: set<Path>) {
    && (forall p :: p in chosen ==> Has(v, p))
    && (forall p, q :: p in chosen && q in chosen && p != q ==> !Nested(p, q))
    && (forall p :: MarkerAt(v, p) ==> p in chosen)
  }

  predicate CoveredByAncestor(p: Path, chosen: set<Path>) {
    exists q :: q in chosen && q < p
  }

  /** Something under p was already external. */
  predicate HoldsMarker(v: Value, p: Path) {
    exists q :: q in Positions(v) && p < q && MarkerAt(v, q)
  }

  function Under(chosen: set<Path>, p: Path): (ps: set<Path>) {
    set q | q in chosen && p < q
  }

  function Choose(chosen: set<Path>, p: Path): (chosen': set<Path>) {
    chosen - Under(chosen, p) + {p}
  }

  /** The search may take p. */
  predicate Takes(v: Value, chosen: set<Path>, p: Path) {
    Has(v, p) && p !in chosen && !CoveredByAncestor(p, chosen) && !MarkerAt(v, p) && !HoldsMarker(v, p)
  }

  /** What is neither at nor under a chosen position. */
  function Uncovered(v: Value, chosen: set<Path>): (ps: set<Path>) {
    set p | p in Positions(v) && !(p in chosen || CoveredByAncestor(p, chosen))
  }

  lemma UncoveredMeans(v: Value, chosen: set<Path>, q: Path)
    ensures q in Uncovered(v, chosen) <==> q in Positions(v) && forall r :: r in chosen ==> !(r <= q)
  {
    forall r | r in chosen
      ensures r <= q <==> r == q || r < q
    {
    }
  }

  /** Taking a position keeps the selection well formed, loses no marker, and strictly shrinks what
      is left uncovered. */
  lemma ChooseKeeps(v: Value, chosen: set<Path>, p: Path)
    requires CutOk(v, chosen) && Takes(v, chosen, p)
    ensures CutOk(v, Choose(chosen, p))
    ensures Uncovered(v, Choose(chosen, p)) < Uncovered(v, chosen)
  {
    var c' := Choose(chosen, p);
    forall q | q in chosen && q !in Under(chosen, p)
      ensures !Nested(p, q)
    {
      assert q <= p ==> q == p || q < p;
    }
    forall q | MarkerAt(v, q)
      ensures q in c'
    {
      PositionsAreValid(v, q);
    }
    PositionsAreValid(v, p);
    forall q | q in Uncovered(v, c')
      ensures q in Uncovered(v, chosen)
    {
      UncoveredMeans(v, c', q);
      forall r | r in chosen
        ensures !(r <= q)
      {
        assert p in c' && !(p <= q);
        assert r in c' || p < r;
      }
      UncoveredMeans(v, chosen, q);
    }
    assert p in Uncovered(v, chosen) && p !in Uncovered(v, c');
  }

  /** What is chosen and not a marker holds none: a stored object contains no reference. */
  lemma ObjectsHaveNoMarkers(v: Value, chosen: set<Path>, p: Path)
    requires CutOk(v, chosen) && p in chosen && !At(v, p).Ref?
    ensures MarkerFree(At(v, p))
  {
    forall q | Has(At(v, p), q)
      ensures !At(At(v, p), q).Ref?
    {
      HasConcat(v, p, q);
      assert q != [] ==> p != p + q && Nested(p, p + q);
      assert q == [] ==> p + q == p;
    }
  }

  // ------------------------------------------------------------------------------------------
  // Costs
  // ------------------------------------------------------------------------------------------

  function Decimal(n: nat): (s: string) {
    if n < 10 then ["0123456789"[n]] else Decimal(n / 10) + ["0123456789"[n % 10]]
  }

  function EncodeSeg(s: Seg): (t: string) {
    match s
    case Key(k) => Quote(k)
    case Index(i) => if i < 0 then "-" + Decimal(-i) else Decimal(i)
  }

  function EncodePath(p: Path): (t: string) {
    if p == [] then "" else if |p| == 1 then EncodeSeg(p[0]) else EncodeSeg(p[0]) + "," + EncodePath(p[1..])
  }

  /** What listing one reference adds to the row, comma included. */
  function EntrySize(p: Path): (n: nat) {
    var path := if p == [] then 0 else |",'path':["| + |EncodePath(p)| + 1;
    |"{'ref':'0123456789abcdef0123456789abcdef','size':1048576"| + path + |"}"| + 1
  }

  ghost function SumOf(ps: set<Path>, f: Path -> int): (n: int)
    decreases ps
  {
    if ps == {} then 0 else var p :| p in ps; f(p) + SumOf(ps - {p}, f)
  }

  lemma {:induction false} SumTake(ps: set<Path>, f: Path -> int, p: Path)
    requires p in ps
    ensures SumOf(ps, f) == f(p) + SumOf(ps - {p}, f)
    decreases ps
  {
    var q :| q in ps && SumOf(ps, f) == f(q) + SumOf(ps - {q}, f);
    if q != p {
      SumTake(ps - {q}, f, p);
      SumTake(ps - {p}, f, q);
      assert ps - {q} - {p} == ps - {p} - {q};
    }
  }

  lemma SumAdd(ps: set<Path>, f: Path -> int, p: Path)
    requires p !in ps
    ensures SumOf(ps + {p}, f) == SumOf(ps, f) + f(p)
  {
    SumTake(ps + {p}, f, p);
    assert ps + {p} - {p} == ps;
  }

  lemma {:induction false} SumSplit(a: set<Path>, b: set<Path>, f: Path -> int)
    requires a !! b
    ensures SumOf(a + b, f) == SumOf(a, f) + SumOf(b, f)
    decreases a
  {
    if a == {} {
      assert a + b == b;
    } else {
      var p :| p in a;
      SumTake(a, f, p);
      SumTake(a + b, f, p);
      assert a + b - {p} == a - {p} + b;
      SumSplit(a - {p}, b, f);
    }
  }

  function SizeAt(v: Value): (f: Path -> int) {
    p => if Has(v, p) then Size(At(v, p)) else 0
  }

  function EntryFn(): (f: Path -> int) {
    p => EntrySize(p)
  }

  ghost function ChosenSize(v: Value, chosen: set<Path>): (n: int) {
    SumOf(chosen, SizeAt(v))
  }

  ghost function EntriesSize(chosen: set<Path>): (n: int) {
    SumOf(chosen, EntryFn())
  }

  /** A reference as the row's objects column lists it. */
  function EntryText(p: Path): (t: string) {
    "{'ref':'0123456789abcdef0123456789abcdef','size':1048576" +
    (if p == [] then "" else ",'path':[" + EncodePath(p) + "]") + "}"
  }

  function JoinEntries(ps: seq<Path>): (t: string) {
    if ps == [] then "" else if |ps| == 1 then EntryText(ps[0]) else EntryText(ps[0]) + "," + JoinEntries(ps[1..])
  }

  lemma EntryCost(p: Path)
    ensures EntrySize(p) == |EntryText(p)| + 1
  {
  }

  lemma JoinCost(ps: seq<Path>)
    requires ps != []
    ensures |JoinEntries(ps)| == EntrySize(ps[0]) - 1 + if |ps| == 1 then 0 else 1 + |JoinEntries(ps[1..])|
  {
    EntryCost(ps[0]);
  }

  lemma SumFirst(ps: seq<Path>, all: set<Path>, rest: set<Path>, f: Path -> int)
    requires ps != [] && forall i, j :: 0 <= i < j < |ps| ==> ps[i] != ps[j]
    requires all == (set p | p in ps) && rest == (set p | p in ps[1..])
    ensures SumOf(all, f) == f(ps[0]) + SumOf(rest, f)
  {
    assert ps == [ps[0]] + ps[1..];
    assert ps[0] !in rest;
    assert all - {ps[0]} == rest;
    SumTake(all, f, ps[0]);
  }

  /** The entries add up to the column: one character less than the whole list takes, brackets and all. */
  lemma {:induction false} EntriesCost(ps: seq<Path>, text: string)
    requires ps != [] && forall i, j :: 0 <= i < j < |ps| ==> ps[i] != ps[j]
    requires text == "[" + JoinEntries(ps) + "]"
    ensures |text| == EntriesSize(set p | p in ps) + 1
  {
    JoinCost(ps);
    SumFirst(ps, (set p | p in ps), (set p | p in ps[1..]), EntryFn());
    if |ps| > 1 {
      EntriesCost(ps[1..], "[" + JoinEntries(ps[1..]) + "]");
    } else {
      assert (set p | p in ps[1..]) == {};
    }
  }

  // ------------------------------------------------------------------------------------------
  // What is already external
  // ------------------------------------------------------------------------------------------

  function Markers(v: Value): (ps: set<Path>) {
    set p | p in Positions(v) && MarkerAt(v, p)
  }

  lemma MarkersOk(v: Value)
    ensures CutOk(v, Markers(v))
    ensures ChosenSize(v, Markers(v)) == 0
  {
    forall p
      ensures MarkerAt(v, p) ==> p in Markers(v)
    {
      PositionsAreValid(v, p);
    }
    forall p, q | p in Markers(v) && q in Markers(v) && p != q
      ensures !Nested(p, q)
    {
      NothingUnderMarker(v, p, q);
      NothingUnderMarker(v, q, p);
      assert p <= q ==> p < q;
      assert q <= p ==> q < p;
    }
    MarkersWeighNothing(v, Markers(v));
  }

  lemma NothingUnderMarker(v: Value, p: Path, q: Path)
    requires Has(v, p) && Has(v, q)
    ensures p < q ==> !At(v, p).Ref?
  {
    if p < q {
      assert q == p + q[|p|..];
      AtPrefix(v, p, q[|p|..]);
    }
  }

  lemma {:induction false} MarkersWeighNothing(v: Value, ps: set<Path>)
    requires forall p :: p in ps ==> MarkerAt(v, p)
    ensures ChosenSize(v, ps) == 0
    decreases ps
  {
    if ps != {} {
      var p :| p in ps;
      SumTake(ps, SizeAt(v), p);
      MarkersWeighNothing(v, ps - {p});
    }
  }
}
