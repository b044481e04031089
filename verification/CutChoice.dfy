/**
 Which positions the search for a cut chooses, as a function of the value and the target alone: two
 rows that hold the same value choose the same cut, and so share their objects.
 */
module CutChoice {

  import opened Values
  import opened Encoding
  import opened Cuts
  import opened CutModel
  import opened CutFits

  // ------------------------------------------------------------------------------------------
  // The order that breaks ties
  // ------------------------------------------------------------------------------------------

  predicate SegLess(a: Seg, b: Seg) {
    match (a, b)
    case (Key(x), Key(y)) => StrLess(x, y)
    case (Index(x), Index(y)) => x < y
    case _ => a.Key?
  }

  /** Segment by segment, keys before indices, and a prefix before what it is a prefix of. */
  predicate PathLess(a: Path, b: Path) {
    b != [] && (a == [] || (if a[0] == b[0] then PathLess(a[1..], b[1..]) else SegLess(a[0], b[0])))
  }

  lemma SegTotal(a: Seg, b: Seg)
    ensures SegLess(a, b) || a == b || SegLess(b, a)
    ensures !(SegLess(a, b) && SegLess(b, a)) && !SegLess(a, a)
  {
    if a.Key? && b.Key? {
      StrTotal(a.key, b.key);
    }
    if a.Key? {
      StrTotal(a.key, a.key);
    }
  }

  lemma {:induction false} PathTotal(a: Path, b: Path)
    ensures PathLess(a, b) || a == b || PathLess(b, a)
    ensures !(PathLess(a, b) && PathLess(b, a))
    decreases |a|
  {
    if a != [] && b != [] {
      SegTotal(a[0], b[0]);
      if a[0] == b[0] {
        PathTotal(a[1..], b[1..]);
        assert a == [a[0]] + a[1..] && b == [b[0]] + b[1..];
      }
    }
  }

  lemma SegTrans(a: Seg, b: Seg, c: Seg)
    requires SegLess(a, b) && SegLess(b, c)
    ensures SegLess(a, c)
  {
    if a.Key? && b.Key? && c.Key? {
      StrTrans(a.key, b.key, c.key);
    }
  }

  lemma {:induction false} PathTrans(a: Path, b: Path, c: Path)
    requires PathLess(a, b) && PathLess(b, c)
    ensures PathLess(a, c)
    decreases |a|
  {
    if a != [] {
      if a[0] == b[0] && b[0] == c[0] {
        PathTrans(a[1..], b[1..], c[1..]);
      } else {
        if a[0] != b[0] && b[0] != c[0] {
          SegTrans(a[0], b[0], c[0]);
        }
        SegTotal(a[0], c[0]);
      }
    }
  }

  /** Before in the order by key, highest first, ties by path. */
  predicate Before(key: Path -> int, p: Path, q: Path) {
    key(p) > key(q) || (key(p) == key(q) && PathLess(p, q))
  }

  ghost predicate IsFirst(key: Path -> int, ps: set<Path>, p: Path) {
    p in ps && forall q :: q in ps && q != p ==> Before(key, p, q)
  }

  lemma BeforeTotal(key: Path -> int, p: Path, q: Path)
    ensures Before(key, p, q) || p == q || Before(key, q, p)
    ensures !(Before(key, p, q) && Before(key, q, p))
  {
    PathTotal(p, q);
  }

  lemma BeforeTrans(key: Path -> int, p: Path, q: Path, r: Path)
    requires Before(key, p, q) && Before(key, q, r)
    ensures Before(key, p, r)
  {
    if key(p) == key(q) == key(r) {
      PathTrans(p, q, r);
    }
  }

  lemma {:induction false} FirstExists(key: Path -> int, ps: set<Path>) returns (p: Path)
    requires ps != {}
    ensures IsFirst(key, ps, p)
    decreases ps
  {
    p :| p in ps;
    if ps != {p} {
      var m := FirstExists(key, ps - {p});
      BeforeTotal(key, p, m);
      if Before(key, p, m) {
        forall q | q in ps && q != p && q != m
          ensures Before(key, p, q)
        {
          BeforeTrans(key, p, m, q);
        }
      } else {
        p := m;
      }
    }
  }

  lemma FirstUnique(key: Path -> int, ps: set<Path>, p: Path, q: Path)
    requires IsFirst(key, ps, p) && IsFirst(key, ps, q)
    ensures p == q
  {
    BeforeTotal(key, p, q);
  }

  ghost function FirstOf(key: Path -> int, ps: set<Path>): (p: Path)
    requires ps != {}
    ensures IsFirst(key, ps, p)
  {
    assert exists p :: IsFirst(key, ps, p) by {
      var p := FirstExists(key, ps);
    }
    var p :| IsFirst(key, ps, p);
    p
  }

  // ------------------------------------------------------------------------------------------
  // One level
  // ------------------------------------------------------------------------------------------

  /** A selection, with the estimate of what it leaves inline and what its entries cost. */
  datatype Sel = Sel(chosen: set<Path>, data: int, objects: int)

  predicate Over(s: Sel, target: int) {
    s.data + s.objects > target
  }

  /** What is still inline of a position while `chosen` is out. */
  ghost function RankOf(v: Value, chosen: set<Path>): (rank: Path -> int) {
    p => if Has(v, p) then Size(At(v, p)) - ChosenSize(v, Under(chosen, p)) + EntriesSize(Under(chosen, p)) else 0
  }

  /** Not to be had, whatever it would save: chosen, under a chosen one, or tied to a marker. */
  predicate Barred(v: Value, chosen: set<Path>, p: Path) {
    MarkerAt(v, p) || p in chosen || CoveredByAncestor(p, chosen) || HoldsMarker(v, p)
  }

  /** Containing chosen parts already, it would not save enough over them to pay for its own entry. */
  ghost predicate Unpaid(v: Value, chosen: set<Path>, p: Path) {
    Under(chosen, p) != {} && RankOf(v, chosen)(p) - EntrySize(p) < MIN_EXTERNALIZE_BYTES
  }

  /** Taking p: what it contains is dropped, and the estimate moves exactly with the selection. */
  ghost function Taken(v: Value, s: Sel, p: Path): (s': Sel) {
    var chosen := Choose(s.chosen, p);
    Sel(chosen, s.data + ChosenSize(v, s.chosen) - ChosenSize(v, chosen),
        s.objects - EntriesSize(s.chosen) + EntriesSize(chosen))
  }

  /** One level, ranked against the selection `start` it began with: the candidates `todo` in order,
      until the estimate fits or the rest are too small. */
  ghost function Level(v: Value, start: set<Path>, todo: set<Path>, s: Sel, target: int): (s': Sel)
    decreases todo
  {
    if todo == {} || !Over(s, target) then s
    else
      var p := FirstOf(RankOf(v, start), todo);
      if Barred(v, s.chosen, p) then Level(v, start, todo - {p}, s, target)
      else if RankOf(v, start)(p) < MIN_EXTERNALIZE_BYTES then s
      else if Unpaid(v, start, p) then Level(v, start, todo - {p}, s, target)
      else Level(v, start, todo - {p}, Taken(v, s, p), target)
  }

  function AtDepth(v: Value, depth: int): (ps: set<Path>) {
    set p | p in Positions(v) && |p| == depth
  }

  /** The levels from `depth` up, each tried out before the next coarser one. */
  ghost function Levels(v: Value, depth: int, s: Sel, target: int): (s': Sel)
    decreases depth + 1
  {
    if depth < 0 || !Over(s, target) then s
    else Levels(v, depth - 1, Level(v, s.chosen, AtDepth(v, depth), s, target), target)
  }

  // ------------------------------------------------------------------------------------------
  // What a level does
  // ------------------------------------------------------------------------------------------

  /** Between two points of the search: the selection stays well formed, what is counted inline and what
      the entries cost move exactly with it, and it either is the same or covers more. */
  ghost predicate Moved(v: Value, s: Sel, s': Sel) {
    && CutOk(v, s'.chosen)
    && s'.data + ChosenSize(v, s'.chosen) == s.data + ChosenSize(v, s.chosen)
    && s'.objects - EntriesSize(s'.chosen) == s.objects - EntriesSize(s.chosen)
    && (if s'.chosen == s.chosen then s' == s else Uncovered(v, s'.chosen) < Uncovered(v, s.chosen))
  }

  lemma MovedTrans(v: Value, s: Sel, s1: Sel, s2: Sel)
    requires Moved(v, s, s1) && Moved(v, s1, s2)
    ensures Moved(v, s, s2)
  {
  }

  lemma TakenMoves(v: Value, s: Sel, p: Path)
    requires CutOk(v, s.chosen) && Takes(v, s.chosen, p)
    ensures Moved(v, s, Taken(v, s, p))
  {
    ChooseKeeps(v, s.chosen, p);
  }

  lemma UnderDropped(v: Value, chosen: set<Path>, p: Path, f: Path -> int)
    requires p !in chosen
    ensures SumOf(Choose(chosen, p), f) == SumOf(chosen, f) - SumOf(Under(chosen, p), f) + f(p)
  {
    var rest := chosen - Under(chosen, p);
    SumSplit(rest, Under(chosen, p), f);
    assert rest + Under(chosen, p) == chosen;
    SumAdd(rest, f, p);
  }

  /** What the rank of a candidate means: taking it makes the row smaller by exactly its rank, less the
      entry it then costs. */
  lemma RankIsGain(v: Value, s: Sel, p: Path)
    requires CutOk(v, s.chosen) && Takes(v, s.chosen, p)
    ensures var s' := Taken(v, s, p);
      s'.data + s'.objects == s.data + s.objects - RankOf(v, s.chosen)(p) + EntrySize(p)
  {
    UnderDropped(v, s.chosen, p, SizeAt(v));
    UnderDropped(v, s.chosen, p, EntryFn());
  }

  lemma {:induction false} LevelMoves(v: Value, start: set<Path>, todo: set<Path>, s: Sel, target: int)
    requires CutOk(v, s.chosen) && forall p :: p in todo ==> Has(v, p)
    ensures Moved(v, s, Level(v, start, todo, s, target))
    decreases todo
  {
    if todo != {} && Over(s, target) {
      var p := FirstOf(RankOf(v, start), todo);
      if Barred(v, s.chosen, p) || Unpaid(v, start, p) {
        LevelMoves(v, start, todo - {p}, s, target);
      } else if RankOf(v, start)(p) >= MIN_EXTERNALIZE_BYTES {
        var s1 := Taken(v, s, p);
        TakenMoves(v, s, p);
        LevelMoves(v, start, todo - {p}, s1, target);
        MovedTrans(v, s, s1, Level(v, start, todo - {p}, s1, target));
      }
    }
  }

  /** All candidates of a level are at one depth. */
  ghost predicate LevelAt(v: Value, todo: set<Path>, depth: nat) {
    forall p :: p in todo ==> Has(v, p) && |p| == depth
  }

  lemma TakenKeeps(v: Value, s: Sel, q: Path, p: Path)
    requires p in s.chosen && |p| <= |q|
    ensures p in Taken(v, s, q).chosen
  {
  }

  /** One turn of a level. */
  lemma LevelOnce(v: Value, start: set<Path>, todo: set<Path>, s: Sel, target: int, s': Sel)
    returns (q: Path, next: Sel)
    requires todo != {} && s' == Level(v, start, todo, s, target)
    ensures q in todo && (next == s || next == Taken(v, s, q))
    ensures s' == s || s' == Level(v, start, todo - {q}, next, target)
  {
    q, next := FirstOf(RankOf(v, start), todo), s;
    if !Barred(v, s.chosen, q) && RankOf(v, start)(q) >= MIN_EXTERNALIZE_BYTES && !Unpaid(v, start, q) {
      next := Taken(v, s, q);
    }
  }

  /** A level touches nothing above it or beside it. */
  lemma {:induction false} LevelKeeps(v: Value, start: set<Path>, todo: set<Path>, s: Sel, target: int, depth: nat,
                                      p: Path, s': Sel)
    requires LevelAt(v, todo, depth) && p in s.chosen && |p| <= depth && s' == Level(v, start, todo, s, target)
    ensures p in s'.chosen
    decreases todo
  {
    if todo != {} {
      var q, next := LevelOnce(v, start, todo, s, target, s');
      if s' != s {
        TakenKeeps(v, s, q, p);
        LevelKeeps(v, start, todo - {q}, next, target, depth, p, s');
      }
    }
  }

  /** Nothing is taken that is too small, or that would not pay for its entry, as ranked when the level
      began. */
  lemma {:induction false} LevelTakes(v: Value, start: set<Path>, todo: set<Path>, s: Sel, target: int, p: Path)
    requires p in Level(v, start, todo, s, target).chosen && p !in s.chosen
    ensures p in todo && RankOf(v, start)(p) >= MIN_EXTERNALIZE_BYTES && !Unpaid(v, start, p) && !Barred(v, {}, p)
    decreases todo
  {
    var q := FirstOf(RankOf(v, start), todo);
    if Barred(v, s.chosen, q) || Unpaid(v, start, q) {
      LevelTakes(v, start, todo - {q}, s, target, p);
    } else if p != q {
      LevelTakes(v, start, todo - {q}, Taken(v, s, q), target, p);
    }
  }

  /** Why a position of a level is left alone. */
  ghost predicate Spared(v: Value, start: set<Path>, chosen: set<Path>, p: Path) {
    || MarkerAt(v, p) || HoldsMarker(v, p) || CoveredByAncestor(p, chosen)
    || RankOf(v, start)(p) < MIN_EXTERNALIZE_BYTES || Unpaid(v, start, p)
  }

  lemma CoveredStays(v: Value, s: Sel, q: Path, p: Path)
    requires |p| == |q|
    ensures CoveredByAncestor(p, Taken(v, s, q).chosen) <==> CoveredByAncestor(p, s.chosen)
  {
    if CoveredByAncestor(p, s.chosen) {
      var r :| r in s.chosen && r < p;
      assert r in Taken(v, s, q).chosen;
    }
  }

  /** What a turn of the level does with the first candidate: stops, passes it over, or takes it for good. */
  ghost predicate Turned(v: Value, start: set<Path>, todo: set<Path>, s: Sel, s': Sel, q: Path, next: Sel) {
    && IsFirst(RankOf(v, start), todo, q)
    && if next == s
       then Barred(v, s.chosen, q) || Unpaid(v, start, q) || (RankOf(v, start)(q) < MIN_EXTERNALIZE_BYTES && s' == s)
       else next == Taken(v, s, q) && q in s'.chosen
  }

  lemma LevelTurn(v: Value, start: set<Path>, todo: set<Path>, s: Sel, target: int, depth: nat, s': Sel)
    returns (q: Path, next: Sel)
    requires LevelAt(v, todo, depth) && todo != {} && Over(s, target) && s' == Level(v, start, todo, s, target)
    ensures Turned(v, start, todo, s, s', q, next)
    ensures s' == Level(v, start, todo - {q}, next, target) || (s' == s && RankOf(v, start)(q) < MIN_EXTERNALIZE_BYTES)
  {
    q, next := FirstOf(RankOf(v, start), todo), s;
    if !Barred(v, s.chosen, q) && RankOf(v, start)(q) >= MIN_EXTERNALIZE_BYTES && !Unpaid(v, start, q) {
      next := Taken(v, s, q);
      LevelKeeps(v, start, todo - {q}, next, target, depth, q, s');
    }
  }

  /** A level is given up over target only once every candidate is taken or has its reason not to be. */
  lemma {:induction false} LevelExhausts(v: Value, start: set<Path>, todo: set<Path>, s: Sel, target: int, depth: nat,
                                         p: Path, s': Sel)
    requires LevelAt(v, todo, depth) && p in todo && s' == Level(v, start, todo, s, target) && Over(s', target)
    ensures p in s'.chosen || Spared(v, start, s.chosen, p)
    decreases todo
  {
    var q, next := LevelTurn(v, start, todo, s, target, depth, s');
    if RankOf(v, start)(q) < MIN_EXTERNALIZE_BYTES {
      assert p != q ==> Before(RankOf(v, start), q, p);
    } else if p != q {
      LevelExhausts(v, start, todo - {q}, next, target, depth, p, s');
      CoveredStays(v, s, q, p);
    } else if p in s.chosen {
      LevelKeeps(v, start, todo, s, target, depth, p, s');
    }
  }

  /** What could have been taken is not passed over, and is left for the rest of the level. */
  lemma OrderNext(v: Value, start: set<Path>, todo: set<Path>, s: Sel, depth: nat, p: Path, q: Path, s': Sel, f: Path,
                  next: Sel)
    requires LevelAt(v, todo, depth) && q in todo && Turned(v, start, todo, s, s', f, next) && s' != s
    requires p !in s.chosen && q !in s.chosen && q !in s'.chosen && !Spared(v, start, s.chosen, q)
    requires p != f || next == s
    ensures q != f && p !in next.chosen && q !in next.chosen && !Spared(v, start, next.chosen, q)
  {
    if next != s {
      assert |q| == |f| && q != f;
      StillFree(v, start, s, f, q);
      StillOut(v, s, f, p);
      StillOut(v, s, f, q);
    }
  }

  lemma StillFree(v: Value, start: set<Path>, s: Sel, f: Path, q: Path)
    requires |q| == |f| && !Spared(v, start, s.chosen, q)
    ensures !Spared(v, start, Taken(v, s, f).chosen, q)
  {
    CoveredStays(v, s, f, q);
  }

  lemma StillOut(v: Value, s: Sel, f: Path, p: Path)
    requires p != f && p !in s.chosen
    ensures p !in Taken(v, s, f).chosen
  {
  }

  /** The largest go first: whatever a level takes comes before whatever it could have taken instead. */
  lemma {:induction false} LevelOrder(v: Value, start: set<Path>, todo: set<Path>, s: Sel, target: int, depth: nat,
                                      p: Path, q: Path, s': Sel)
    requires LevelAt(v, todo, depth) && q in todo && s' == Level(v, start, todo, s, target)
    requires p !in s.chosen && p in s'.chosen && q !in s.chosen && q !in s'.chosen && !Spared(v, start, s.chosen, q)
    ensures Before(RankOf(v, start), p, q)
    decreases todo
  {
    var f, next := LevelTurn(v, start, todo, s, target, depth, s');
    if p != f || next == s {
      OrderNext(v, start, todo, s, depth, p, q, s', f, next);
      LevelOrder(v, start, todo - {f}, next, target, depth, p, q, s');
    }
  }

  /** ...and no more go than it takes: before the last of them the estimate was still over target. */
  lemma {:induction false} LevelStops(v: Value, start: set<Path>, todo: set<Path>, s: Sel, target: int)
    returns (s1: Sel, last: Path)
    requires Level(v, start, todo, s, target) != s
    ensures Over(s1, target) && last in todo && Level(v, start, todo, s, target) == Taken(v, s1, last)
    decreases todo
  {
    var p := FirstOf(RankOf(v, start), todo);
    if Barred(v, s.chosen, p) || Unpaid(v, start, p) {
      s1, last := LevelStops(v, start, todo - {p}, s, target);
    } else if Level(v, start, todo - {p}, Taken(v, s, p), target) == Taken(v, s, p) {
      s1, last := s, p;
    } else {
      s1, last := LevelStops(v, start, todo - {p}, Taken(v, s, p), target);
    }
  }

  // ------------------------------------------------------------------------------------------
  // All levels
  // ------------------------------------------------------------------------------------------

  lemma DepthIsLevel(v: Value, depth: nat)
    ensures LevelAt(v, AtDepth(v, depth), depth)
  {
    forall p | p in AtDepth(v, depth)
      ensures Has(v, p)
    {
      PositionsAreValid(v, p);
    }
  }

  lemma {:induction false} LevelsMove(v: Value, depth: int, s: Sel, target: int)
    requires CutOk(v, s.chosen)
    ensures Moved(v, s, Levels(v, depth, s, target))
    decreases depth + 1
  {
    if depth >= 0 && Over(s, target) {
      DepthIsLevel(v, depth);
      var s1 := Level(v, s.chosen, AtDepth(v, depth), s, target);
      LevelMoves(v, s.chosen, AtDepth(v, depth), s, target);
      LevelsMove(v, depth - 1, s1, target);
      MovedTrans(v, s, s1, Levels(v, depth - 1, s1, target));
    }
  }

  /** Deepest first: against the selection its level found, in which all but what was there before is
      deeper, everything the levels take ranks at the minimum or above and pays for its entry. */
  lemma {:induction false} LevelsTake(v: Value, depth: int, s: Sel, target: int, p: Path) returns (start: set<Path>)
    requires CutOk(v, s.chosen) && p in Levels(v, depth, s, target).chosen && p !in s.chosen
    ensures |p| <= depth && RankOf(v, start)(p) >= MIN_EXTERNALIZE_BYTES && !Unpaid(v, start, p)
    ensures CutOk(v, start) && forall q :: q in start ==> q in s.chosen || |q| > |p|
    decreases depth + 1
  {
    DepthIsLevel(v, depth);
    var s1 := Level(v, s.chosen, AtDepth(v, depth), s, target);
    LevelMoves(v, s.chosen, AtDepth(v, depth), s, target);
    if p in s1.chosen {
      LevelTakes(v, s.chosen, AtDepth(v, depth), s, target, p);
      start := s.chosen;
    } else {
      start := LevelsTake(v, depth - 1, s1, target, p);
      forall q | q in start
        ensures q in s.chosen || |q| > |p|
      {
        if q in s1.chosen && q !in s.chosen {
          LevelTakes(v, s.chosen, AtDepth(v, depth), s, target, q);
        }
      }
    }
  }

  /** What is chosen stays chosen, or is under something that is. */
  lemma {:induction false} StillCovered(v: Value, s: Sel, s': Sel, p: Path)
    requires Moved(v, s, s') && Has(v, p) && (p in s.chosen || CoveredByAncestor(p, s.chosen))
    ensures p in s'.chosen || CoveredByAncestor(p, s'.chosen)
  {
    PositionsAreValid(v, p);
    assert p in Positions(v) && p !in Uncovered(v, s.chosen);
    assert p !in Uncovered(v, s'.chosen);
  }

  /** A search that ends over target has gone through every level. */
  lemma {:induction false} ReachesLevel(v: Value, depth: int, s0: Sel, s: Sel, target: int, bottom: nat, s': Sel)
    returns (s1: Sel)
    requires Moved(v, s0, s) && bottom <= depth && s' == Levels(v, depth, s, target) && Over(s', target)
    ensures Moved(v, s0, s1) && s' == Levels(v, bottom, s1, target)
    decreases depth
  {
    s1 := s;
    if bottom < depth {
      var next := NextCoarser(v, depth, s0, s, target, s');
      s1 := ReachesLevel(v, depth - 1, s0, next, target, bottom, s');
    }
  }

  /** The search ends over target only with every position chosen, covered, or spared for its reason. */
  lemma LevelsExhaust(v: Value, depth: int, s: Sel, target: int, p: Path, s': Sel) returns (s1: Sel)
    requires CutOk(v, s.chosen) && Has(v, p) && |p| <= depth && s' == Levels(v, depth, s, target) && Over(s', target)
    ensures Moved(v, s, s1) && Moved(v, s1, s')
    ensures p in s'.chosen || Spared(v, s1.chosen, s'.chosen, p)
  {
    s1 := ReachesLevel(v, depth, s, s, target, |p|, s');
    AtOwnLevel(v, |p|, s1, target, p, s');
  }

  lemma AtOwnLevel(v: Value, depth: nat, s: Sel, target: int, p: Path, s': Sel)
    requires CutOk(v, s.chosen) && Has(v, p) && |p| == depth && s' == Levels(v, depth, s, target) && Over(s', target)
    ensures Moved(v, s, s')
    ensures p in s'.chosen || Spared(v, s.chosen, s'.chosen, p)
  {
    var next := NextLevel(v, depth, s, target, s');
    MovedTrans(v, s, next, s');
    DepthIsLevel(v, depth);
    OwnLevel(v, depth, s, next, s', target, p);
  }

  lemma NextCoarser(v: Value, depth: nat, s0: Sel, s: Sel, target: int, s': Sel) returns (next: Sel)
    requires Moved(v, s0, s) && s' == Levels(v, depth, s, target) && Over(s', target)
    ensures Moved(v, s0, next) && s' == Levels(v, depth - 1, next, target)
  {
    next := NextLevel(v, depth, s, target, s');
    MovedTrans(v, s0, s, next);
  }

  lemma NextLevel(v: Value, depth: nat, s: Sel, target: int, s': Sel) returns (next: Sel)
    requires CutOk(v, s.chosen) && s' == Levels(v, depth, s, target) && Over(s', target)
    ensures next == Level(v, s.chosen, AtDepth(v, depth), s, target) && Over(next, target)
    ensures s' == Levels(v, depth - 1, next, target) && Moved(v, s, next) && Moved(v, next, s')
  {
    OverBefore(v, depth, s, target);
    next := Level(v, s.chosen, AtDepth(v, depth), s, target);
    OverBefore(v, depth - 1, next, target);
    DepthIsLevel(v, depth);
    LevelMoves(v, s.chosen, AtDepth(v, depth), s, target);
    LevelsMove(v, depth - 1, next, target);
  }

  lemma OwnLevel(v: Value, depth: nat, s: Sel, next: Sel, s': Sel, target: int, p: Path)
    requires CutOk(v, s.chosen) && Has(v, p) && |p| == depth && LevelAt(v, AtDepth(v, depth), depth)
    requires next == Level(v, s.chosen, AtDepth(v, depth), s, target) && Over(next, target)
    requires Moved(v, s, s') && Moved(v, next, s')
    ensures p in s'.chosen || Spared(v, s.chosen, s'.chosen, p)
  {
    PositionsAreValid(v, p);
    LevelExhausts(v, s.chosen, AtDepth(v, depth), s, target, depth, p, next);
    if p in next.chosen {
      StillCovered(v, next, s', p);
    } else if CoveredByAncestor(p, s.chosen) {
      StillCovered(v, s, s', p);
    }
  }

  lemma OverBefore(v: Value, depth: int, s: Sel, target: int)
    requires Over(Levels(v, depth, s, target), target)
    ensures Over(s, target)
  {
  }

  // ------------------------------------------------------------------------------------------
  // Rounds
  // ------------------------------------------------------------------------------------------

  ghost predicate IsDepth(v: Value, depth: nat) {
    && (forall p :: p in Positions(v) ==> |p| <= depth)
    && exists p :: p in Positions(v) && |p| == depth
  }

  lemma {:induction false} DeepestOf(ps: set<Path>) returns (p: Path)
    requires ps != {}
    ensures p in ps && forall q :: q in ps ==> |q| <= |p|
    decreases ps
  {
    p :| p in ps;
    if ps != {p} {
      var m := DeepestOf(ps - {p});
      if |m| > |p| {
        p := m;
      }
    }
  }

  ghost function Depth(v: Value): (depth: nat)
    ensures IsDepth(v, depth)
  {
    assert exists depth: nat :: IsDepth(v, depth) by {
      PositionsAreValid(v, []);
      var p := DeepestOf(Positions(v));
      assert IsDepth(v, |p|);
    }
    var depth: nat :| IsDepth(v, depth);
    depth
  }

  function DepthKey(): (key: Path -> int) {
    p => |p|
  }

  /** The chosen positions deepest first, ties by path. */
  ghost function CutOrder(ps: set<Path>): (cuts: seq<Cut>)
    decreases ps
  {
    if ps == {} then [] else var p := FirstOf(DepthKey(), ps); [Cut(p, false)] + CutOrder(ps - {p})
  }

  /** What is left inline of the value. */
  ghost function Stripped(v: Value, chosen: set<Path>): (w: Value) {
    if [] in chosen then Null else DropAll(v, CutOrder(chosen))
  }

  /** What a selection costs the row, measured on the spliced value. */
  ghost function Measured(v: Value, chosen: set<Path>): (n: int) {
    |Encode(Stripped(v, chosen))| + EntriesSize(chosen)
  }

  /** Before the first round: the whole value inline, and an entry for each marker. */
  ghost function Start(v: Value): (s: Sel) {
    Sel(Markers(v), Size(v), EntriesSize(Markers(v)))
  }

  /** Before a later one: the estimate is put right by what was measured. */
  ghost function Reseeded(v: Value, s: Sel): (s': Sel) {
    Sel(s.chosen, Measured(v, s.chosen) - s.objects, s.objects)
  }

  ghost function Round(v: Value, s: Sel, target: int): (s': Sel)
    requires CutOk(v, s.chosen)
    ensures Moved(v, s, s')
  {
    LevelsMove(v, Depth(v), s, target);
    Levels(v, Depth(v), s, target)
  }

  /** The rounds from a selection `s` that grew out of `before`. */
  ghost function Rounds(v: Value, before: set<Path>, s: Sel, target: int): (chosen: set<Path>)
    requires CutOk(v, s.chosen) && (s.chosen == before || Uncovered(v, s.chosen) < Uncovered(v, before))
    decreases Uncovered(v, before)
  {
    if s.chosen == {} || Measured(v, s.chosen) <= target || |s.chosen| == |before| then s.chosen
    else Rounds(v, s.chosen, Round(v, Reseeded(v, s), target), target)
  }

  /** The cut of a value under a target. */
  ghost function Chosen(v: Value, target: int): (chosen: set<Path>) {
    MarkersOk(v);
    Rounds(v, Markers(v), Round(v, Start(v), target), target)
  }

  // ------------------------------------------------------------------------------------------
  // What is cut
  // ------------------------------------------------------------------------------------------

  lemma NothingUncovered(v: Value, s: Sel, s': Sel)
    requires Moved(v, s, s') && s.chosen != {}
    ensures s'.chosen != {}
  {
    assert Uncovered(v, s.chosen) <= Uncovered(v, {});
  }

  /** A value without markers over a target the minimum fits in has something to cut: the whole of it, if
      nothing finer will do. */
  lemma FirstRoundCuts(v: Value, target: int)
    requires MarkerFree(v) && MIN_EXTERNALIZE_BYTES <= target < Size(v)
    ensures Markers(v) == {} && CutOk(v, {}) && Round(v, Sel({}, Size(v), 0), target).chosen != {}
  {
    MarkersOk(v);
    assert Markers(v) == {};
    var s := Sel({}, Size(v), 0);
    var s' := Round(v, s, target);
    if s'.chosen == {} {
      var s1 := LevelsExhaust(v, Depth(v), s, target, [], s');
      WholeRanks(v, s1, s');
    }
  }

  lemma WholeRanks(v: Value, s1: Sel, s': Sel)
    requires MarkerFree(v) && Moved(v, s1, s') && s'.chosen == {} && Size(v) >= MIN_EXTERNALIZE_BYTES
    ensures !Spared(v, s1.chosen, s'.chosen, [])
  {
    if s1.chosen != {} {
      NothingUncovered(v, s1, s');
    }
    assert Under({}, []) == {};
  }

  lemma {:induction false} RoundsKeepCut(v: Value, before: set<Path>, s: Sel, target: int)
    requires CutOk(v, s.chosen) && (s.chosen == before || Uncovered(v, s.chosen) < Uncovered(v, before))
    ensures Rounds(v, before, s, target) == {} <==> s.chosen == {}
    ensures CutOk(v, Rounds(v, before, s, target))
    decreases Uncovered(v, before)
  {
    if !(s.chosen == {} || Measured(v, s.chosen) <= target || |s.chosen| == |before|) {
      var s1 := Round(v, Reseeded(v, s), target);
      NothingUncovered(v, Reseeded(v, s), s1);
      RoundsKeepCut(v, s.chosen, s1, target);
    }
  }

  /** A value that holds no marker is cut exactly when it does not fit. */
  lemma CutExactlyWhenOver(v: Value, target: int)
    requires MarkerFree(v) && MIN_EXTERNALIZE_BYTES <= target
    ensures Chosen(v, target) == {} <==> Size(v) <= target
  {
    MarkersOk(v);
    assert Markers(v) == {};
    RoundsKeepCut(v, Markers(v), Round(v, Start(v), target), target);
    if target < Size(v) {
      FirstRoundCuts(v, target);
      assert Start(v) == Sel({}, Size(v), 0);
    }
  }

  /** The round `c` came out of, from the selection `before`. */
  ghost predicate LastRound(v: Value, target: int, before: set<Path>, s: Sel, c: set<Path>) {
    && CutOk(v, s.chosen) && s.chosen == before && c == Round(v, s, target).chosen
    && (s == Start(v) || (s.objects == EntriesSize(before) && s == Reseeded(v, s)))
  }

  /** Each round starts from the last, with its estimate put right. */
  lemma RoundAfter(v: Value, prior: Sel, s: Sel, target: int)
    requires CutOk(v, prior.chosen) && s == Round(v, prior, target) && prior.objects == EntriesSize(prior.chosen)
    ensures CutOk(v, s.chosen) && s.objects == EntriesSize(s.chosen)
    ensures LastRound(v, target, s.chosen, Reseeded(v, s), Round(v, Reseeded(v, s), target).chosen)
  {
  }

  /** The rounds end with nothing chosen, with a row that fits, or with a round that chose as many
      positions as it found. */
  lemma {:induction false} RoundsEnd(v: Value, prior: Sel, s: Sel, target: int, c: set<Path>)
    returns (b: set<Path>, last: Sel)
    requires CutOk(v, prior.chosen) && s == Round(v, prior, target) && prior.objects == EntriesSize(prior.chosen)
    requires LastRound(v, target, prior.chosen, prior, s.chosen) && c == Rounds(v, prior.chosen, s, target)
    ensures LastRound(v, target, b, last, c) && (c == {} || Measured(v, c) <= target || |c| == |b|)
    decreases Uncovered(v, prior.chosen)
  {
    b, last := prior.chosen, prior;
    if !(s.chosen == {} || Measured(v, s.chosen) <= target || |s.chosen| == |prior.chosen|) {
      RoundAfter(v, prior, s, target);
      b, last := RoundsEnd(v, Reseeded(v, s), Round(v, Reseeded(v, s), target), target, c);
    }
  }

  lemma SearchEnds(v: Value, target: int) returns (b: set<Path>, last: Sel)
    ensures var c := Chosen(v, target);
      && LastRound(v, target, b, last, c)
      && (c == {} || Measured(v, c) <= target || |c| == |b|)
  {
    MarkersOk(v);
    b, last := RoundsEnd(v, Start(v), Round(v, Start(v), target), target, Chosen(v, target));
  }

  /** A position no round takes below the minimum: against the selection its level found, what is new in
      the cut of the last round ranks at the minimum or above. */
  lemma NothingSmall(v: Value, target: int, before: set<Path>, s: Sel, c: set<Path>, p: Path)
    returns (start: set<Path>)
    requires LastRound(v, target, before, s, c) && p in c && p !in before
    ensures RankOf(v, start)(p) >= MIN_EXTERNALIZE_BYTES && !Unpaid(v, start, p)
    ensures CutOk(v, start) && forall q :: q in start ==> q in before || |q| > |p|
  {
    start := LevelsTake(v, Depth(v), s, target, p);
  }

  /** A round that changed nothing and left the row over target had nothing left to take. */
  lemma NothingLeft(v: Value, target: int, before: set<Path>, s: Sel, p: Path)
    requires LastRound(v, target, before, s, before) && Over(s, target) && Has(v, p)
    ensures p in before || Spared(v, before, before, p)
  {
    PositionsAreValid(v, p);
    var s' := Round(v, s, target);
    assert s' == s;
    var s1 := LevelsExhaust(v, Depth(v), s, target, p, s');
    NothingBetween(v, s, s1);
  }

  lemma NothingBetween(v: Value, s: Sel, s1: Sel)
    requires Moved(v, s, s1) && Moved(v, s1, s)
    ensures s1 == s
  {
  }
}
