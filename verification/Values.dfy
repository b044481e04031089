/**
 Values as the context holds them, positions inside them, and the two operations a cut and its
 undoing are made of: removing the value at a path and placing one there.
 */
module Values {

  datatype Seg = Key(key: string) | Index(index: int)

  type Path = seq<Seg>

  /** A scalar is kept as its encoded text; keys as they read between quotes.  A reference to
      externalized content carries that content: addresses are injective. */
  datatype Value =
    | Null
    | Scalar(text: string)
    | Arr(items: seq<Value>)
    | Obj(fields: map<string, Value>)
    | Ref(content: Value)

  /** One step down, if there is a value there. */
  predicate HasStep(v: Value, s: Seg) {
    match v
    case Obj(m) => s.Key? && s.key in m
    case Arr(a) => s.Index? && 0 <= s.index < |a|
    case _ => false
  }

  function StepTo(v: Value, s: Seg): (w: Value)
    requires HasStep(v, s)
    ensures w < v
  {
    if v.Obj? then v.fields[s.key] else v.items[s.index]
  }

  predicate Has(v: Value, p: Path)
    decreases |p|
  {
    p == [] || (HasStep(v, p[0]) && Has(StepTo(v, p[0]), p[1..]))
  }

  function At(v: Value, p: Path): (w: Value)
    requires Has(v, p)
    decreases |p|
  {
    if p == [] then v else At(StepTo(v, p[0]), p[1..])
  }

  /** Assigning one step down: a map key is created, an array index must exist. */
  function PutStep(v: Value, s: Seg, w: Value): (v': Value)
    ensures HasStep(v, s) ==> HasStep(v', s) && StepTo(v', s) == w
    ensures forall t :: t != s ==> HasStep(v', t) == HasStep(v, t) && (HasStep(v, t) ==> StepTo(v', t) == StepTo(v, t))
  {
    match v
    case Obj(m) => if s.Key? then Obj(m[s.key := w]) else v
    case Arr(a) => if HasStep(v, s) then Arr(a[s.index := w]) else v
    case _ => v
  }

  /** Removing one step down: a map key goes away, an array element becomes null. */
  function DropStep(v: Value, s: Seg): (v': Value)
    ensures forall t :: t != s ==> HasStep(v', t) == HasStep(v, t) && (HasStep(v, t) ==> StepTo(v', t) == StepTo(v, t))
  {
    match v
    case Obj(m) => if s.Key? then Obj(m - {s.key}) else v
    case Arr(a) => if HasStep(v, s) then Arr(a[s.index := Null]) else v
    case _ => v
  }

  /** removeAt: a missing step on the way is a no-op. */
  function Remove(v: Value, p: Path): (v': Value)
    decreases |p|
  {
    if p == [] then v
    else if |p| == 1 then DropStep(v, p[0])
    else if HasStep(v, p[0]) then PutStep(v, p[0], Remove(StepTo(v, p[0]), p[1..]))
    else v
  }

  /** model.Place: a missing step on the way is a miss. */
  function Place(v: Value, p: Path, w: Value): (v': Value)
    decreases |p|
  {
    if p == [] then v
    else if |p| == 1 then PutStep(v, p[0], w)
    else if HasStep(v, p[0]) then PutStep(v, p[0], Place(StepTo(v, p[0]), p[1..], w))
    else v
  }

  predicate Nested(p: Path, q: Path) {
    p <= q || q <= p
  }

  // ------------------------------------------------------------------------------------------
  // How the two interact
  // ------------------------------------------------------------------------------------------

  lemma StepOverStep(v: Value, s: Seg, u: Value, w: Value)
    ensures PutStep(PutStep(v, s, u), s, w) == PutStep(v, s, w)
    ensures PutStep(DropStep(v, s), s, w) == PutStep(v, s, w)
    ensures HasStep(v, s) ==> PutStep(v, s, StepTo(v, s)) == v
  {
  }

  lemma StepsApart(v: Value, s: Seg, u: Value, t: Seg, w: Value)
    requires s != t
    ensures PutStep(PutStep(v, s, u), t, w) == PutStep(PutStep(v, t, w), s, u)
    ensures PutStep(DropStep(v, s), t, w) == DropStep(PutStep(v, t, w), s)
  {
  }

  lemma {:induction false} PlaceOverRemove(v: Value, p: Path, w: Value)
    ensures Place(Remove(v, p), p, w) == Place(v, p, w)
    decreases |p|
  {
    if p != [] {
      StepOverStep(v, p[0], v, w);
      if |p| > 1 && HasStep(v, p[0]) {
        PlaceOverRemove(StepTo(v, p[0]), p[1..], w);
        StepOverStep(v, p[0], Remove(StepTo(v, p[0]), p[1..]), Place(StepTo(v, p[0]), p[1..], w));
      }
    }
  }

  lemma {:induction false} PlaceOverPlace(v: Value, p: Path, u: Value, w: Value)
    ensures Place(Place(v, p, u), p, w) == Place(v, p, w)
    decreases |p|
  {
    if p != [] {
      StepOverStep(v, p[0], u, w);
      if |p| > 1 && HasStep(v, p[0]) {
        PlaceOverPlace(StepTo(v, p[0]), p[1..], u, w);
        StepOverStep(v, p[0], Place(StepTo(v, p[0]), p[1..], u), Place(StepTo(v, p[0]), p[1..], w));
      }
    }
  }

  lemma {:induction false} PlaceSame(v: Value, p: Path)
    requires Has(v, p)
    ensures Place(v, p, At(v, p)) == v
    decreases |p|
  {
    if p != [] {
      StepOverStep(v, p[0], v, v);
      if |p| > 1 {
        PlaceSame(StepTo(v, p[0]), p[1..]);
      }
    }
  }

  lemma TailNested(p: Path, q: Path)
    requires p != [] && q != [] && p[0] == q[0] && !Nested(p, q)
    ensures |p| > 1 && |q| > 1 && !Nested(p[1..], q[1..])
  {
    assert p == [p[0]] + p[1..] && q == [q[0]] + q[1..];
    assert p[1..] <= q[1..] ==> p <= q;
    assert q[1..] <= p[1..] ==> q <= p;
  }

  lemma {:induction false} RemovePlaceCommute(v: Value, p: Path, q: Path, w: Value)
    requires !Nested(p, q)
    ensures Place(Remove(v, p), q, w) == Remove(Place(v, q, w), p)
    decreases |p|
  {
    var s, t := p[0], q[0];
    if s == t {
      TailNested(p, q);
      if HasStep(v, s) {
        var x := StepTo(v, s);
        RemovePlaceCommute(x, p[1..], q[1..], w);
        StepOverStep(v, s, Remove(x, p[1..]), Place(Remove(x, p[1..]), q[1..], w));
        StepOverStep(v, s, Place(x, q[1..], w), Remove(Place(x, q[1..], w), p[1..]));
      }
    } else {
      var u := if HasStep(v, s) then Remove(StepTo(v, s), p[1..]) else v;
      var x := if |q| > 1 && HasStep(v, t) then Place(StepTo(v, t), q[1..], w) else w;
      StepsApart(v, s, u, t, x);
    }
  }

  /** What a Place comes to at its first step. */
  function Below(v: Value, p: Path, u: Value): (x: Value)
    requires p != []
  {
    if |p| > 1 && HasStep(v, p[0]) then Place(StepTo(v, p[0]), p[1..], u) else u
  }

  lemma PlaceIsPut(v: Value, p: Path, u: Value)
    requires p != []
    ensures Place(v, p, u) == if |p| == 1 || HasStep(v, p[0]) then PutStep(v, p[0], Below(v, p, u)) else v
  {
  }

  lemma BelowApart(v: Value, p: Path, u: Value, q: Path, w: Value)
    requires p != [] && q != [] && p[0] != q[0]
    ensures Below(Place(v, p, u), q, w) == Below(v, q, w) && HasStep(Place(v, p, u), q[0]) == HasStep(v, q[0])
  {
    PlaceIsPut(v, p, u);
  }

  lemma PlacesApart(v: Value, p: Path, u: Value, q: Path, w: Value)
    requires p != [] && q != [] && p[0] != q[0]
    ensures Place(Place(v, p, u), q, w) == Place(Place(v, q, w), p, u)
  {
    var a, b := Below(v, p, u), Below(v, q, w);
    PlaceIsPut(v, p, u);
    PlaceIsPut(v, q, w);
    BelowApart(v, p, u, q, w);
    BelowApart(v, q, w, p, u);
    PlaceIsPut(Place(v, p, u), q, w);
    PlaceIsPut(Place(v, q, w), p, u);
    StepsApart(v, p[0], a, q[0], b);
  }

  lemma {:induction false} PlacePlaceCommute(v: Value, p: Path, u: Value, q: Path, w: Value)
    requires !Nested(p, q)
    ensures Place(Place(v, p, u), q, w) == Place(Place(v, q, w), p, u)
    decreases |p|
  {
    var s := p[0];
    if s == q[0] {
      TailNested(p, q);
      if HasStep(v, s) {
        var x := StepTo(v, s);
        PlacePlaceCommute(x, p[1..], u, q[1..], w);
        StepOverStep(v, s, Place(x, p[1..], u), Place(Place(x, p[1..], u), q[1..], w));
        StepOverStep(v, s, Place(x, q[1..], w), Place(Place(x, q[1..], w), p[1..], u));
      }
    } else {
      PlacesApart(v, p, u, q, w);
    }
  }
}
