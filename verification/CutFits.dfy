/**
 The chosen positions of a value never weigh more than the value.
 */
module CutFits {

  import opened Values
  import opened Encoding
  import opened CutModel

  ghost predicate Spread(v: Value, ps: set<Path>) {
    && (forall p :: p in ps ==> Has(v, p))
    && (forall p, q :: p in ps && q in ps && p != q ==> !Nested(p, q))
  }

  ghost function Heads(ps: set<Path>, s: Seg): (a: set<Path>) {
    set p | p in ps && p != [] && p[0] == s
  }

  ghost function Tails(ps: set<Path>): (a: set<Path>) {
    set p | p in ps && p != [] :: p[1..]
  }

  lemma TailsTake(s: Seg, a: set<Path>, p: Path)
    requires p in a && forall q :: q in a ==> q != [] && q[0] == s
    ensures Tails(a) == Tails(a - {p}) + {p[1..]} && p[1..] !in Tails(a - {p})
  {
    forall q | q in a && q[1..] == p[1..]
      ensures q == p
    {
      assert q == [s] + q[1..] && p == [s] + p[1..];
    }
  }

  lemma {:induction false} SumShift(v: Value, s: Seg, a: set<Path>)
    requires HasStep(v, s) && forall p :: p in a ==> p != [] && p[0] == s && Has(v, p)
    ensures SumOf(a, SizeAt(v)) == SumOf(Tails(a), SizeAt(StepTo(v, s)))
    decreases a
  {
    if a == {} {
      assert Tails(a) == {};
    } else {
      var p :| p in a;
      SumTake(a, SizeAt(v), p);
      SumShift(v, s, a - {p});
      TailsTake(s, a, p);
      SumAdd(Tails(a - {p}), SizeAt(StepTo(v, s)), p[1..]);
    }
  }

  lemma TailsSpread(v: Value, s: Seg, ps: set<Path>)
    requires Spread(v, ps) && HasStep(v, s)
    ensures Spread(StepTo(v, s), Tails(Heads(ps, s)))
  {
    forall x, y | x in Tails(Heads(ps, s)) && y in Tails(Heads(ps, s)) && x != y
      ensures !Nested(x, y)
    {
      assert [s] + x in ps && [s] + y in ps by {
        var p :| p in Heads(ps, s) && p[1..] == x;
        var q :| q in Heads(ps, s) && q[1..] == y;
        assert p == [s] + x && q == [s] + y;
      }
      assert ([s] + x)[1..] == x && ([s] + y)[1..] == y;
      assert x <= y ==> [s] + x <= [s] + y;
      assert y <= x ==> [s] + y <= [s] + x;
    }
  }

  /** One child's share of the chosen positions, and the rest. */
  lemma SumByHead(v: Value, s: Seg, ps: set<Path>)
    requires Spread(v, ps) && HasStep(v, s)
    ensures SumOf(ps, SizeAt(v)) ==
      SumOf(Tails(Heads(ps, s)), SizeAt(StepTo(v, s))) + SumOf(ps - Heads(ps, s), SizeAt(v))
  {
    var a := Heads(ps, s);
    SumSplit(a, ps - a, SizeAt(v));
    assert a + (ps - a) == ps;
    SumShift(v, s, a);
  }

  lemma {:induction false} Fits(v: Value, ps: set<Path>)
    requires Spread(v, ps)
    ensures SumOf(ps, SizeAt(v)) <= Size(v)
    decreases v, 1, 0
  {
    if [] in ps {
      forall p | p in ps
        ensures p == []
      {
        assert [] <= p;
      }
      assert ps == {[]};
      SumTake(ps, SizeAt(v), []);
      assert ps - {[]} == {};
    } else {
      match v
      case Arr(_) => ItemsFit(v, 0, ps);
      case Obj(m) => FieldsFit(v, SortKeys(m.Keys), ps);
      case _ => assert forall p :: p in ps ==> p == []; assert ps == {};
    }
  }

  lemma {:induction false} ItemsFit(v: Value, i: nat, ps: set<Path>)
    requires v.Arr? && i <= |v.items| && Spread(v, ps)
    requires forall p: Path :: p in ps ==> p != [] && p[0].Index? && p[0].index >= i
    ensures SumOf(ps, SizeAt(v)) <= ItemsSize(v, i)
    decreases v, 0, |v.items| - i
  {
    forall p: Path | p in ps
      ensures p[0].index < |v.items|
    {
      assert Has(v, p);
    }
    if i == |v.items| {
      assert ps == {};
    } else {
      SumByHead(v, Index(i), ps);
      TailsSpread(v, Index(i), ps);
      Fits(v.items[i], Tails(Heads(ps, Index(i))));
      ItemsFit(v, i + 1, ps - Heads(ps, Index(i)));
    }
  }

  lemma {:induction false} FieldsFit(v: Value, keys: seq<string>, ps: set<Path>)
    requires v.Obj? && (forall k :: k in keys ==> k in v.fields) && Spread(v, ps)
    requires forall p: Path :: p in ps ==> p != [] && p[0].Key? && p[0].key in keys
    ensures SumOf(ps, SizeAt(v)) <= FieldsSize(v, keys)
    decreases v, 0, |keys|
  {
    if keys == [] {
      assert ps == {};
    } else {
      var s := Key(keys[0]);
      SumByHead(v, s, ps);
      TailsSpread(v, s, ps);
      Fits(v.fields[keys[0]], Tails(Heads(ps, s)));
      FieldsFit(v, keys[1..], ps - Heads(ps, s));
    }
  }

  /** Whatever is chosen, the value never weighs less than its chosen parts. */
  lemma ChosenFits(v: Value, chosen: set<Path>)
    requires CutOk(v, chosen)
    ensures ChosenSize(v, chosen) <= Size(v)
  {
    Fits(v, chosen);
  }
}
