/**
 Taking several values out of a context and putting values back at the listed paths, in any order.
 */
module Cuts {

  import opened Values

  /** A position taken out.  A whole slot leaves null in its column; anything finer is removed. */
  datatype Cut = Cut(path: Path, whole: bool)

  /** A value to put back at a path. */
  datatype Entry = Entry(path: Path, value: Value)

  function Drop(v: Value, c: Cut): (v': Value) {
    if c.whole then Place(v, c.path, Null) else Remove(v, c.path)
  }

  function DropAll(v: Value, cs: seq<Cut>): (v': Value)
    decreases |cs|
  {
    if cs == [] then v else Drop(DropAll(v, cs[..|cs| - 1]), cs[|cs| - 1])
  }

  function PlaceAll(v: Value, es: seq<Entry>): (v': Value)
    decreases |es|
  {
    if es == [] then v else PlaceAll(Place(v, es[0].path, es[0].value), es[1..])
  }

  ghost predicate Apart(cs: seq<Cut>) {
    forall i, j :: 0 <= i < j < |cs| ==> !Nested(cs[i].path, cs[j].path)
  }

  ghost function CutPaths(cs: seq<Cut>): (ps: set<Path>) {
    set c | c in cs :: c.path
  }

  ghost function EntryPaths(es: seq<Entry>): (ps: set<Path>) {
    set e | e in es :: e.path
  }

  ghost predicate Distinct(es: seq<Entry>) {
    forall i, j :: 0 <= i < j < |es| ==> es[i].path != es[j].path
  }

  /** The entries name the paths that were cut, each once, in any order. */
  ghost predicate Lists(es: seq<Entry>, cs: seq<Cut>) {
    Distinct(es) && EntryPaths(es) == CutPaths(cs)
  }

  lemma PlaceOverDrop(v: Value, c: Cut, w: Value)
    ensures Place(Drop(v, c), c.path, w) == Place(v, c.path, w)
  {
    PlaceOverRemove(v, c.path, w);
    PlaceOverPlace(v, c.path, Null, w);
  }

  lemma DropPlaceCommute(v: Value, c: Cut, q: Path, w: Value)
    requires !Nested(c.path, q)
    ensures Place(Drop(v, c), q, w) == Drop(Place(v, q, w), c)
  {
    RemovePlaceCommute(v, c.path, q, w);
    PlacePlaceCommute(v, c.path, Null, q, w);
  }

  lemma {:induction false} PlacePastDrops(v: Value, cs: seq<Cut>, q: Path, w: Value)
    requires forall i :: 0 <= i < |cs| ==> !Nested(cs[i].path, q)
    ensures Place(DropAll(v, cs), q, w) == DropAll(Place(v, q, w), cs)
    decreases |cs|
  {
    if cs != [] {
      var n := |cs| - 1;
      DropPlaceCommute(DropAll(v, cs[..n]), cs[n], q, w);
      PlacePastDrops(v, cs[..n], q, w);
    }
  }

  lemma DropLast(v: Value, cs: seq<Cut>, c: Cut)
    ensures DropAll(v, cs + [c]) == Drop(DropAll(v, cs), c)
  {
    assert (cs + [c])[..|cs|] == cs;
  }

  /** Placing a value where one was cut undoes that cut and leaves the others alone. */
  lemma {:induction false} PlaceUndoesDrop(v: Value, cs: seq<Cut>, i: nat, w: Value)
    requires Apart(cs) && i < |cs|
    ensures Place(DropAll(v, cs), cs[i].path, w) == DropAll(Place(v, cs[i].path, w), cs[..i] + cs[i + 1..])
    decreases |cs|, 0
  {
    var n := |cs| - 1;
    var init, last, q := cs[..n], cs[n], cs[i].path;
    assert cs == init + [last];
    DropLast(v, init, last);
    if i == n {
      PlaceOverDrop(DropAll(v, init), last, w);
      PlacePastDrops(v, init, q, w);
      assert cs[..i] + cs[i + 1..] == init;
    } else {
      UndoInner(v, init, last, i, w);
      assert cs[..i] + cs[i + 1..] == (init[..i] + init[i + 1..]) + [last];
    }
  }

  lemma {:induction false} UndoInner(v: Value, init: seq<Cut>, last: Cut, i: nat, w: Value)
    requires Apart(init) && i < |init| && !Nested(last.path, init[i].path)
    ensures var q := init[i].path;
      Place(Drop(DropAll(v, init), last), q, w) == DropAll(Place(v, q, w), (init[..i] + init[i + 1..]) + [last])
    decreases |init|, 1
  {
    var q := init[i].path;
    DropPlaceCommute(DropAll(v, init), last, q, w);
    PlaceUndoesDrop(v, init, i, w);
    DropLast(Place(v, q, w), init[..i] + init[i + 1..], last);
  }

  lemma CutsWithout(cs: seq<Cut>, i: nat)
    requires Apart(cs) && i < |cs|
    ensures var rest := cs[..i] + cs[i + 1..]; Apart(rest) && CutPaths(rest) == CutPaths(cs) - {cs[i].path}
  {
    var rest := cs[..i] + cs[i + 1..];
    assert cs == cs[..i] + [cs[i]] + cs[i + 1..];
    forall c | c in rest
      ensures c.path != cs[i].path
    {
      var j :| 0 <= j < |rest| && rest[j] == c;
      assert c == cs[if j < i then j else j + 1];
    }
  }

  lemma NoCuts(cs: seq<Cut>)
    ensures CutPaths(cs) == {} ==> cs == []
  {
    if cs != [] {
      assert cs[0].path in CutPaths(cs);
    }
  }

  lemma EntriesTail(es: seq<Entry>)
    requires Distinct(es) && es != []
    ensures Distinct(es[1..]) && EntryPaths(es[1..]) == EntryPaths(es) - {es[0].path}
  {
    assert es == [es[0]] + es[1..];
  }

  /** Placing an entry for every cut, in any order, comes to placing them on the uncut value. */
  lemma {:induction false} PlaceAllUndoesDrops(v: Value, cs: seq<Cut>, es: seq<Entry>)
    requires Apart(cs) && Lists(es, cs)
    ensures PlaceAll(DropAll(v, cs), es) == PlaceAll(v, es)
    decreases |es|
  {
    if es == [] {
      NoCuts(cs);
    } else {
      assert es[0].path in EntryPaths(es);
      var i :| 0 <= i < |cs| && cs[i].path == es[0].path;
      PlaceUndoesDrop(v, cs, i, es[0].value);
      CutsWithout(cs, i);
      EntriesTail(es);
      PlaceAllUndoesDrops(Place(v, es[0].path, es[0].value), cs[..i] + cs[i + 1..], es[1..]);
    }
  }

  lemma {:induction false} PlaceOwnValues(v: Value, es: seq<Entry>)
    requires forall i :: 0 <= i < |es| ==> Has(v, es[i].path) && es[i].value == At(v, es[i].path)
    ensures PlaceAll(v, es) == v
    decreases |es|
  {
    if es != [] {
      PlaceSame(v, es[0].path);
      PlaceOwnValues(v, es[1..]);
    }
  }

  /** The cut round trip: putting each object back at its listed path gives the original value. */
  lemma CutRoundTrip(v: Value, cs: seq<Cut>, es: seq<Entry>)
    requires Apart(cs) && Lists(es, cs)
    requires forall i :: 0 <= i < |es| ==> Has(v, es[i].path) && es[i].value == At(v, es[i].path)
    ensures PlaceAll(DropAll(v, cs), es) == v
  {
    PlaceAllUndoesDrops(v, cs, es);
    PlaceOwnValues(v, es);
  }
}
