/**
 Keyset pagination: sort keys, the OR-chain that selects the rows past a cursor, and pages of a
 table read in key order.
 */
module Keyset {

  import opened Encoding

  /** A key column's value; columns of one sort mode never mix kinds at one position. */
  datatype Col = IntCol(n: int) | TextCol(s: string)

  /** A row is known by its key: the columns of a sort mode are together unique. */
  type Key = seq<Col>

  predicate ColLess(a: Col, b: Col) {
    match (a, b)
    case (IntCol(x), IntCol(y)) => x < y
    case (TextCol(x), TextCol(y)) => StrLess(x, y)
    case (IntCol(_), TextCol(_)) => true
    case (TextCol(_), IntCol(_)) => false
  }

  /** Strict lexicographic order. */
  predicate KeyLess(a: Key, b: Key) {
    b != [] && (a == [] || ColLess(a[0], b[0]) || (a[0] == b[0] && KeyLess(a[1..], b[1..])))
  }

  lemma ColOrder(a: Col, b: Col, c: Col)
    ensures ColLess(a, b) || a == b || ColLess(b, a)
    ensures !(ColLess(a, b) && ColLess(b, a))
    ensures ColLess(a, b) && ColLess(b, c) ==> ColLess(a, c)
  {
    if a.TextCol? && b.TextCol? {
      StrTotal(a.s, b.s);
      if c.TextCol? && StrLess(a.s, b.s) && StrLess(b.s, c.s) {
        StrTrans(a.s, b.s, c.s);
      }
    }
  }

  lemma {:induction false} KeyTotal(a: Key, b: Key)
    ensures KeyLess(a, b) || a == b || KeyLess(b, a)
    ensures !(KeyLess(a, b) && KeyLess(b, a))
  {
    if a != [] && b != [] {
      ColOrder(a[0], b[0], b[0]);
      KeyTotal(a[1..], b[1..]);
      assert a == [a[0]] + a[1..] && b == [b[0]] + b[1..];
    }
  }

  lemma {:induction false} KeyTrans(a: Key, b: Key, c: Key)
    requires KeyLess(a, b) && KeyLess(b, c)
    ensures KeyLess(a, c)
  {
    if a != [] {
      ColOrder(a[0], b[0], c[0]);
      if a[0] == b[0] && b[0] == c[0] {
        KeyTrans(a[1..], b[1..], c[1..]);
      }
    }
  }

  // ------------------------------------------------------------------------------------------
  // The OR-chain
  // ------------------------------------------------------------------------------------------

  datatype Op = Eq | Lt | Gt

  /** One comparison of a column with the next bound argument. */
  datatype Term = Term(col: nat, op: Op)

  predicate TermHolds(t: Term, arg: Col, row: Key)
    requires t.col < |row|
  {
    match t.op
    case Eq => row[t.col] == arg
    case Lt => ColLess(row[t.col], arg)
    case Gt => ColLess(arg, row[t.col])
  }

  predicate AndHolds(terms: seq<Term>, args: seq<Col>, row: Key)
    requires |args| == |terms| && InRow(terms, |row|)
  {
    forall i :: 0 <= i < |terms| ==> TermHolds(terms[i], args[i], row)
  }

  predicate InRow(terms: seq<Term>, n: nat) {
    forall i :: 0 <= i < |terms| ==> terms[i].col < n
  }

  predicate AllInRow(ors: seq<seq<Term>>, n: nat) {
    forall i :: 0 <= i < |ors| ==> InRow(ors[i], n)
  }

  function Width(ors: seq<seq<Term>>): (n: nat) {
    if ors == [] then 0 else Width(ors[..|ors| - 1]) + |ors[|ors| - 1]|
  }

  /** A disjunction of conjunctions, its placeholders bound left to right. */
  predicate OrHolds(ors: seq<seq<Term>>, args: seq<Col>, row: Key)
    requires |args| == Width(ors) && AllInRow(ors, |row|)
    decreases |ors|
  {
    ors != [] &&
    var n := |ors| - 1;
    || OrHolds(ors[..n], args[..Width(ors[..n])], row)
    || AndHolds(ors[n], args[Width(ors[..n])..], row)
  }

  /** The first difference is at or before position n, and goes the way of the operator. */
  predicate Past(op: Op, vals: Key, row: Key, n: nat)
    requires n <= |vals| == |row|
  {
    exists i :: 0 <= i < n && row[..i] == vals[..i] && TermHolds(Term(i, op), vals[i], row)
  }

  method Conjunct(cmp: Op, vals: Key, i: nat) returns (terms: seq<Term>, args: seq<Col>)
    requires i < |vals|
    ensures ConjunctOk(terms, args, cmp, vals, i)
  {
    terms, args := [], [];
    for j := 0 to i
      invariant |terms| == |args| == j
      invariant forall m :: 0 <= m < j ==> terms[m] == Term(m, Eq) && args[m] == vals[m]
    {
      terms, args := terms + [Term(j, Eq)], args + [vals[j]];
    }
    terms, args := terms + [Term(i, cmp)], args + [vals[i]];
    forall row: Key | |row| == |vals|
      ensures AndHolds(terms, args, row) <==> row[..i] == vals[..i] && TermHolds(Term(i, cmp), vals[i], row)
    {
      assert TermHolds(terms[i], args[i], row) <==> TermHolds(Term(i, cmp), vals[i], row);
      assert forall m :: 0 <= m < i ==> (TermHolds(terms[m], args[m], row) <==> row[m] == vals[m]);
      assert row[..i] == vals[..i] <==> forall m :: 0 <= m < i ==> row[m] == vals[m];
    }
  }

  lemma OrAppend(ors: seq<seq<Term>>, args: seq<Col>, terms: seq<Term>, more: seq<Col>, row: Key)
    requires |args| == Width(ors) && |more| == |terms|
    requires AllInRow(ors, |row|) && InRow(terms, |row|)
    ensures Width(ors + [terms]) == |args + more|
    ensures OrHolds(ors + [terms], args + more, row) <==> OrHolds(ors, args, row) || AndHolds(terms, more, row)
  {
    var all := ors + [terms];
    assert all[..|all| - 1] == ors;
    assert (args + more)[..Width(ors)] == args && (args + more)[Width(ors)..] == more;
  }

  /** The chain holds of exactly the rows whose first difference, among the first n columns, goes
      the operator's way. */
  ghost predicate ChainOk(ors: seq<seq<Term>>, args: seq<Col>, cmp: Op, vals: Key, n: nat)
    requires n <= |vals|
  {
    && |args| == Width(ors) && AllInRow(ors, |vals|)
    && forall row: Key {:trigger OrHolds(ors, args, row)} ::
      |row| == |vals| ==> (OrHolds(ors, args, row) <==> Past(cmp, vals, row, n))
  }

  lemma PastMore(cmp: Op, vals: Key, row: Key, i: nat)
    requires i < |vals| == |row|
    ensures Past(cmp, vals, row, i + 1) <==>
      Past(cmp, vals, row, i) || (row[..i] == vals[..i] && TermHolds(Term(i, cmp), vals[i], row))
  {
  }

  lemma RowMore(ors: seq<seq<Term>>, args: seq<Col>, terms: seq<Term>, more: seq<Col>, cmp: Op, vals: Key, i: nat,
                row: Key)
    requires i < |vals| == |row| && |args| == Width(ors) && AllInRow(ors, |row|) && |terms| == |more|
    requires InRow(terms, |row|)
    requires OrHolds(ors, args, row) <==> Past(cmp, vals, row, i)
    requires AndHolds(terms, more, row) <==> row[..i] == vals[..i] && TermHolds(Term(i, cmp), vals[i], row)
    ensures |args + more| == Width(ors + [terms]) && AllInRow(ors + [terms], |row|)
    ensures OrHolds(ors + [terms], args + more, row) <==> Past(cmp, vals, row, i + 1)
  {
    OrAppend(ors, args, terms, more, row);
    PastMore(cmp, vals, row, i);
  }

  /** The conjunct for position i. */
  ghost predicate ConjunctOk(terms: seq<Term>, more: seq<Col>, cmp: Op, vals: Key, i: nat)
    requires i < |vals|
  {
    && |terms| == |more| && InRow(terms, |vals|)
    && forall row: Key {:trigger AndHolds(terms, more, row)} :: |row| == |vals| ==>
         (AndHolds(terms, more, row) <==> row[..i] == vals[..i] && TermHolds(Term(i, cmp), vals[i], row))
  }

  lemma ChainMore(ors: seq<seq<Term>>, args: seq<Col>, terms: seq<Term>, more: seq<Col>, cmp: Op, vals: Key, i: nat)
    requires i < |vals| && ChainOk(ors, args, cmp, vals, i) && ConjunctOk(terms, more, cmp, vals, i)
    ensures ChainOk(ors + [terms], args + more, cmp, vals, i + 1)
  {
    RowMore(ors, args, terms, more, cmp, vals, i, vals);
    forall row: Key | |row| == |vals|
      ensures OrHolds(ors + [terms], args + more, row) <==> Past(cmp, vals, row, i + 1)
    {
      RowMore(ors, args, terms, more, cmp, vals, i, row);
    }
  }

  /** keysetPredicate: the chain, its placeholders bound in order, holds of exactly the rows on the
      operator's side of the cursor in strict lexicographic order. */
  method KeysetPredicate(cmp: Op, vals: Key) returns (ors: seq<seq<Term>>, args: seq<Col>)
    requires cmp != Eq
    ensures |args| == Width(ors) && AllInRow(ors, |vals|)
    ensures forall row: Key :: |row| == |vals| ==>
      (OrHolds(ors, args, row) <==> if cmp == Lt then KeyLess(row, vals) else KeyLess(vals, row))
  {
    ors, args := [], [];
    for i := 0 to |vals|
      invariant ChainOk(ors, args, cmp, vals, i)
    {
      var terms, more := Conjunct(cmp, vals, i);
      ChainMore(ors, args, terms, more, cmp, vals, i);
      ors, args := ors + [terms], args + more;
    }
    forall row: Key | |row| == |vals|
      ensures Past(cmp, vals, row, |vals|) <==> if cmp == Lt then KeyLess(row, vals) else KeyLess(vals, row)
    {
      PastIsLess(cmp, vals, row);
    }
  }

  lemma {:induction false} PastIsLess(cmp: Op, vals: Key, row: Key)
    requires cmp != Eq && |vals| == |row|
    ensures Past(cmp, vals, row, |vals|) <==> if cmp == Lt then KeyLess(row, vals) else KeyLess(vals, row)
  {
    if vals != [] {
      var v, r := vals[1..], row[1..];
      PastIsLess(cmp, v, r);
      ColOrder(vals[0], row[0], row[0]);
      if row[0] == vals[0] {
        PastTail(cmp, vals, row);
      } else {
        forall i | 0 < i <= |row|
          ensures row[..i] != vals[..i]
        {
          assert row[..i][0] == row[0] && vals[..i][0] == vals[0];
        }
        assert row[..0] == vals[..0];
        assert Past(cmp, vals, row, |vals|) <==> TermHolds(Term(0, cmp), vals[0], row);
      }
    }
  }

  /** The first difference, at position i. */
  ghost predicate DiffersAt(cmp: Op, vals: Key, row: Key, i: nat)
    requires i < |vals| == |row|
  {
    row[..i] == vals[..i] && TermHolds(Term(i, cmp), vals[i], row)
  }

  lemma DiffersTail(cmp: Op, vals: Key, row: Key, i: nat)
    requires cmp != Eq && 0 < i < |vals| == |row| && row[0] == vals[0]
    ensures DiffersAt(cmp, vals, row, i) <==> DiffersAt(cmp, vals[1..], row[1..], i - 1)
  {
    var v, r := vals[1..], row[1..];
    assert row[..i] == [row[0]] + r[..i - 1] && vals[..i] == [vals[0]] + v[..i - 1];
    assert row[..i][1..] == r[..i - 1] && vals[..i][1..] == v[..i - 1];
    assert r[i - 1] == row[i] && v[i - 1] == vals[i];
  }

  lemma PastTail(cmp: Op, vals: Key, row: Key)
    requires cmp != Eq && |vals| == |row| > 0 && row[0] == vals[0]
    ensures Past(cmp, vals, row, |vals|) <==> Past(cmp, vals[1..], row[1..], |vals| - 1)
  {
    var v, r := vals[1..], row[1..];
    ColOrder(vals[0], vals[0], vals[0]);
    assert !TermHolds(Term(0, cmp), vals[0], row);
    if Past(cmp, vals, row, |vals|) {
      var i :| 0 <= i < |vals| && row[..i] == vals[..i] && TermHolds(Term(i, cmp), vals[i], row);
      DiffersTail(cmp, vals, row, i);
      assert r[..i - 1] == v[..i - 1] && TermHolds(Term(i - 1, cmp), v[i - 1], r);
    }
    if Past(cmp, v, r, |v|) {
      var i :| 0 <= i < |v| && r[..i] == v[..i] && TermHolds(Term(i, cmp), v[i], r);
      DiffersTail(cmp, vals, row, i + 1);
      assert row[..i + 1] == vals[..i + 1] && TermHolds(Term(i + 1, cmp), vals[i + 1], row);
    }
  }
}
