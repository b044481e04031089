/**
 Pages of a table in key order: what each cursor selects, the counts around a page, and walks along
 the cursors.
 */
module Paginate {

  import opened Wrappers
  import opened Encoding
  import opened Keyset

  const PAGE_COUNT_CAP: nat := 1000

  /** Display order. */
  predicate Ahead(desc: bool, a: Key, b: Key) {
    if desc then KeyLess(b, a) else KeyLess(a, b)
  }

  lemma AheadOrder(desc: bool, a: Key, b: Key, c: Key)
    ensures Ahead(desc, a, b) || a == b || Ahead(desc, b, a)
    ensures !(Ahead(desc, a, b) && Ahead(desc, b, a))
    ensures Ahead(desc, a, b) && Ahead(desc, b, c) ==> Ahead(desc, a, c)
  {
    KeyTotal(a, b);
    if Ahead(desc, a, b) && Ahead(desc, b, c) {
      if desc {
        KeyTrans(c, b, a);
      } else {
        KeyTrans(a, b, c);
      }
    }
  }

  // ------------------------------------------------------------------------------------------
  // A table in display order
  // ------------------------------------------------------------------------------------------

  predicate First(desc: bool, t: set<Key>, k: Key) {
    k in t && forall j :: j in t && j != k ==> Ahead(desc, k, j)
  }

  lemma FirstExists(desc: bool, t: set<Key>) returns (k: Key)
    requires t != {}
    ensures First(desc, t, k)
    decreases t
  {
    k :| k in t;
    if t != {k} {
      var m := FirstExists(desc, t - {k});
      AheadOrder(desc, k, m, m);
      if Ahead(desc, k, m) {
        forall j | j in t && j != k && j != m
          ensures Ahead(desc, k, j)
        {
          AheadOrder(desc, k, m, j);
        }
      } else {
        k := m;
      }
    }
  }

  lemma FirstUnique(desc: bool, t: set<Key>)
    requires t != {}
    ensures exists k :: First(desc, t, k)
    ensures forall j, k :: First(desc, t, j) && First(desc, t, k) ==> j == k
  {
    var k := FirstExists(desc, t);
    forall j | First(desc, t, j)
      ensures j == k
    {
      AheadOrder(desc, j, k, k);
    }
  }

  ghost predicate InOrder(desc: bool, s: seq<Key>) {
    forall i, j {:trigger Ahead(desc, s[i], s[j])} :: 0 <= i < j < |s| ==> Ahead(desc, s[i], s[j])
  }

  /** ORDER BY, over rows whose keys are unique. */
  function Sorted(desc: bool, t: set<Key>): (s: seq<Key>)
    ensures InOrder(desc, s) && forall k :: k in s <==> k in t
    decreases t
  {
    if t == {} then []
    else
      FirstUnique(desc, t);
      var k :| First(desc, t, k);
      [k] + Sorted(desc, t - {k})
  }

  /** There is only one way to list a set in order. */
  lemma {:induction false} OneOrder(desc: bool, s: seq<Key>, t: set<Key>)
    requires InOrder(desc, s) && forall k :: k in s <==> k in t
    ensures s == Sorted(desc, t)
    decreases |s|
  {
    var u := Sorted(desc, t);
    if s == [] {
      assert t == {};
    } else {
      assert s[0] in t && u[0] in u && u[0] in s;
      var i :| 0 <= i < |s| && s[i] == u[0];
      var j :| 0 <= j < |u| && u[j] == s[0];
      AheadOrder(desc, s[0], u[0], u[0]);
      assert s[0] == u[0];
      HeadOff(desc, s, t);
      HeadOff(desc, u, t);
      OneOrder(desc, s[1..], t - {s[0]});
      OneOrder(desc, u[1..], t - {s[0]});
    }
  }

  lemma HeadOff(desc: bool, s: seq<Key>, t: set<Key>)
    requires InOrder(desc, s) && s != [] && forall k :: k in s <==> k in t
    ensures InOrder(desc, s[1..]) && forall k :: k in s[1..] <==> k in t - {s[0]}
  {
    AheadOrder(desc, s[0], s[0], s[0]);
    assert s == [s[0]] + s[1..];
    forall k | k in s[1..]
      ensures k != s[0]
    {
      var i :| 0 <= i < |s[1..]| && s[1..][i] == k;
      assert Ahead(desc, s[0], s[i + 1]);
    }
  }

  function Reverse(s: seq<Key>): (r: seq<Key>)
    ensures |r| == |s| && forall i :: 0 <= i < |s| ==> r[i] == s[|s| - 1 - i]
  {
    seq(|s|, i requires 0 <= i < |s| => s[|s| - 1 - i])
  }

  lemma ReverseOrder(desc: bool, t: set<Key>)
    ensures Sorted(!desc, t) == Reverse(Sorted(desc, t))
  {
    var s := Sorted(desc, t);
    var r := Reverse(s);
    forall k
      ensures k in r <==> k in t
    {
      if k in t {
        var i :| 0 <= i < |s| && s[i] == k;
        assert r[|s| - 1 - i] == k;
      }
      if k in r {
        var i :| 0 <= i < |r| && r[i] == k;
        assert s[|s| - 1 - i] in s;
      }
    }
    forall i, j | 0 <= i < j < |r|
      ensures Ahead(!desc, r[i], r[j])
    {
      assert Ahead(desc, s[|s| - 1 - j], s[|s| - 1 - i]);
    }
    OneOrder(!desc, r, t);
  }

  // ------------------------------------------------------------------------------------------
  // Pages
  // ------------------------------------------------------------------------------------------

  datatype Cursor = Start | After(vals: Key) | Before(vals: Key)

  function Take(s: seq<Key>, n: nat): (r: seq<Key>) {
    if |s| <= n then s else s[..n]
  }

  function Later(t: set<Key>, desc: bool, v: Key): (r: set<Key>) {
    set k | k in t && Ahead(desc, v, k)
  }

  function Sooner(t: set<Key>, desc: bool, v: Key): (r: set<Key>) {
    set k | k in t && Ahead(desc, k, v)
  }

  /** What the page statement selects: a backward page scans the other way and is flipped back. */
  function Page(t: set<Key>, desc: bool, cursor: Cursor, limit: nat): (page: seq<Key>) {
    match cursor
    case Start => Take(Sorted(desc, t), limit)
    case After(v) => Take(Sorted(desc, Later(t, desc, v)), limit)
    case Before(v) => Reverse(Take(Sorted(!desc, Sooner(t, desc, v)), limit))
  }

  /** A suffix of the table in display order is the rows past a cursor, a prefix those before it. */
  lemma SuffixIsLater(t: set<Key>, desc: bool, v: Key, i: nat)
    requires i <= |Sorted(desc, t)|
    requires forall j :: 0 <= j < |Sorted(desc, t)| ==> (Ahead(desc, v, Sorted(desc, t)[j]) <==> j >= i)
    ensures Sorted(desc, Later(t, desc, v)) == Sorted(desc, t)[i..]
  {
    var s := Sorted(desc, t);
    forall k
      ensures k in s[i..] <==> k in Later(t, desc, v)
    {
      if k in Later(t, desc, v) {
        var j :| 0 <= j < |s| && s[j] == k;
        assert s[i..][j - i] == k;
      }
    }
    OneOrder(desc, s[i..], Later(t, desc, v));
  }

  lemma PrefixIsSooner(t: set<Key>, desc: bool, v: Key, i: nat)
    requires i <= |Sorted(desc, t)|
    requires forall j :: 0 <= j < |Sorted(desc, t)| ==> (Ahead(desc, Sorted(desc, t)[j], v) <==> j < i)
    ensures Sorted(desc, Sooner(t, desc, v)) == Sorted(desc, t)[..i]
  {
    var s := Sorted(desc, t);
    forall k
      ensures k in s[..i] <==> k in Sooner(t, desc, v)
    {
      if k in Sooner(t, desc, v) {
        var j :| 0 <= j < |s| && s[j] == k;
        assert s[..i][j] == k;
      }
    }
    OneOrder(desc, s[..i], Sooner(t, desc, v));
  }

  function Min(a: int, b: int): (m: int) {
    if a < b then a else b
  }

  /** Every page is a slice of the sorted table.  A forward page starts at the first row past its
      cursor, whether or not the cursor's own row is still there. */
  lemma ForwardPage(t: set<Key>, desc: bool, v: Key, limit: nat, i: nat, s: seq<Key>)
    requires s == Sorted(desc, t) && i <= |s| && forall j :: 0 <= j < |s| ==> (Ahead(desc, v, s[j]) <==> j >= i)
    ensures Page(t, desc, After(v), limit) == s[i..Min(i + limit, |s|)]
  {
    SuffixIsLater(t, desc, v, i);
    assert Take(s[i..], limit) == s[i..Min(i + limit, |s|)];
  }

  /** A backward page ends just ahead of its cursor, and comes out in display order. */
  lemma BackwardPage(t: set<Key>, desc: bool, v: Key, limit: nat, i: nat, s: seq<Key>)
    requires s == Sorted(desc, t) && i <= |s| && forall j :: 0 <= j < |s| ==> (Ahead(desc, s[j], v) <==> j < i)
    ensures Page(t, desc, Before(v), limit) == s[if i < limit then 0 else i - limit..i]
  {
    PrefixIsSooner(t, desc, v, i);
    ReverseOrder(desc, Sooner(t, desc, v));
    BackwardTake(s[..i], limit);
    assert s[..i][if i < limit then 0 else i - limit..] == s[if i < limit then 0 else i - limit..i];
  }

  lemma BackwardTake(s: seq<Key>, limit: nat)
    ensures Reverse(Take(Reverse(s), limit)) == s[if |s| < limit then 0 else |s| - limit..]
  {
  }

  lemma FirstPage(t: set<Key>, desc: bool, limit: nat)
    ensures Page(t, desc, Start, limit) == Sorted(desc, t)[..Min(limit, |Sorted(desc, t)|)]
  {
  }

  lemma CursorAt(t: set<Key>, desc: bool, i: nat)
    requires i < |Sorted(desc, t)|
    ensures forall j :: 0 <= j < |Sorted(desc, t)| ==>
      (Ahead(desc, Sorted(desc, t)[i], Sorted(desc, t)[j]) <==> j >= i + 1)
    ensures forall j :: 0 <= j < |Sorted(desc, t)| ==> (Ahead(desc, Sorted(desc, t)[j], Sorted(desc, t)[i]) <==> j < i)
  {
    var s := Sorted(desc, t);
    forall j | 0 <= j < |s|
      ensures (Ahead(desc, s[i], s[j]) <==> j >= i + 1) && (Ahead(desc, s[j], s[i]) <==> j < i)
    {
      AheadOrder(desc, s[i], s[j], s[j]);
    }
  }

  // ------------------------------------------------------------------------------------------
  // Counts and cursors
  // ------------------------------------------------------------------------------------------

  datatype PageInfo = PageInfo(itemsBefore: nat, itemsAfter: nat, before: Option<Key>, after: Option<Key>)

  /** SELECT COUNT(*) over a subquery limited to one more than the cap. */
  function Capped(n: nat): (c: nat) {
    Min(n, PAGE_COUNT_CAP + 1)
  }

  /** pageInfo: an empty page has no boundary, so both sides read 0; otherwise each side
      gets its count, and a cursor if that is not 0. */
  function Info(t: set<Key>, desc: bool, page: seq<Key>): (info: PageInfo) {
    if page == [] then PageInfo(0, 0, None, None)
    else
      var first, last := page[0], page[|page| - 1];
      var b, a := Capped(|Sooner(t, desc, first)|), Capped(|Later(t, desc, last)|);
      PageInfo(b, a, if b > 0 then Some(first) else None, if a > 0 then Some(last) else None)
  }

  lemma {:induction false} SortedLength(desc: bool, t: set<Key>)
    ensures |Sorted(desc, t)| == |t|
    decreases t
  {
    if t != {} {
      var k := Sorted(desc, t)[0];
      HeadOff(desc, Sorted(desc, t), t);
      OneOrder(desc, Sorted(desc, t)[1..], t - {k});
      SortedLength(desc, t - {k});
    }
  }

  lemma CountsAt(t: set<Key>, desc: bool, s: seq<Key>, i: nat)
    requires s == Sorted(desc, t) && i < |s|
    ensures |Sooner(t, desc, s[i])| == i && |Later(t, desc, s[i])| == |s| - i - 1
  {
    CursorAt(t, desc, i);
    PrefixIsSooner(t, desc, s[i], i);
    SuffixIsLater(t, desc, s[i], i + 1);
    SortedLength(desc, Sooner(t, desc, s[i]));
    SortedLength(desc, Later(t, desc, s[i]));
  }

  /** The counts are how many rows come first and last, up to the cap, and a cursor is there exactly when
      that side has rows. */
  lemma InfoIsRight(t: set<Key>, desc: bool, s: seq<Key>, a: nat, b: nat)
    requires s == Sorted(desc, t) && a < b <= |s|
    ensures var info := Info(t, desc, s[a..b]);
      && info.itemsBefore == Min(a, PAGE_COUNT_CAP + 1) && info.itemsAfter == Min(|s| - b, PAGE_COUNT_CAP + 1)
      && info.before == (if a > 0 then Some(s[a]) else None) && info.after == if b < |s| then Some(s[b - 1]) else None
  {
    CountsAt(t, desc, s, a);
    CountsAt(t, desc, s, b - 1);
    var page := s[a..b];
    assert page[0] == s[a] && page[|page| - 1] == s[b - 1];
  }

  lemma PageAfter(t: set<Key>, desc: bool, s: seq<Key>, limit: nat, n: nat)
    requires s == Sorted(desc, t) && 0 < n <= |s|
    ensures Page(t, desc, After(s[n - 1]), limit) == s[n..Min(n + limit, |s|)]
  {
    CursorAt(t, desc, n - 1);
    ForwardPage(t, desc, s[n - 1], limit, n, s);
  }

  lemma PageBefore(t: set<Key>, desc: bool, s: seq<Key>, limit: nat, b: nat)
    requires s == Sorted(desc, t) && b < |s|
    ensures Page(t, desc, Before(s[b]), limit) == s[if b < limit then 0 else b - limit..b]
  {
    CursorAt(t, desc, b);
    BackwardPage(t, desc, s[b], limit, b, s);
  }

  /** Before, taken from the next page, returns exactly the page it came from: a full page, or a
      short one that starts the table. */
  lemma BackReturns(t: set<Key>, desc: bool, s: seq<Key>, limit: nat, a: nat, b: nat, next: seq<Key>)
    requires s == Sorted(desc, t) && limit > 0 && a < b < |s| && (b - a == limit || (a == 0 && b <= limit))
    requires next == Page(t, desc, After(s[b - 1]), limit)
    ensures next != [] && Info(t, desc, s[a..b]).after == Some(s[b - 1]) && Info(t, desc, next).before == Some(next[0])
    ensures Page(t, desc, Before(next[0]), limit) == s[a..b]
  {
    var c := Min(b + limit, |s|);
    PageAfter(t, desc, s, limit, b);
    assert next == s[b..c] && next[0] == s[b];
    BoundaryCursors(t, desc, s, a, b, c);
    PageBefore(t, desc, s, limit, b);
  }

  lemma BoundaryCursors(t: set<Key>, desc: bool, s: seq<Key>, a: nat, b: nat, c: nat)
    requires s == Sorted(desc, t) && a < b < c <= |s|
    ensures Info(t, desc, s[a..b]).after == Some(s[b - 1]) && Info(t, desc, s[b..c]).before == Some(s[b])
  {
    InfoIsRight(t, desc, s, a, b);
    InfoIsRight(t, desc, s, b, c);
  }

  lemma SortedEmpty(desc: bool, t: set<Key>)
    ensures Sorted(desc, t) == [] <==> t == {}
  {
    SortedLength(desc, t);
  }

  /** A forward page comes up empty exactly when no row lies past its cursor. */
  lemma AfterEmpty(t: set<Key>, desc: bool, v: Key, limit: nat)
    requires limit > 0
    ensures Page(t, desc, After(v), limit) == [] <==> forall k :: k in t ==> !Ahead(desc, v, k)
  {
    SortedEmpty(desc, Later(t, desc, v));
    assert forall k :: k in t && Ahead(desc, v, k) ==> k in Later(t, desc, v);
  }

  /** A backward page comes up empty exactly when no row lies ahead of its cursor. */
  lemma BeforeEmpty(t: set<Key>, desc: bool, v: Key, limit: nat)
    requires limit > 0
    ensures Page(t, desc, Before(v), limit) == [] <==> forall k :: k in t ==> !Ahead(desc, k, v)
  {
    SortedEmpty(!desc, Sooner(t, desc, v));
    assert forall k :: k in t && Ahead(desc, k, v) ==> k in Sooner(t, desc, v);
  }

  /** Counts and cursors that tell the truth about the rows on either side. */
  predicate Truthful(info: PageInfo, before: nat, after: nat) {
    && info.itemsBefore == Capped(before) && info.itemsAfter == Capped(after)
    && (info.before.Some? <==> before > 0) && (info.after.Some? <==> after > 0)
  }

  /** An empty page has every row of the table on one side of it: all before an After cursor, all
      after a Before cursor.  It reports none, which is right exactly when the table is empty. */
  lemma EmptyPageInfo(t: set<Key>, desc: bool, cursor: Cursor, limit: nat)
    requires limit > 0 && Page(t, desc, cursor, limit) == []
    ensures cursor.After? ==> forall k :: k in t ==> !Ahead(desc, cursor.vals, k)
    ensures cursor.After? ==> (Truthful(Info(t, desc, []), |t|, 0) <==> t == {})
    ensures cursor.Before? ==> forall k :: k in t ==> !Ahead(desc, k, cursor.vals)
    ensures cursor.Before? ==> (Truthful(Info(t, desc, []), 0, |t|) <==> t == {})
    ensures cursor.Start? ==> t == {}
  {
    match cursor
    case Start => SortedEmpty(desc, t);
    case After(v) => AfterEmpty(t, desc, v, limit);
    case Before(v) => BeforeEmpty(t, desc, v, limit);
  }

  /** So it goes wrong on every table with a row in it: ask for what follows its last row, or for
      what comes before its first. */
  lemma PastTheEnds(t: set<Key>, desc: bool, limit: nat)
    requires limit > 0 && t != {}
    ensures var s := Sorted(desc, t);
      s != [] && Page(t, desc, After(s[|s| - 1]), limit) == [] && Page(t, desc, Before(s[0]), limit) == []
    ensures !Truthful(Info(t, desc, []), |t|, 0) && !Truthful(Info(t, desc, []), 0, |t|)
  {
    var s := Sorted(desc, t);
    SortedEmpty(desc, t);
    PageAfter(t, desc, s, limit, |s|);
    PageBefore(t, desc, s, limit, 0);
  }

  /** The page after n rows, and what it says follows. */
  lemma NextPage(t: set<Key>, desc: bool, s: seq<Key>, limit: nat, n: nat, page: seq<Key>)
    requires s == Sorted(desc, t) && 0 < limit && 0 < n < |s| && page == Page(t, desc, After(s[n - 1]), limit)
    ensures var m := n + |page|;
      n < m <= |s| && page == s[n..m] && Info(t, desc, page).after == if m < |s| then Some(s[m - 1]) else None
  {
    PageAfter(t, desc, s, limit, n);
    InfoIsRight(t, desc, s, n, Min(n + limit, |s|));
  }

  /** So far the first n rows; the cursor to go on from, if rows are left. */
  ghost predicate WalkedTo(s: seq<Key>, seen: seq<Key>, after: Option<Key>) {
    && |seen| <= |s| && seen == s[..|seen|] && (seen == [] ==> s == [])
    && after == if 0 < |seen| < |s| then Some(s[|seen| - 1]) else None
  }

  method WalkStart(t: set<Key>, desc: bool, limit: nat) returns (page: seq<Key>, after: Option<Key>)
    requires limit > 0
    ensures WalkedTo(Sorted(desc, t), page, after)
  {
    page := Page(t, desc, Start, limit);
    FirstPage(t, desc, limit);
    if |page| > 0 {
      InfoIsRight(t, desc, Sorted(desc, t), 0, |page|);
    }
    after := Info(t, desc, page).after;
  }

  method WalkOn(t: set<Key>, desc: bool, limit: nat, seen: seq<Key>, cursor: Key)
    returns (page: seq<Key>, after: Option<Key>)
    requires limit > 0 && WalkedTo(Sorted(desc, t), seen, Some(cursor))
    ensures page != [] && WalkedTo(Sorted(desc, t), seen + page, after)
  {
    ghost var s := Sorted(desc, t);
    page := Page(t, desc, After(cursor), limit);
    NextPage(t, desc, s, limit, |seen|, page);
    after := Info(t, desc, page).after;
    WalkExtends(s, seen, page, after);
  }

  lemma WalkExtends(s: seq<Key>, seen: seq<Key>, page: seq<Key>, after: Option<Key>)
    requires |seen| + |page| <= |s| && seen == s[..|seen|] && page != [] && page == s[|seen|..|seen| + |page|]
    requires after == if |seen| + |page| < |s| then Some(s[|seen| + |page| - 1]) else None
    ensures WalkedTo(s, seen + page, after)
  {
  }

  /** Following After cursors from the start visits every row once, in order. */
  method Walk(t: set<Key>, desc: bool, limit: nat) returns (seen: seq<Key>)
    requires limit > 0
    ensures seen == Sorted(desc, t)
  {
    var after;
    seen, after := WalkStart(t, desc, limit);
    while after.Some?
      invariant WalkedTo(Sorted(desc, t), seen, after)
      decreases |Sorted(desc, t)| - |seen|
    {
      var page;
      page, after := WalkOn(t, desc, limit, seen, after.value);
      seen := seen + page;
    }
  }

  // ------------------------------------------------------------------------------------------
  // Running a page
  // ------------------------------------------------------------------------------------------

  function ClampLimit(limit: int, def: nat, max: nat): (n: nat)
    requires 0 < def && 0 < max
    ensures 0 < n <= max && (0 < limit <= max ==> n == limit)
    ensures limit > max ==> n == max
    ensures limit <= 0 && def <= max ==> n == def
  {
    var l := if limit <= 0 then def else limit;
    if l > max then max else l
  }

  /** orient: the rows of a backward scan are reversed in place. */
  method Orient(rows: array<Key>, backward: bool)
    modifies rows
    ensures rows[..] == if backward then Reverse(old(rows[..])) else old(rows[..])
  {
    if backward {
      var i, j := 0, rows.Length - 1;
      while i < j
        invariant 0 <= i && j == rows.Length - 1 - i && i <= j + 1
        invariant forall k ::
          0 <= k < i ==> rows[k] == old(rows[rows.Length - 1 - k]) && rows[rows.Length - 1 - k] == old(rows[k])
        invariant forall k :: i <= k <= j ==> rows[k] == old(rows[k])
      {
        rows[i], rows[j] := rows[j], rows[i];
        i, j := i + 1, j - 1;
      }
    }
  }

  /** build and runPage: the OR-chain with its bound arguments, the scan in the direction of the
      cursor, the limit, and the flip, come to Page. */
  method RunPage(t: set<Key>, width: nat, desc: bool, cursor: Cursor, limit: nat)
    returns (rows: array<Key>, info: PageInfo)
    requires forall r :: r in t ==> |r| == width
    requires !cursor.Start? ==> |cursor.vals| == width
    ensures fresh(rows) && rows[..] == Page(t, desc, cursor, limit)
    ensures info == Info(t, desc, Page(t, desc, cursor, limit))
  {
    var backward := cursor.Before?;
    var scanAsc := if backward then desc else !desc;
    var cmp := if scanAsc then Gt else Lt;
    var matching := t;
    if !cursor.Start? {
      var ors, args := KeysetPredicate(cmp, cursor.vals);
      matching := set r | r in t && OrHolds(ors, args, r);
      assert matching == if backward then Sooner(t, desc, cursor.vals) else Later(t, desc, cursor.vals);
    }
    var scanned := Take(Sorted(!scanAsc, matching), limit);
    rows := new Key[|scanned|](i requires 0 <= i < |scanned| => scanned[i]);
    assert rows[..] == scanned;
    Orient(rows, backward);
    info := Info(t, desc, rows[..]);
  }

  // ------------------------------------------------------------------------------------------
  // The cursor codec
  // ------------------------------------------------------------------------------------------

  datatype Kind = KindText | KindInt

  /** A decoded token: which listing it belongs to, and the key it points at, numbers exact. */
  datatype Token = Token(sort: string, desc: bool, vals: seq<Col>)

  predicate Int64(n: int) {
    -0x8000_0000_0000_0000 <= n < 0x8000_0000_0000_0000
  }

  predicate Fits(c: Col, k: Kind) {
    match k
    case KindInt => c.IntCol? && Int64(c.n)
    case KindText => c.TextCol?
  }

  function EncodeCursor(sort: string, desc: bool, mode: seq<Kind>, vals: Key): (r: Option<Token>) {
    if |vals| != |mode| then None else Some(Token(sort, desc, vals))
  }

  /** Column by column, each value coerced to its column's kind. */
  method DecodeCursor(tok: Token, sort: string, desc: bool, mode: seq<Kind>) returns (r: Option<Key>)
    ensures r.Some? <==>
      && tok.sort == sort && tok.desc == desc && |tok.vals| == |mode|
      && forall i :: 0 <= i < |mode| ==> Fits(tok.vals[i], mode[i])
    ensures r.Some? ==> EncodeCursor(sort, desc, mode, r.value) == Some(tok)
  {
    if tok.sort != sort || tok.desc != desc {
      return None;
    }
    if |tok.vals| != |mode| {
      return None;
    }
    var out: Key := [];
    for i := 0 to |mode|
      invariant |out| == i && forall j :: 0 <= j < i ==> Fits(tok.vals[j], mode[j]) && out[j] == tok.vals[j]
    {
      match mode[i] {
        case KindInt =>
          if !tok.vals[i].IntCol? || !Int64(tok.vals[i].n) {
            return None;
          }
          out := out + [IntCol(tok.vals[i].n)];
        case KindText =>
          if !tok.vals[i].TextCol? {
            return None;
          }
          out := out + [TextCol(tok.vals[i].s)];
      }
    }
    assert out == tok.vals;
    return Some(out);
  }
}
