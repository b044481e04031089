/**
 The encoded form of a value, and its size computed bottom-up without encoding.
 */
module Encoding {

  import opened Values

  // ------------------------------------------------------------------------------------------
  // Keys in sorted order
  // ------------------------------------------------------------------------------------------

  predicate StrLess(a: string, b: string) {
    b != "" && (a == "" || a[0] < b[0] || (a[0] == b[0] && StrLess(a[1..], b[1..])))
  }

  lemma {:induction false} StrTotal(a: string, b: string)
    ensures StrLess(a, b) || a == b || StrLess(b, a)
    ensures !(StrLess(a, b) && StrLess(b, a))
  {
    if a != "" && b != "" && a[0] == b[0] {
      StrTotal(a[1..], b[1..]);
      assert a == [a[0]] + a[1..] && b == [b[0]] + b[1..];
    }
  }

  lemma {:induction false} StrTrans(a: string, b: string, c: string)
    requires StrLess(a, b) && StrLess(b, c)
    ensures StrLess(a, c)
  {
    if a != "" && a[0] == b[0] && b[0] == c[0] {
      StrTrans(a[1..], b[1..], c[1..]);
    }
  }

  predicate Least(s: set<string>, k: string) {
    k in s && forall j :: j in s && j != k ==> StrLess(k, j)
  }

  lemma LeastExists(s: set<string>) returns (k: string)
    requires s != {}
    ensures Least(s, k)
    decreases s
  {
    k :| k in s;
    if s != {k} {
      var m := LeastExists(s - {k});
      StrTotal(k, m);
      if StrLess(k, m) {
        forall j | j in s && j != k && j != m
          ensures StrLess(k, j)
        {
          StrTrans(k, m, j);
        }
      } else {
        k := m;
      }
    }
  }

  lemma LeastUnique(s: set<string>)
    requires s != {}
    ensures exists k :: Least(s, k)
    ensures forall j, k :: Least(s, j) && Least(s, k) ==> j == k
  {
    var k := LeastExists(s);
    forall j | Least(s, j)
      ensures j == k
    {
      StrTotal(j, k);
    }
  }

  function SortKeys(s: set<string>): (ks: seq<string>)
    ensures forall k :: k in ks <==> k in s
    ensures forall i, j :: 0 <= i < j < |ks| ==> ks[i] != ks[j]
    decreases s
  {
    if s == {} then []
    else
      LeastUnique(s);
      var k :| Least(s, k);
      [k] + SortKeys(s - {k})
  }

  // ------------------------------------------------------------------------------------------
  // Encoding
  // ------------------------------------------------------------------------------------------

  function Quote(k: string): (q: string) {
    "\"" + k + "\""
  }

  /** A marker has no text of its own: it reads as the null its absence leaves. */
  function Encode(v: Value): (text: string)
    decreases v, 1, 0
  {
    match v
    case Null => "null"
    case Scalar(t) => t
    case Arr(_) => "[" + EncodeItems(v, 0) + "]"
    case Obj(m) => "{" + EncodeFields(v, SortKeys(m.Keys)) + "}"
    case Ref(_) => "null"
  }

  function EncodeItems(v: Value, i: nat): (text: string)
    requires v.Arr? && i <= |v.items|
    decreases v, 0, |v.items| - i
  {
    if i == |v.items| then "" else (if i > 0 then "," else "") + Encode(v.items[i]) + EncodeItems(v, i + 1)
  }

  function EncodeFields(v: Value, keys: seq<string>): (text: string)
    requires v.Obj? && forall k :: k in keys ==> k in v.fields
    decreases v, 0, |keys|
  {
    if keys == [] then ""
    else
      Quote(keys[0]) + ":" + Encode(v.fields[keys[0]]) + (if |keys| > 1 then "," else "") + EncodeFields(v, keys[1..])
  }

  // ------------------------------------------------------------------------------------------
  // buildTree's sizes
  // ------------------------------------------------------------------------------------------

  /** A node's own size: an already external value costs nothing but its entry. */
  function Size(v: Value): (n: nat)
    decreases v, 2, 0
  {
    if v.Ref? then 0 else RawSize(v)
  }

  /** What it adds to the text of the value around it. */
  function RawSize(v: Value): (n: nat)
    decreases v, 1, 0
  {
    match v
    case Null => 4
    case Scalar(t) => |t|
    case Arr(a) => 2 + ItemsSize(v, 0) + if |a| > 0 then |a| - 1 else 0
    case Obj(m) => 2 + FieldsSize(v, SortKeys(m.Keys)) + if |SortKeys(m.Keys)| > 0 then |SortKeys(m.Keys)| - 1 else 0
    case Ref(_) => 4
  }

  function ItemsSize(v: Value, i: nat): (n: nat)
    requires v.Arr? && i <= |v.items|
    decreases v, 0, |v.items| - i
  {
    if i == |v.items| then 0 else RawSize(v.items[i]) + ItemsSize(v, i + 1)
  }

  function FieldsSize(v: Value, keys: seq<string>): (n: nat)
    requires v.Obj? && forall k :: k in keys ==> k in v.fields
    decreases v, 0, |keys|
  {
    if keys == [] then 0 else |Quote(keys[0])| + 1 + RawSize(v.fields[keys[0]]) + FieldsSize(v, keys[1..])
  }

  /** The sizes summed bottom-up are exactly the encoded length; for a value with no markers in it
      that is the length of its JSON text. */
  lemma {:induction false} SizeIsEncodedLength(v: Value)
    ensures RawSize(v) == |Encode(v)|
    ensures !v.Ref? ==> Size(v) == |Encode(v)|
    decreases v, 1, 0
  {
    match v
    case Arr(_) => ItemsLength(v, 0);
    case Obj(m) => FieldsLength(v, SortKeys(m.Keys));
    case _ =>
  }

  lemma {:induction false} ItemsLength(v: Value, i: nat)
    requires v.Arr? && i <= |v.items|
    ensures |EncodeItems(v, i)| == ItemsSize(v, i) + if i == 0 && |v.items| > 0 then |v.items| - 1 else |v.items| - i
    decreases v, 0, |v.items| - i
  {
    if i < |v.items| {
      SizeIsEncodedLength(v.items[i]);
      ItemsLength(v, i + 1);
    }
  }

  lemma {:induction false} FieldsLength(v: Value, keys: seq<string>)
    requires v.Obj? && forall k :: k in keys ==> k in v.fields
    ensures |EncodeFields(v, keys)| == FieldsSize(v, keys) + if |keys| > 0 then |keys| - 1 else 0
    decreases v, 0, |keys|
  {
    if keys != [] {
      SizeIsEncodedLength(v.fields[keys[0]]);
      FieldsLength(v, keys[1..]);
    }
  }
}
