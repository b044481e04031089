/**
 Duration literals: unit-suffixed counts, concatenated, each part summed in 64 bits and refused
 rather than wrapped.
 */
module Duration {

  const MAX_INT64: int := 0x7FFF_FFFF_FFFF_FFFF

  datatype Unit = Millisecond | Month | Second | Minute | Hour | Day | Week | Year

  /** In the order they are tried: longest suffix first. */
  const UNITS: seq<Unit> := [Millisecond, Month, Second, Minute, Hour, Day, Week, Year]

  function Suffix(u: Unit): (s: string) {
    match u
    case Millisecond => "ms"
    case Month => "mo"
    case Second => "s"
    case Minute => "m"
    case Hour => "h"
    case Day => "d"
    case Week => "w"
    case Year => "y"
  }

  datatype Part = Fixed | Days | Months

  function PartOf(u: Unit): (p: Part) {
    match u
    case Millisecond | Second | Minute | Hour => Fixed
    case Day | Week => Days
    case Month | Year => Months
  }

  /** How much of its part one unit is: the fixed part counts nanoseconds. */
  function Scale(u: Unit): (n: int)
    ensures n > 0
  {
    match u
    case Millisecond => 1000000
    case Second => 1000000000
    case Minute => 60 * 1000000000
    case Hour => 3600 * 1000000000
    case Day => 1
    case Week => 7
    case Month => 1
    case Year => 12
  }

  datatype Span = Span(fixed: int, days: int, months: int)

  function Get(d: Span, p: Part): (n: int) {
    match p
    case Fixed => d.fixed
    case Days => d.days
    case Months => d.months
  }

  function Put(d: Span, p: Part, n: int): (d': Span) {
    match p
    case Fixed => d.(fixed := n)
    case Days => d.(days := n)
    case Months => d.(months := n)
  }

  datatype Fault = Empty | NoNumber | OutOfRange | NoUnit | UnknownUnit

  datatype Result<T> = Ok(value: T) | Err(fault: Fault)

  // ------------------------------------------------------------------------------------------
  // Adding without wrapping
  // ------------------------------------------------------------------------------------------

  /** addFixed and addCalendar: the guards are divisions and subtractions that cannot overflow. */
  function Add(d: Span, n: int, u: Unit): (r: Result<Span>)
    requires n >= 0
  {
    if n > MAX_INT64 / Scale(u) then Err(OutOfRange)
    else
      var add := n * Scale(u);
      if Get(d, PartOf(u)) > MAX_INT64 - add then Err(OutOfRange)
      else Ok(Put(d, PartOf(u), Get(d, PartOf(u)) + add))
  }

  /** The sum without bounds. */
  function Plus(d: Span, n: int, u: Unit): (d': Span) {
    Put(d, PartOf(u), Get(d, PartOf(u)) + n * Scale(u))
  }

  predicate InRange(d: Span) {
    0 <= d.fixed <= MAX_INT64 && 0 <= d.days <= MAX_INT64 && 0 <= d.months <= MAX_INT64
  }

  lemma TimesMonotone(a: int, b: int, s: int)
    requires a <= b && s > 0
    ensures a * s <= b * s
  {
    assert (b - a) * s >= 0;
  }

  lemma QuotientGuard(m: int, n: int, s: int)
    requires m >= 0 && n >= 0 && s > 0
    ensures n > m / s <==> n * s > m
  {
    var q := m / s;
    assert q * s <= m < (q + 1) * s;
    if n > q {
      TimesMonotone(q + 1, n, s);
    } else {
      TimesMonotone(n, q, s);
    }
  }

  /** One addition is refused exactly when the true sum leaves 64 bits, and otherwise is it. */
  lemma AddExact(d: Span, n: int, u: Unit)
    requires InRange(d) && n >= 0
    ensures Add(d, n, u) == if InRange(Plus(d, n, u)) then Ok(Plus(d, n, u)) else Err(OutOfRange)
  {
    QuotientGuard(MAX_INT64, n, Scale(u));
    TimesMonotone(0, n, Scale(u));
  }

  // ------------------------------------------------------------------------------------------
  // Parsing
  // ------------------------------------------------------------------------------------------

  predicate IsDigit(c: char) {
    '0' <= c <= '9'
  }

  predicate IsBlank(c: char) {
    c == ' ' || c == '\t'
  }

  /** Unicode's white space, which the literal is trimmed of at both ends. */
  predicate IsSpace(c: char) {
    || c == ' ' || '\t' <= c <= '\r' || c == '\U{85}' || c == '\U{A0}' || c == '\U{1680}'
    || '\U{2000}' <= c <= '\U{200A}' || c == '\U{2028}' || c == '\U{2029}' || c == '\U{202F}'
    || c == '\U{205F}' || c == '\U{3000}'
  }

  function TrimLeft(s: string): (r: string)
    ensures |r| <= |s|
  {
    if s != "" && IsBlank(s[0]) then TrimLeft(s[1..]) else s
  }

  function TrimSpaceLeft(s: string): (r: string)
    ensures |r| <= |s|
  {
    if s != "" && IsSpace(s[0]) then TrimSpaceLeft(s[1..]) else s
  }

  function TrimSpaceRight(s: string): (r: string) {
    if s != "" && IsSpace(s[|s| - 1]) then TrimSpaceRight(s[..|s| - 1]) else s
  }

  function DigitCount(s: string): (i: nat)
    ensures i <= |s|
    ensures forall k :: 0 <= k < i ==> IsDigit(s[k])
    ensures i < |s| ==> !IsDigit(s[i])
  {
    if s != "" && IsDigit(s[0]) then 1 + DigitCount(s[1..]) else 0
  }

  function NumberOf(s: string): (n: nat)
    requires forall k :: 0 <= k < |s| ==> IsDigit(s[k])
  {
    assert s != "" ==> IsDigit(s[|s| - 1]);
    if s == "" then 0 else NumberOf(s[..|s| - 1]) * 10 + (s[|s| - 1] as int - '0' as int)
  }

  /** The first unit, in order, whose suffix the text starts with; past the last if none. */
  function MatchFrom(s: string, i: nat): (k: nat)
    requires i <= |UNITS|
    ensures i <= k <= |UNITS|
    ensures k < |UNITS| ==> Suffix(UNITS[k]) <= s
    decreases |UNITS| - i
  {
    if i == |UNITS| || Suffix(UNITS[i]) <= s then i else MatchFrom(s, i + 1)
  }

  /** One component as read: its count, its unit, and how much of the text it takes. */
  datatype Reading = Reading(count: nat, unit: Unit, length: nat)

  /** The component at the front of a text that starts with neither blank nor end. */
  function ReadComponent(s: string): (r: Result<Reading>)
    ensures r.Ok? ==> 0 < r.value.length <= |s|
  {
    var i := DigitCount(s);
    if i == 0 then Err(NoNumber)
    else
      var n := NumberOf(s[..i]);
      if n > MAX_INT64 then Err(OutOfRange)
      else if s[i..] == "" then Err(NoUnit)
      else
        var k := MatchFrom(s[i..], 0);
        if k == |UNITS| then Err(UnknownUnit) else Ok(Reading(n, UNITS[k], i + |Suffix(UNITS[k])|))
  }

  /** From a point of the literal on, with what has been summed so far. */
  function ParseFrom(rest: string, d: Span, any: bool): (r: Result<Span>)
    decreases |rest|
  {
    var s := TrimLeft(rest);
    if s == "" then (if any then Ok(d) else Err(Empty))
    else
      var c := ReadComponent(s);
      if c.Err? then Err(c.fault)
      else
        var sum := Add(d, c.value.count, c.value.unit);
        if sum.Err? then Err(sum.fault) else ParseFrom(s[c.value.length..], sum.value, true)
  }

  function Parse(s: string): (r: Result<Span>) {
    var raw := TrimSpaceRight(TrimSpaceLeft(s));
    if raw == "" then Err(Empty) else ParseFrom(raw, Span(0, 0, 0), false)
  }

  method ScanDigits(s: string) returns (i: nat)
    ensures i == DigitCount(s)
  {
    i := 0;
    while i < |s| && IsDigit(s[i])
      invariant 0 <= i <= |s| && forall k :: 0 <= k < i ==> IsDigit(s[k])
    {
      i := i + 1;
    }
    DigitsCounted(s, i);
  }

  method MatchUnit(s: string) returns (k: nat)
    ensures k == MatchFrom(s, 0)
  {
    k := 0;
    while k < |UNITS| && !(Suffix(UNITS[k]) <= s)
      invariant 0 <= k <= |UNITS| && MatchFrom(s, k) == MatchFrom(s, 0)
    {
      k := k + 1;
    }
  }

  /** The scan for digits and then for a unit. */
  method ScanComponent(rest: string) returns (r: Result<Reading>)
    ensures r == ReadComponent(rest)
  {
    var i := ScanDigits(rest);
    if i == 0 {
      return Err(NoNumber);
    }
    var n := NumberOf(rest[..i]);
    if n > MAX_INT64 {
      return Err(OutOfRange);
    }
    if rest[i..] == "" {
      return Err(NoUnit);
    }
    var k := MatchUnit(rest[i..]);
    if k == |UNITS| {
      return Err(UnknownUnit);
    }
    return Ok(Reading(n, UNITS[k], i + |Suffix(UNITS[k])|));
  }

  /** ParseDuration's own loop. */
  method ParseDuration(s: string) returns (r: Result<Span>)
    ensures r == Parse(s)
  {
    var raw := TrimSpaceRight(TrimSpaceLeft(s));
    if raw == "" {
      return Err(Empty);
    }
    var d, rest, any := Span(0, 0, 0), raw, false;
    while true
      invariant ParseFrom(rest, d, any) == Parse(s)
      decreases |rest|
    {
      rest := TrimLeft(rest);
      if rest == "" {
        return if any then Ok(d) else Err(Empty);
      }
      var c := ScanComponent(rest);
      if c.Err? {
        return Err(c.fault);
      }
      var sum := Add(d, c.value.count, c.value.unit);
      if sum.Err? {
        return Err(sum.fault);
      }
      d, rest, any := sum.value, rest[c.value.length..], true;
    }
  }

  lemma {:induction false} DigitsCounted(s: string, i: nat)
    requires i <= |s| && (forall k :: 0 <= k < i ==> IsDigit(s[k])) && (i < |s| ==> !IsDigit(s[i]))
    ensures DigitCount(s) == i
  {
    if i > 0 {
      DigitsCounted(s[1..], i - 1);
    }
  }

  // ------------------------------------------------------------------------------------------
  // Literals and their sums
  // ------------------------------------------------------------------------------------------

  /** One component as it is written: blanks, the digits of a count, a unit. */
  datatype Item = Item(gap: string, digits: string, unit: Unit)

  predicate ItemOk(i: Item) {
    && (forall k :: 0 <= k < |i.gap| ==> IsBlank(i.gap[k]))
    && i.digits != "" && forall k :: 0 <= k < |i.digits| ==> IsDigit(i.digits[k])
  }

  predicate ItemsOk(items: seq<Item>) {
    forall k :: 0 <= k < |items| ==> ItemOk(items[k])
  }

  function Written(i: Item): (s: string) {
    i.gap + (i.digits + Suffix(i.unit))
  }

  function Print(items: seq<Item>): (s: string) {
    if items == [] then "" else Written(items[0]) + Print(items[1..])
  }

  /** The sums of the counts, each part on its own, without bounds. */
  function SumFrom(items: seq<Item>, d: Span): (r: Span)
    requires ItemsOk(items)
    decreases |items|
  {
    if items == [] then d
    else
      assert ItemOk(items[0]);
      SumFrom(items[1..], Plus(d, NumberOf(items[0].digits), items[0].unit))
  }

  lemma {:induction false} TrimGap(gap: string, rest: string)
    requires forall k :: 0 <= k < |gap| ==> IsBlank(gap[k])
    requires rest == "" || (!IsBlank(rest[0]) && !IsSpace(rest[0]))
    ensures TrimLeft(gap + rest) == rest && TrimSpaceLeft(gap + rest) == rest
  {
    if gap == "" {
      assert gap + rest == rest;
    } else {
      assert (gap + rest)[1..] == gap[1..] + rest && (gap + rest)[0] == gap[0];
      TrimGap(gap[1..], rest);
    }
  }

  /** After a component comes the end, a blank or a digit. */
  predicate Boundary(s: string) {
    s == "" || IsBlank(s[0]) || IsDigit(s[0])
  }

  lemma PrintBoundary(items: seq<Item>)
    requires ItemsOk(items)
    ensures Boundary(Print(items))
  {
    if items != [] {
      var i := items[0];
      assert ItemOk(i);
      assert Print(items)[0] == if i.gap != "" then i.gap[0] else i.digits[0];
    }
  }

  function IndexOf(u: Unit): (i: nat)
    ensures i < |UNITS| && UNITS[i] == u
  {
    match u
    case Millisecond => 0
    case Month => 1
    case Second => 2
    case Minute => 3
    case Hour => 4
    case Day => 5
    case Week => 6
    case Year => 7
  }

  lemma {:induction false} FirstMatch(s: string, u: Unit, i: nat)
    requires i <= IndexOf(u) && Suffix(u) <= s
    requires forall j :: 0 <= j < IndexOf(u) ==> !(Suffix(UNITS[j]) <= s)
    ensures MatchFrom(s, i) == IndexOf(u)
    decreases IndexOf(u) - i
  {
    if i < IndexOf(u) {
      FirstMatch(s, u, i + 1);
    }
  }

  lemma PrefixReads(x: string, s: string)
    requires x != ""
    ensures x <= s ==> x[0] == s[0] && (|x| >= 2 ==> |s| >= 2 && x[1] == s[1])
  {
  }

  /** The suffix is read whole: ms and mo are tried before m, and nothing else starts alike. */
  lemma SuffixRead(u: Unit, tail: string)
    requires Boundary(tail)
    ensures MatchFrom(Suffix(u) + tail, 0) == IndexOf(u)
  {
    var s := Suffix(u) + tail;
    assert s[0] == Suffix(u)[0];
    assert |Suffix(u)| == 2 ==> s[1] == Suffix(u)[1];
    assert |Suffix(u)| == 1 && tail != "" ==> s[1] == tail[0];
    forall j | 0 <= j < IndexOf(u)
      ensures !(Suffix(UNITS[j]) <= s)
    {
      PrefixReads(Suffix(UNITS[j]), s);
    }
    FirstMatch(s, u, 0);
  }

  // ------------------------------------------------------------------------------------------
  // The round trip
  // ------------------------------------------------------------------------------------------

  lemma PlusGrows(d: Span, n: int, u: Unit)
    requires n >= 0
    ensures var r := Plus(d, n, u); r.fixed >= d.fixed && r.days >= d.days && r.months >= d.months
    ensures n > MAX_INT64 && InRange(d) ==> !InRange(Plus(d, n, u))
  {
    TimesMonotone(0, n, Scale(u));
    assert n * (Scale(u) - 1) >= 0;
    assert n * Scale(u) == n + n * (Scale(u) - 1);
  }

  lemma {:induction false} SumGrows(items: seq<Item>, d: Span)
    requires ItemsOk(items)
    ensures var r := SumFrom(items, d); r.fixed >= d.fixed && r.days >= d.days && r.months >= d.months
    decreases |items|
  {
    if items != [] {
      assert ItemOk(items[0]);
      PlusGrows(d, NumberOf(items[0].digits), items[0].unit);
      SumGrows(items[1..], Plus(d, NumberOf(items[0].digits), items[0].unit));
    }
  }

  /** What the parser reads of a component, and where it goes on. */
  lemma ReadItem(i: Item, tail: string)
    requires ItemOk(i) && Boundary(tail)
    ensures var s := TrimLeft(Written(i) + tail); var n := NumberOf(i.digits);
      && s != "" && |i.digits| + |Suffix(i.unit)| <= |s| && s[|i.digits| + |Suffix(i.unit)|..] == tail
      && ReadComponent(s) ==
           if n > MAX_INT64 then Err(OutOfRange) else Ok(Reading(n, i.unit, |i.digits| + |Suffix(i.unit)|))
  {
    var s := i.digits + Suffix(i.unit) + tail;
    SplitItem(i, tail, s);
    DigitsCounted(s, |i.digits|);
    SuffixRead(i.unit, tail);
  }

  lemma SplitItem(i: Item, tail: string, s: string)
    requires ItemOk(i) && s == i.digits + Suffix(i.unit) + tail
    ensures TrimLeft(Written(i) + tail) == s && s[..|i.digits|] == i.digits && s[|i.digits|..] == Suffix(i.unit) + tail
    ensures s[|i.digits| + |Suffix(i.unit)|..] == tail && !IsDigit(s[|i.digits|])
    ensures forall k :: 0 <= k < |i.digits| ==> IsDigit(s[k])
  {
    assert Written(i) + tail == i.gap + s;
    assert s[0] == i.digits[0] && IsDigit(s[0]);
    TrimGap(i.gap, s);
    assert s[|i.digits|] == Suffix(i.unit)[0];
  }

  /** One component read and added: on to the rest with the true sum, or refused for range. */
  lemma ParseStep(i: Item, tail: string, d: Span, any: bool)
    requires ItemOk(i) && Boundary(tail) && InRange(d)
    ensures var sum := Plus(d, NumberOf(i.digits), i.unit);
      ParseFrom(Written(i) + tail, d, any) == if InRange(sum) then ParseFrom(tail, sum, true) else Err(OutOfRange)
  {
    ReadItem(i, tail);
    var n := NumberOf(i.digits);
    AddExact(d, n, i.unit);
    PlusGrows(d, n, i.unit);
    ParseOn(Written(i) + tail, d, any, n, i.unit, |i.digits| + |Suffix(i.unit)|, tail, Plus(d, n, i.unit));
  }

  lemma ParseOn(rest: string, d: Span, any: bool, n: nat, u: Unit, length: nat, tail: string, sum: Span)
    requires TrimLeft(rest) != "" && length <= |TrimLeft(rest)| && TrimLeft(rest)[length..] == tail
    requires ReadComponent(TrimLeft(rest)) == if n > MAX_INT64 then Err(OutOfRange) else Ok(Reading(n, u, length))
    requires Add(d, n, u) == if InRange(sum) then Ok(sum) else Err(OutOfRange)
    requires n > MAX_INT64 ==> !InRange(sum)
    ensures ParseFrom(rest, d, any) == if InRange(sum) then ParseFrom(tail, sum, true) else Err(OutOfRange)
  {
  }

  /** From any component on, the literal parses to the true sums, or is refused for range exactly
      when one of them leaves 64 bits. */
  lemma {:induction false} ParseIsSum(items: seq<Item>, d: Span, any: bool)
    requires ItemsOk(items) && InRange(d) && (any || items != [])
    ensures ParseFrom(Print(items), d, any) ==
      if InRange(SumFrom(items, d)) then Ok(SumFrom(items, d)) else Err(OutOfRange)
    decreases |items|
  {
    if items != [] {
      var i, rest := items[0], items[1..];
      assert ItemOk(i) && ItemsOk(rest);
      PrintBoundary(rest);
      ParseStep(i, Print(rest), d, any);
      var sum := Plus(d, NumberOf(i.digits), i.unit);
      SumGrows(rest, sum);
      PlusGrows(d, NumberOf(i.digits), i.unit);
      if InRange(sum) {
        ParseIsSum(rest, sum, true);
      }
    }
  }

  lemma {:induction false} NoTrailingSpace(items: seq<Item>)
    requires ItemsOk(items) && items != []
    ensures Print(items) != "" && !IsSpace(Print(items)[|Print(items)| - 1])
  {
    var s := Written(items[0]);
    assert s[|s| - 1] == Suffix(items[0].unit)[|Suffix(items[0].unit)| - 1];
    if |items| > 1 {
      NoTrailingSpace(items[1..]);
    }
  }

  /** Any non-empty literal of well-formed components: parsed, it gives their mathematical sums in
      the fixed, day and month parts; it is refused exactly when one of those leaves 64 bits, and
      then for range. */
  lemma ParseExact(items: seq<Item>)
    requires ItemsOk(items) && items != []
    ensures var sum := SumFrom(items, Span(0, 0, 0));
      Parse(Print(items)) == if InRange(sum) then Ok(sum) else Err(OutOfRange)
  {
    var bare := [items[0].(gap := "")] + items[1..];
    assert ItemOk(items[0]) && ItemsOk(bare) && bare[1..] == items[1..];
    TrimPrint(items, bare);
    ParseIsSum(bare, Span(0, 0, 0), false);
  }

  /** Trimming the literal takes the first gap and nothing else. */
  lemma TrimPrint(items: seq<Item>, bare: seq<Item>)
    requires ItemsOk(items) && items != [] && ItemsOk(bare) && bare != []
    requires bare[0] == items[0].(gap := "") && bare[1..] == items[1..]
    ensures TrimSpaceRight(TrimSpaceLeft(Print(items))) == Print(bare) != ""
  {
    var i := items[0];
    assert ItemOk(i);
    var tail := i.digits + Suffix(i.unit) + Print(items[1..]);
    assert Written(i) + Print(items[1..]) == i.gap + tail;
    assert "" + (i.digits + Suffix(i.unit)) == i.digits + Suffix(i.unit);
    assert tail[0] == i.digits[0] && IsDigit(tail[0]);
    TrimGap(i.gap, tail);
    NoTrailingSpace(bare);
  }

  /** Whatever the text, what is accepted has not wrapped. */
  lemma {:induction false} AcceptedInRange(rest: string, d: Span, any: bool)
    requires InRange(d)
    ensures ParseFrom(rest, d, any).Ok? ==> InRange(ParseFrom(rest, d, any).value)
    decreases |rest|
  {
    var s := TrimLeft(rest);
    var c := ReadComponent(s);
    if s != "" && c.Ok? {
      var n, u := c.value.count, c.value.unit;
      AddExact(d, n, u);
      if InRange(Plus(d, n, u)) {
        AcceptedInRange(s[c.value.length..], Plus(d, n, u), true);
      }
    }
  }

  function Decimal(n: nat): (s: string) {
    if n < 10 then [('0' as int + n) as char] else Decimal(n / 10) + [('0' as int + n % 10) as char]
  }

  /** Printed in decimal, a count reads back. */
  lemma {:induction false} DecimalReads(n: nat)
    ensures Decimal(n) != "" && (forall k :: 0 <= k < |Decimal(n)| ==> IsDigit(Decimal(n)[k]))
    ensures NumberOf(Decimal(n)) == n
  {
    var s := Decimal(n);
    if n < 10 {
      assert NumberOf(s[..0]) == 0;
    } else {
      DecimalReads(n / 10);
      assert s[..|s| - 1] == Decimal(n / 10);
    }
  }

  // ------------------------------------------------------------------------------------------
  // The units against one another
  // ------------------------------------------------------------------------------------------

  lemma OneItem(i: Item)
    requires ItemOk(i)
    ensures Print([i]) == Written(i)
    ensures SumFrom([i], Span(0, 0, 0)) == Plus(Span(0, 0, 0), NumberOf(i.digits), i.unit)
  {
    assert [i][1..] == [];
  }

  /** One count in one unit. */
  lemma ParseCount(n: nat, u: Unit, text: string)
    requires text == Decimal(n) + Suffix(u)
    ensures var d := Plus(Span(0, 0, 0), n, u); Parse(text) == if InRange(d) then Ok(d) else Err(OutOfRange)
  {
    DecimalReads(n);
    var i := Item("", Decimal(n), u);
    OneItem(i);
    assert Written(i) == text;
    ParseExact([i]);
  }

  /** Counts of the same time are the same duration, whatever the units. */
  lemma SameTime(m: nat, u: Unit, n: nat, w: Unit, s: string, t: string)
    requires PartOf(u) == PartOf(w) && m * Scale(u) == n * Scale(w)
    requires s == Decimal(m) + Suffix(u) && t == Decimal(n) + Suffix(w)
    ensures Parse(s) == Parse(t)
  {
    ParseCount(m, u, s);
    ParseCount(n, w, t);
  }

  /** `small` is the count `n` of a unit written out in the next smaller one. */
  predicate Rewritten(n: nat, small: string, big: string) {
    || (small == Decimal(1000 * n) + "ms" && big == Decimal(n) + "s")
    || (small == Decimal(60 * n) + "s" && big == Decimal(n) + "m")
    || (small == Decimal(60 * n) + "m" && big == Decimal(n) + "h")
    || (small == Decimal(7 * n) + "d" && big == Decimal(n) + "w")
    || (small == Decimal(12 * n) + "mo" && big == Decimal(n) + "y")
  }

  /** The units against one another: a second is a thousand milliseconds, a minute sixty seconds, an hour
      sixty minutes, a week seven days and a year twelve months, to the last bit and up to the same
      limit. */
  lemma UnitsConvert(n: nat, small: string, big: string)
    requires Rewritten(n, small, big)
    ensures Parse(small) == Parse(big)
  {
    if small == Decimal(1000 * n) + "ms" && big == Decimal(n) + "s" {
      SameTime(1000 * n, Millisecond, n, Second, small, big);
    } else if small == Decimal(60 * n) + "s" && big == Decimal(n) + "m" {
      SameTime(60 * n, Second, n, Minute, small, big);
    } else if small == Decimal(60 * n) + "m" && big == Decimal(n) + "h" {
      SameTime(60 * n, Minute, n, Hour, small, big);
    } else if small == Decimal(7 * n) + "d" && big == Decimal(n) + "w" {
      SameTime(7 * n, Day, n, Week, small, big);
    } else {
      SameTime(12 * n, Month, n, Year, small, big);
    }
  }

  /** What they all come down to: a second is a thousand million nanoseconds of the fixed part, a day one
      of the days and a month one of the months. */
  lemma BaseUnits(n: nat, p: Part, s: string, d: Span)
    requires match p
      case Fixed => s == Decimal(n) + "s" && d == Span(n * 1000000000, 0, 0)
      case Days => s == Decimal(n) + "d" && d == Span(0, n, 0)
      case Months => s == Decimal(n) + "mo" && d == Span(0, 0, n)
    ensures Parse(s) == if InRange(d) then Ok(d) else Err(OutOfRange)
  {
    var u := match p case Fixed => Second case Days => Day case Months => Month;
    assert Plus(Span(0, 0, 0), n, u) == d;
    ParseCount(n, u, s);
  }
}
