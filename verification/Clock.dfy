/**
 The next match of a calendar pattern: the clock half computed as a carry cascade, the date half
 tried day after day, in a zone of fixed offset.
 */
module Clock {

  import opened Wrappers

  const DAY: int := 86400
  const SECOND: int := 1000000000
  const MAX_PATTERN_DAYS: nat := 366 * 5

  // ------------------------------------------------------------------------------------------
  // One clock field
  // ------------------------------------------------------------------------------------------

  /** A single value (step 0), or every value on the grid base, base + step, ... */
  datatype Field = Field(base: int, step: int)

  predicate FieldOk(f: Field, max: int) {
    0 <= f.base <= max && f.step >= 0
  }

  predicate OnGrid(f: Field, k: int, v: int) {
    v == f.base + k * f.step
  }

  ghost predicate Admits(f: Field, max: int, v: int) {
    f.base <= v <= max && if f.step <= 0 then v == f.base else exists k :: OnGrid(f, k, v)
  }

  function CeilDiv(a: int, b: int): (q: int)
    requires a >= 0 && b > 0
  {
    (a + b - 1) / b
  }

  function FieldAtLeast(f: Field, from: int, max: int): (v: Option<int>) {
    if f.step <= 0 then
      if f.base < from then None else Some(f.base)
    else
      var v := if from > f.base then f.base + CeilDiv(from - f.base, f.step) * f.step else f.base;
      if v > max then None else Some(v)
  }

  /** Rounding up to the grid: on it, and less than a step past the bound. */
  lemma CeilDivBounds(a: int, b: int)
    requires a >= 0 && b > 0
    ensures a <= CeilDiv(a, b) * b < a + b
  {
    var q := (a + b - 1) / b;
    assert (a + b - 1) == q * b + (a + b - 1) % b;
  }

  lemma FieldFound(f: Field, from: int, max: int)
    requires FieldOk(f, max)
    ensures FieldAtLeast(f, from, max).Some? ==>
      Admits(f, max, FieldAtLeast(f, from, max).value) && FieldAtLeast(f, from, max).value >= from
  {
    if f.step > 0 {
      if from > f.base {
        var q := CeilDiv(from - f.base, f.step);
        CeilDivBounds(from - f.base, f.step);
        assert OnGrid(f, q, f.base + q * f.step);
      } else {
        assert OnGrid(f, 0, f.base);
      }
    }
  }

  /** Nothing admitted at or past the bound is less, so nothing is missed. */
  lemma FieldLeast(f: Field, from: int, max: int, v: int)
    requires FieldOk(f, max) && Admits(f, max, v)
    ensures v >= from ==> FieldAtLeast(f, from, max).Some? && FieldAtLeast(f, from, max).value <= v
  {
    if f.step > 0 && v >= from > f.base {
      var q := CeilDiv(from - f.base, f.step);
      CeilDivBounds(from - f.base, f.step);
      var k :| OnGrid(f, k, v);
      Steps(k, q, f.step, from - f.base);
    }
  }

  lemma Steps(k: int, q: int, b: int, a: int)
    requires b > 0 && k * b >= a && q * b < a + b
    ensures q * b <= k * b
  {
    if q > k {
      Times(k + 1, q, b);
    } else {
      Times(q, k, b);
    }
  }

  lemma Times(x: int, y: int, b: int)
    requires b > 0 && x <= y
    ensures x * b <= y * b && (x + 1) * b == x * b + b && (x - 1) * b == x * b - b
  {
    assert (y - x) * b >= 0;
  }

  // ------------------------------------------------------------------------------------------
  // The carry cascade
  // ------------------------------------------------------------------------------------------

  datatype Time = Time(h: int, m: int, s: int)

  datatype Pattern = Pattern(hour: Field, min: Field, sec: Field)

  predicate PatternOk(p: Pattern) {
    FieldOk(p.hour, 23) && FieldOk(p.min, 59) && FieldOk(p.sec, 59)
  }

  ghost predicate Fits(p: Pattern, t: Time) {
    Admits(p.hour, 23, t.h) && Admits(p.min, 59, t.m) && Admits(p.sec, 59, t.s)
  }

  /** Earlier or equal; a bound may read 60 seconds or minutes. */
  predicate AtMost(a: Time, b: Time) {
    a.h < b.h || (a.h == b.h && (a.m < b.m || (a.m == b.m && a.s <= b.s)))
  }

  function NextClock(p: Pattern, from: Time): (r: Option<Time>) {
    var h := FieldAtLeast(p.hour, from.h, 23);
    if h.None? then None
    else if h.value > from.h then Some(Time(h.value, p.min.base, p.sec.base))
    else
      var m := FieldAtLeast(p.min, from.m, 59);
      if m.Some? && m.value > from.m then Some(Time(h.value, m.value, p.sec.base))
      else
        var s := FieldAtLeast(p.sec, from.s, 59);
        if m.Some? && s.Some? then Some(Time(h.value, m.value, s.value))
        else
          var m1 := FieldAtLeast(p.min, from.m + 1, 59);
          if m.Some? && m1.Some? then Some(Time(h.value, m1.value, p.sec.base))
          else
            var h1 := FieldAtLeast(p.hour, from.h + 1, 23);
            if h1.Some? then Some(Time(h1.value, p.min.base, p.sec.base)) else None
  }

  lemma NextClockFits(p: Pattern, from: Time)
    requires PatternOk(p) && NextClock(p, from).Some?
    ensures Fits(p, NextClock(p, from).value) && AtMost(from, NextClock(p, from).value)
  {
    FieldFound(p.hour, from.h, 23);
    FieldFound(p.hour, from.h + 1, 23);
    FieldFound(p.min, from.m, 59);
    FieldFound(p.min, from.m + 1, 59);
    FieldFound(p.min, p.min.base, 59);
    FieldFound(p.sec, from.s, 59);
    FieldFound(p.sec, p.sec.base, 59);
    assert FieldAtLeast(p.min, p.min.base, 59) == Some(p.min.base) &&
      FieldAtLeast(p.sec, p.sec.base, 59) == Some(p.sec.base);
  }

  lemma NextClockLeast(p: Pattern, from: Time, t: Time)
    requires PatternOk(p) && Fits(p, t) && AtMost(from, t)
    ensures NextClock(p, from).Some? && AtMost(NextClock(p, from).value, t)
  {
    FieldLeast(p.hour, from.h, 23, t.h);
    FieldLeast(p.hour, from.h + 1, 23, t.h);
    FieldLeast(p.min, from.m, 59, t.m);
    FieldLeast(p.min, from.m + 1, 59, t.m);
    FieldLeast(p.sec, from.s, 59, t.s);
    FieldFound(p.hour, from.h, 23);
    FieldFound(p.hour, from.h + 1, 23);
    FieldFound(p.min, from.m, 59);
    FieldFound(p.min, from.m + 1, 59);
  }

  /** The cascade computes what a scan of the day would find: the least time that fits at or after
      the bound, and nothing exactly when there is none. */
  lemma NextClockIsLeast(p: Pattern, from: Time)
    requires PatternOk(p)
    ensures var r := NextClock(p, from);
      && (r.Some? ==> Fits(p, r.value) && AtMost(from, r.value))
      && forall t :: Fits(p, t) && AtMost(from, t) ==> r.Some? && AtMost(r.value, t)
  {
    if NextClock(p, from).Some? {
      NextClockFits(p, from);
    }
    forall t | Fits(p, t) && AtMost(from, t)
      ensures NextClock(p, from).Some? && AtMost(NextClock(p, from).value, t)
    {
      NextClockLeast(p, from, t);
    }
  }

  // ------------------------------------------------------------------------------------------
  // The next match
  // ------------------------------------------------------------------------------------------

  /** A date as the calendar gives it for a day number; -1 in a pattern matches everything. */
  datatype Date = Date(year: int, month: int, day: int, weekday: int)

  const WILDCARD: int := -1

  predicate MatchesDate(want: Date, d: Date) {
    && (want.year == WILDCARD || d.year == want.year)
    && (want.month == WILDCARD || d.month == want.month)
    && (want.day == WILDCARD || d.day == want.day)
    && (want.weekday == WILDCARD || d.weekday == want.weekday)
  }

  function Parts(d: Date): (fields: seq<int>) {
    [d.year, d.month, d.day, d.weekday]
  }

  /** The date agrees with the pattern in every field the pattern names. */
  ghost predicate FitsDate(want: Date, d: Date) {
    forall k :: 0 <= k < |Parts(want)| && Parts(want)[k] != WILDCARD ==> Parts(d)[k] == Parts(want)[k]
  }

  lemma DateFits(want: Date, d: Date)
    ensures MatchesDate(want, d) <==> FitsDate(want, d)
  {
    if FitsDate(want, d) {
      assert Parts(want)[0] == want.year && Parts(want)[1] == want.month;
      assert Parts(want)[2] == want.day && Parts(want)[3] == want.weekday;
    }
  }

  function TimeOf(sod: int): (t: Time)
    requires 0 <= sod < DAY
  {
    Time(sod / 3600, sod / 60 % 60, sod % 60)
  }

  function SecondOf(t: Time): (sod: int) {
    t.h * 3600 + t.m * 60 + t.s
  }

  lemma TimeRoundTrip(sod: int)
    requires 0 <= sod < DAY
    ensures SecondOf(TimeOf(sod)) == sod && 0 <= TimeOf(sod).h < 24 && 0 <= TimeOf(sod).m < 60
    ensures 0 <= TimeOf(sod).s < 60
  {
  }

  lemma TimeOrder(a: Time, b: Time)
    requires 0 <= a.m < 60 && 0 <= a.s < 60 && 0 <= b.m < 60 && 0 <= b.s < 60
    ensures AtMost(a, b) <==> SecondOf(a) <= SecondOf(b)
    ensures SecondOf(a) == SecondOf(b) <==> a == b
  {
  }

  /** The calendar: the date of each local day. */
  type Calendar = int -> Date

  /** An instant's local day and time of day, at an offset. */
  function DayOf(t: int, off: int): (d: int) {
    (t + off) / DAY
  }

  function ClockOf(t: int, off: int): (c: Time) {
    TimeOf((t + off) % DAY)
  }

  ghost predicate Matches(cal: Calendar, off: int, want: Date, p: Pattern, t: int) {
    FitsDate(want, cal(DayOf(t, off))) && Fits(p, ClockOf(t, off))
  }

  /** The instant a clock on a local day is. */
  function InstantOf(day: int, c: Time, off: int): (t: int) {
    day * DAY + SecondOf(c) - off
  }

  lemma InstantIs(day: int, c: Time, off: int)
    requires 0 <= c.h < 24 && 0 <= c.m < 60 && 0 <= c.s < 60
    ensures DayOf(InstantOf(day, c, off), off) == day && ClockOf(InstantOf(day, c, off), off) == c
  {
    var sod := SecondOf(c);
    DayDiv(day, sod);
    TimeRoundTrip(sod);
    TimeOrder(TimeOf(sod), c);
  }

  lemma DayDiv(day: int, sod: int)
    requires 0 <= sod < DAY
    ensures (day * DAY + sod) / DAY == day && (day * DAY + sod) % DAY == sod
  {
  }

  lemma InstantBack(t: int, off: int)
    ensures InstantOf(DayOf(t, off), ClockOf(t, off), off) == t
    ensures 0 <= ClockOf(t, off).h < 24 && 0 <= ClockOf(t, off).m < 60 && 0 <= ClockOf(t, off).s < 60
  {
    TimeRoundTrip((t + off) % DAY);
  }

  lemma LaterDay(a: int, b: int, off: int)
    ensures a <= b ==> DayOf(a, off) <= DayOf(b, off)
  {
  }

  /** On one local day instants are ordered as clocks; a later day is a later instant. */
  lemma DayThenClock(a: int, b: int, off: int)
    ensures a <= b <==>
      || DayOf(a, off) < DayOf(b, off)
      || (DayOf(a, off) == DayOf(b, off) && AtMost(ClockOf(a, off), ClockOf(b, off)))
  {
    InstantBack(a, off);
    InstantBack(b, off);
    TimeOrder(ClockOf(a, off), ClockOf(b, off));
  }

  /** Now is given in nanoseconds; the bound is the next whole second. */
  function LowerBound(now: int): (lb: int)
    ensures forall t :: t * SECOND > now <==> t >= lb
  {
    now / SECOND + 1
  }

  /** No instant past the bound matches on an earlier day. */
  ghost predicate NoneBefore(cal: Calendar, off: int, want: Date, p: Pattern, lb: int, day: int) {
    forall t :: t >= lb && Matches(cal, off, want, p, t) ==> DayOf(t, off) >= day
  }

  /** The answer of one day: its first clock that fits, past the bound if it is the bound's own day. */
  lemma DayAnswer(cal: Calendar, off: int, want: Date, p: Pattern, lb: int, n: nat, from: Time)
    requires PatternOk(p) && from == (if n == 0 then ClockOf(lb, off) else Time(0, 0, 0))
    requires NoneBefore(cal, off, want, p, lb, DayOf(lb, off) + n)
    ensures var day := DayOf(lb, off) + n; var c := NextClock(p, from);
      if MatchesDate(want, cal(day)) && c.Some? then
        var t := InstantOf(day, c.value, off);
        && t >= lb && DayOf(t, off) == day && Matches(cal, off, want, p, t)
        && forall u :: u >= lb && Matches(cal, off, want, p, u) ==> t <= u
      else NoneBefore(cal, off, want, p, lb, day + 1)
  {
    var day, c := DayOf(lb, off) + n, NextClock(p, from);
    DateFits(want, cal(day));
    NextClockIsLeast(p, from);
    InstantBack(lb, off);
    if c.Some? {
      InstantIs(day, c.value, off);
      DayThenClock(lb, InstantOf(day, c.value, off), off);
    }
    forall u | u >= lb && Matches(cal, off, want, p, u)
      ensures DayOf(u, off) == day ==> MatchesDate(want, cal(day)) && c.Some?
      ensures c.Some? ==> InstantOf(day, c.value, off) <= u
    {
      InstantBack(u, off);
      DayThenClock(lb, u, off);
      if c.Some? {
        DayThenClock(InstantOf(day, c.value, off), u, off);
      }
    }
  }

  /** nextMatch: the earliest whole-second instant strictly after now that fits the pattern, and
      nothing exactly when none does within the day horizon. */
  method NextMatch(cal: Calendar, off: int, want: Date, p: Pattern, now: int) returns (r: Option<int>)
    requires PatternOk(p)
    ensures r.Some? ==> r.value * SECOND > now && Matches(cal, off, want, p, r.value)
    ensures r.Some? ==> forall t :: t * SECOND > now && Matches(cal, off, want, p, t) ==> r.value <= t
    ensures r.Some? <==> exists t ::
      t * SECOND > now && Matches(cal, off, want, p, t) &&
        DayOf(t, off) <= DayOf(LowerBound(now), off) + MAX_PATTERN_DAYS
  {
    var lb := LowerBound(now);
    var first := DayOf(lb, off);
    forall t | t >= lb
      ensures DayOf(t, off) >= first
    {
      LaterDay(lb, t, off);
    }
    for n := 0 to MAX_PATTERN_DAYS + 1
      invariant NoneBefore(cal, off, want, p, lb, first + n)
    {
      var from := if n == 0 then ClockOf(lb, off) else Time(0, 0, 0);
      DayAnswer(cal, off, want, p, lb, n, from);
      if !MatchesDate(want, cal(first + n)) {
        continue;
      }
      var c := NextClock(p, from);
      if c.Some? {
        return Some(InstantOf(first + n, c.value, off));
      }
    }
    return None;
  }
}
