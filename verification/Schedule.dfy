/** When one contact may be dialled (internal/campaign/schedule.go). */
module Schedule {
  import opened Util
  import opened Intervals
  import opened WallClock

  const SCAN_DAYS := 10
  const MINUTES_PER_DAY := 1440
  const WEEKDAYS := ["MON", "TUE", "WED", "THU", "FRI", "SAT", "SUN"]

  /** A range within a day, in minutes since midnight; end 0 is unset. */
  datatype Range = Range(start: int, end: int)

  predicate IsRange(r: Range) {
    0 <= r.start < MINUTES_PER_DAY && 1 <= r.end <= MINUTES_PER_DAY && r.start != r.end
  }

  predicate CrossesMidnight(r: Range) { r.end < r.start }

  /** Days in the week's order, and ranges as dayrange.New read them: None is text it
      could not read. */
  datatype CallingWindow = CallingWindow(days: seq<string>, ranges: seq<Option<Range>>)

  datatype Schedule = Schedule(zone: Zone, window: CallingWindow, outer: Range)

  ghost predicate IsSchedule(s: Schedule) {
    && IsZone(s.zone)
    && (s.outer.end != 0 ==> IsRange(s.outer))
    && forall i :: 0 <= i < |s.window.ranges| && s.window.ranges[i].Some? ==> IsRange(s.window.ranges[i].value)
  }

  /** Days are numbered from 1 January 1970, a Thursday. */
  function WeekdayName(day: int): string { WEEKDAYS[(day + 3) % 7] }

  function DayOf(z: Zone, t: int): int { Local(z, t) / DAY }

  function Naive(day: int, minutes: int): int { day * DAY + minutes * MINUTE }

  function StartNaive(r: Range, day: int): int { Naive(day, r.start) }
  function EndNaive(r: Range, day: int): int { Naive(if CrossesMidnight(r) then day + 1 else day, r.end) }

  //
  // When the schedule is open.
  //

  /** x is in the range as it falls on the day, starting there. */
  ghost predicate OnDay(z: Zone, r: Range, day: int, x: int) {
    && (exists from :: IsWallTime(z, StartNaive(r, day), true, from) && from <= x)
    && (exists to :: IsWallTime(z, EndNaive(r, day), false, to) && x < to)
  }

  ghost predicate WindowOn(s: Schedule, day: int, x: int) {
    && WeekdayName(day) in s.window.days
    && exists i ::
         0 <= i < |s.window.ranges| && s.window.ranges[i].Some? && OnDay(s.zone, s.window.ranges[i].value, day, x)
  }

  /** x is in the window and in the outer hours of some of the days from lo until hi. */
  ghost predicate OpenWithin(s: Schedule, lo: int, hi: int, x: int) {
    && (exists day :: lo <= day < hi && WindowOn(s, day, x))
    && (s.outer.end == 0 || exists day :: lo <= day < hi && OnDay(s.zone, s.outer, day, x))
  }

  /** What the search from t sees. */
  ghost predicate Seen(s: Schedule, t: int, x: int) {
    OpenWithin(s, DayOf(s.zone, t) - 1, DayOf(s.zone, t) + SCAN_DAYS, x)
  }

  //
  // The search.
  //

  lemma WallTimeIsUnique(z: Zone, naive: int, isStart: bool, r: int, r': int)
    requires IsWallTime(z, naive, isStart, r) && IsWallTime(z, naive, isStart, r')
    ensures r == r'
  {
  }

  method RangeSpans(z: Zone, r: Range, day: int) returns (spans: seq<Interval>)
    ensures forall x :: Covers(spans, x) <==> OnDay(z, r, day, x)
  {
    var endDay := day;
    if CrossesMidnight(r) {
      endDay := endDay + 1;
    }
    var from := WallTime(z, Naive(day, r.start), true);
    var to := WallTime(z, Naive(endDay, r.end), false);
    forall x
      ensures OnDay(z, r, day, x) <==> from <= x < to
    {
      OnDayIsASpan(z, r, day, x, from, to);
    }
    if to <= from {
      return [];
    }
    spans := [Span(from, to)];
    forall x
      ensures Covers(spans, x) <==> from <= x < to
    {
      assert Has(spans[0], x) <==> from <= x < to;
    }
  }

  lemma OnDayIsASpan(z: Zone, r: Range, day: int, x: int, from: int, to: int)
    requires IsWallTime(z, StartNaive(r, day), true, from) && IsWallTime(z, EndNaive(r, day), false, to)
    ensures OnDay(z, r, day, x) <==> from <= x < to
  {
    forall from' | IsWallTime(z, StartNaive(r, day), true, from') ensures from' == from {
      WallTimeIsUnique(z, StartNaive(r, day), true, from, from');
    }
    forall to' | IsWallTime(z, EndNaive(r, day), false, to') ensures to' == to {
      WallTimeIsUnique(z, EndNaive(r, day), false, to, to');
    }
  }

  lemma CoversConcat(a: seq<Interval>, b: seq<Interval>, x: int)
    ensures Covers(a + b, x) <==> Covers(a, x) || Covers(b, x)
  {
    var all := a + b;
    if Covers(a, x) {
      var i :| 0 <= i < |a| && Has(a[i], x);
      assert Has(all[i], x);
    }
    if Covers(b, x) {
      var i :| 0 <= i < |b| && Has(b[i], x);
      assert Has(all[|a| + i], x);
    }
    if Covers(all, x) {
      var i :| 0 <= i < |all| && Has(all[i], x);
      assert Has(if i < |a| then a[i] else b[i - |a|], x);
    }
  }

  /** The day's window as spans. */
  method WindowSpans(s: Schedule, day: int) returns (spans: seq<Interval>)
    ensures forall x :: Covers(spans, x) <==> WindowOn(s, day, x)
  {
    spans := [];
    if WeekdayName(day) !in s.window.days {
      return;
    }
    for i := 0 to |s.window.ranges|
      invariant forall x :: Covers(spans, x) <==>
                  exists k :: 0 <= k < i && s.window.ranges[k].Some? && OnDay(s.zone, s.window.ranges[k].value, day, x)
    {
      var parsed := s.window.ranges[i];
      if parsed.Some? {
        var more := RangeSpans(s.zone, parsed.value, day);
        forall x ensures Covers(spans + more, x) <==> Covers(spans, x) || Covers(more, x) {
          CoversConcat(spans, more, x);
        }
        spans := spans + more;
      }
    }
  }

  /** The spans the schedule is open for around t, in canonical form. */
  method Spans(s: Schedule, t: int) returns (spans: seq<Interval>)
    ensures Canonical(spans) && forall x :: Covers(spans, x) <==> Seen(s, t, x)
  {
    var today := DayOf(s.zone, t);
    var windows: seq<Interval>, outers: seq<Interval> := [], [];
    for i := -1 to SCAN_DAYS
      invariant forall x :: Covers(windows, x) <==> exists day :: today - 1 <= day < today + i && WindowOn(s, day, x)
      invariant s.outer.end != 0 ==>
                  forall x :: Covers(outers, x) <==>
                    exists day :: today - 1 <= day < today + i && OnDay(s.zone, s.outer, day, x)
    {
      if s.outer.end != 0 {
        var more := RangeSpans(s.zone, s.outer, today + i);
        forall x ensures Covers(outers + more, x) <==> Covers(outers, x) || Covers(more, x) {
          CoversConcat(outers, more, x);
        }
        outers := outers + more;
      }
      var open := WindowSpans(s, today + i);
      forall x ensures Covers(windows + open, x) <==> Covers(windows, x) || Covers(open, x) {
        CoversConcat(windows, open, x);
      }
      windows := windows + open;
    }
    if s.outer.end != 0 {
      var merged := Merge(outers);
      windows := Intersect(windows, merged);
    }
    spans := Merge(windows);
  }

  method IsOpen(s: Schedule, t: int) returns (isOpen: bool)
    ensures isOpen <==> Seen(s, t, t)
  {
    var spans := Spans(s, t);
    for i := 0 to |spans|
      invariant forall k :: 0 <= k < i ==> !Has(spans[k], t)
    {
      if spans[i].from <= t && t < spans[i].to {
        assert Has(spans[i], t);
        return true;
      }
    }
    return false;
  }

  /** u is where the schedule, as seen from t, opens. */
  ghost predicate OpensAt(s: Schedule, t: int, u: int) { Seen(s, t, u) && !Seen(s, t, u - 1) }

  ghost predicate FirstOpening(s: Schedule, t: int, r: Option<int>) {
    match r
    case Some(u) => t < u && OpensAt(s, t, u) && forall v :: t < v < u ==> !OpensAt(s, t, v)
    case None => forall v :: t < v ==> !OpensAt(s, t, v)
  }

  /** In canonical form the openings are the starts of the spans. */
  lemma OpeningsAreStarts(spans: seq<Interval>, u: int)
    requires Canonical(spans)
    ensures Covers(spans, u) && !Covers(spans, u - 1) <==> exists i :: 0 <= i < |spans| && spans[i].from == u
  {
    if i :| 0 <= i < |spans| && spans[i].from == u {
      assert Has(spans[i], u);
      assert forall k :: 0 <= k < |spans| ==> !Has(spans[k], u - 1);
    }
    if Covers(spans, u) && !Covers(spans, u - 1) {
      var i :| 0 <= i < |spans| && Has(spans[i], u);
      assert !Has(spans[i], u - 1);
    }
  }

  method NextStart(s: Schedule, t: int) returns (r: Option<int>)
    ensures FirstOpening(s, t, r)
  {
    var spans := Spans(s, t);
    forall u
      ensures OpensAt(s, t, u) <==> exists i :: 0 <= i < |spans| && spans[i].from == u
    {
      OpeningsAreStarts(spans, u);
      assert (Covers(spans, u) <==> Seen(s, t, u)) && (Covers(spans, u - 1) <==> Seen(s, t, u - 1));
    }
    for i := 0 to |spans|
      invariant forall k :: 0 <= k < i ==> spans[k].from <= t
    {
      if spans[i].from > t {
        return Some(spans[i].from);
      }
    }
    return None;
  }

  /** r is the least instant not before t the search from t sees open, if any. */
  ghost predicate IsNextOpen(s: Schedule, t: int, r: Option<int>) {
    match r
    case Some(u) => t <= u && Seen(s, t, u) && forall x :: t <= x < u ==> !Seen(s, t, x)
    case None => forall x :: t <= x ==> !Seen(s, t, x)
  }

  /** Between a closed instant and an open one the schedule opens. */
  lemma {:induction false} OpensBetween(s: Schedule, t: int, x: int)
    requires t <= x && !Seen(s, t, t) && Seen(s, t, x)
    ensures exists v :: t < v <= x && OpensAt(s, t, v)
    decreases x - t
  {
    if Seen(s, t, x - 1) {
      OpensBetween(s, t, x - 1);
    } else {
      assert OpensAt(s, t, x);
    }
  }

  method NextOpen(s: Schedule, t: int) returns (r: Option<int>)
    ensures IsNextOpen(s, t, r)
  {
    var isOpen := IsOpen(s, t);
    if isOpen {
      return Some(t);
    }
    r := NextStart(s, t);
    forall x | t <= x && Seen(s, t, x)
      ensures r.Some? && r.value <= x
    {
      OpensBetween(s, t, x);
    }
  }
}
