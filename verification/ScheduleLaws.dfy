/** What the schedule's search means where the zone's offset does not change. */
module ScheduleLaws {
  import opened Util
  import opened WallClock
  import opened Schedule

  //
  // The calendar.
  //

  /** The week, from the weekday of 1 January 1970 on. */
  const FROM_THURSDAY := ["THU", "FRI", "SAT", "SUN", "MON", "TUE", "WED"]

  /** The day is so many whole weeks and k days after 1 January 1970, and k days after a
      Thursday is a name. */
  ghost predicate IsNamed(day: int, name: string) {
    exists weeks: int, k: nat :: IsWeekday(day, weeks, k) && name == FROM_THURSDAY[k]
  }

  predicate IsWeekday(day: int, weeks: int, k: nat) { k < 7 && day == 7 * weeks + k }

  const TOMORROW: map<string, string> :=
    map["MON" := "TUE", "TUE" := "WED", "WED" := "THU", "THU" := "FRI", "FRI" := "SAT", "SAT" := "SUN", "SUN" := "MON"]

  /** 1 January 1970 is a Thursday; and every day has one name, tomorrow the next one, and in
      seven days the same again. */
  lemma TheCalendar(day: int)
    ensures WeekdayName(0) == "THU" && IsNamed(0, "THU")
    ensures var name := WeekdayName(day);
            && IsNamed(day, name) && (forall other :: IsNamed(day, other) ==> other == name)
            && name in TOMORROW && WeekdayName(day + 1) == TOMORROW[name]
            && WeekdayName(day + 7) == name
  {
    NamedByWeekday(0, "THU");
    forall name
      ensures IsNamed(day, name) <==> WeekdayName(day) == name
    {
      NamedByWeekday(day, name);
    }
    TomorrowFollows(day);
  }

  lemma TomorrowFollows(day: int)
    ensures var name := WeekdayName(day);
            name in TOMORROW && WeekdayName(day + 1) == TOMORROW[name] && WeekdayName(day + 7) == name
  {
    var k := (day + 3) % 7;
    assert (day + 1 + 3) % 7 == (if k == 6 then 0 else k + 1);
    assert (day + 7 + 3) % 7 == k;
  }

  /** The code's name of a day is its only name. */
  lemma NamedByWeekday(day: int, name: string)
    ensures IsNamed(day, name) <==> WeekdayName(day) == name
    ensures IsNamed(day, name) <==> name == FROM_THURSDAY[day % 7]
  {
    assert IsWeekday(day, day / 7, day % 7);
    if IsNamed(day, name) {
      var weeks: int, k: nat :| IsWeekday(day, weeks, k) && name == FROM_THURSDAY[k];
      assert weeks == day / 7 && k == day % 7;
    }
    assert (day + 3) % 7 == (day % 7 + 3) % 7;
  }

  /** The window is open on the day's name. */
  ghost predicate IsWindowDay(w: CallingWindow, day: int) { exists name :: name in w.days && IsNamed(day, name) }

  lemma WindowDays(w: CallingWindow, day: int)
    ensures IsWindowDay(w, day) <==> WeekdayName(day) in w.days
  {
    NamedByWeekday(day, WeekdayName(day));
    if IsWindowDay(w, day) {
      var name :| name in w.days && IsNamed(day, name);
      NamedByWeekday(day, name);
    }
  }

  //
  // Open, in terms of what the wall clock reads.
  //

  /** The date y is on, and the time since its midnight. */
  function DateOf(y: int): int { y / DAY }
  function TimeOfDay(y: int): int { y % DAY }

  /** y on the wall clock is in the range that starts on the day: from its start to its end
      on that date, or from its start to midnight and on the next date until its end. */
  predicate InRange(r: Range, day: int, y: int) {
    if r.start < r.end then DateOf(y) == day && r.start * MINUTE <= TimeOfDay(y) < r.end * MINUTE
    else
      || (DateOf(y) == day && r.start * MINUTE <= TimeOfDay(y))
      || (DateOf(y) == day + 1 && TimeOfDay(y) < r.end * MINUTE)
  }

  /** The code's bounds say the same. */
  lemma RangeBounds(r: Range, day: int, y: int)
    requires IsRange(r)
    ensures InRange(r, day, y) <==> StartNaive(r, day) <= y < EndNaive(r, day)
  {
    assert y == DateOf(y) * DAY + TimeOfDay(y) && 0 <= TimeOfDay(y) < DAY;
    assert r.end * MINUTE <= DAY;
  }

  ghost predicate WindowHolds(s: Schedule, day: int, y: int) {
    && IsWindowDay(s.window, day)
    && exists i :: 0 <= i < |s.window.ranges| && s.window.ranges[i].Some? && InRange(s.window.ranges[i].value, day, y)
  }

  /** The window of some day holds the wall time y, and so do the outer hours of some day. */
  ghost predicate OpenAt(s: Schedule, y: int) {
    && (exists day :: WindowHolds(s, day, y))
    && (s.outer.end == 0 || exists day :: InRange(s.outer, day, y))
  }

  /** A range holds times of the day it starts on and of the next. */
  lemma RangeSpansTwoDays(r: Range, day: int, y: int)
    requires IsRange(r) && InRange(r, day, y)
    ensures y / DAY - 1 <= day <= y / DAY
  {
  }

  /** The offset is off for long enough around t. */
  ghost predicate FixedAround(z: Zone, t: int, off: int) {
    && IsZone(z) && -DAY < off < DAY && off % MINUTE == 0
    && forall u :: t - 5 * DAY <= u <= t + 14 * DAY ==> Offset(z, u) == off
  }

  lemma {:induction false} LeastExists(s: set<int>)
    requires s != {}
    ensures exists x :: IsLeast(s, x)
    ensures exists x :: IsGreatest(s, x)
    decreases |s|
  {
    var x := Any(s);
    if s == {x} {
      assert IsLeast(s, x) && IsGreatest(s, x);
    } else {
      var rest := s - {x};
      assert rest != {} by {
        assert s != {x};
        assert x in s && rest + {x} == s;
      }
      LeastExists(rest);
      var lo :| IsLeast(rest, lo);
      var hi :| IsGreatest(rest, hi);
      assert forall y :: y in s ==> y == x || y in rest;
      assert IsLeast(s, if x < lo then x else lo);
      assert IsGreatest(s, if x > hi then x else hi);
    }
  }

  lemma WallTimeExists(z: Zone, naive: int, isStart: bool)
    ensures exists r :: IsWallTime(z, naive, isStart, r)
  {
    if Found(z, naive) == {} {
      assert IsWallTime(z, naive, isStart, Edge(z, naive));
    } else {
      LeastExists(Found(z, naive));
      var lo :| IsLeast(Found(z, naive), lo);
      var hi :| IsGreatest(Found(z, naive), hi);
      assert IsWallTime(z, naive, isStart, if isStart then lo else hi);
    }
  }

  lemma NaiveIsNear(z: Zone, t: int, off: int, day: int, minutes: int)
    requires FixedAround(z, t, off) && 0 <= minutes <= MINUTES_PER_DAY
    requires DayOf(z, t) - 1 <= day <= DayOf(z, t) + SCAN_DAYS
    ensures var naive := Naive(day, minutes);
            naive % MINUTE == 0 && t - 5 * DAY <= naive - DAY && naive + DAY <= t + 14 * DAY
  {
    assert Local(z, t) == t + off;
    assert Naive(day, minutes) == (day * MINUTES_PER_DAY + minutes) * MINUTE;
  }

  /** On every day the search scans, a range holds an instant exactly when it holds what
      the wall clock reads there. */
  lemma FixedOnDay(z: Zone, r: Range, day: int, t: int, x: int, off: int)
    requires FixedAround(z, t, off) && IsRange(r)
    requires DayOf(z, t) - 1 <= day < DayOf(z, t) + SCAN_DAYS
    ensures OnDay(z, r, day, x) <==> InRange(r, day, x + off)
  {
    var n1, n2 := StartNaive(r, day), EndNaive(r, day);
    WallTimeExists(z, n1, true);
    WallTimeExists(z, n2, false);
    var from :| IsWallTime(z, n1, true, from);
    var to :| IsWallTime(z, n2, false, to);
    NaiveIsNear(z, t, off, day, r.start);
    NaiveIsNear(z, t, off, if CrossesMidnight(r) then day + 1 else day, r.end);
    FixedOffset(z, n1, off, true, from);
    FixedOffset(z, n2, off, false, to);
    OnDayIsASpan(z, r, day, x, from, to);
    RangeBounds(r, day, x + off);
  }

  lemma FixedWindow(s: Schedule, day: int, t: int, x: int, off: int)
    requires FixedAround(s.zone, t, off) && IsSchedule(s)
    requires DayOf(s.zone, t) - 1 <= day < DayOf(s.zone, t) + SCAN_DAYS
    ensures WindowOn(s, day, x) <==> WindowHolds(s, day, x + off)
  {
    WindowDays(s.window, day);
    forall i | 0 <= i < |s.window.ranges| && s.window.ranges[i].Some?
      ensures OnDay(s.zone, s.window.ranges[i].value, day, x) <==> InRange(s.window.ranges[i].value, day, x + off)
    {
      FixedOnDay(s.zone, s.window.ranges[i].value, day, t, x, off);
    }
  }

  /** What the search sees open is open; and up to the last day it scans, what is open is
      seen. */
  lemma SeenIsOpen(s: Schedule, t: int, x: int, off: int)
    requires FixedAround(s.zone, t, off) && IsSchedule(s)
    ensures Seen(s, t, x) ==> OpenAt(s, x + off)
    ensures OpenAt(s, x + off) && DayOf(s.zone, t) <= (x + off) / DAY < DayOf(s.zone, t) + SCAN_DAYS ==> Seen(s, t, x)
  {
    var today := DayOf(s.zone, t);
    if Seen(s, t, x) {
      var day :| today - 1 <= day < today + SCAN_DAYS && WindowOn(s, day, x);
      FixedWindow(s, day, t, x, off);
      if s.outer.end != 0 {
        var outerDay :| today - 1 <= outerDay < today + SCAN_DAYS && OnDay(s.zone, s.outer, outerDay, x);
        FixedOnDay(s.zone, s.outer, outerDay, t, x, off);
      }
    }
    if OpenAt(s, x + off) && today <= (x + off) / DAY < today + SCAN_DAYS {
      var day :| WindowHolds(s, day, x + off);
      var i :| && 0 <= i < |s.window.ranges| && s.window.ranges[i].Some?
               && InRange(s.window.ranges[i].value, day, x + off);
      RangeSpansTwoDays(s.window.ranges[i].value, day, x + off);
      FixedWindow(s, day, t, x, off);
      if s.outer.end != 0 {
        var outerDay :| InRange(s.outer, outerDay, x + off);
        RangeSpansTwoDays(s.outer, outerDay, x + off);
        FixedOnDay(s.zone, s.outer, outerDay, t, x, off);
      }
    }
  }

  /** IsOpen holds exactly when what the wall clock reads is open. */
  lemma IsOpenMeansOpen(s: Schedule, t: int, off: int)
    requires FixedAround(s.zone, t, off) && IsSchedule(s)
    ensures Seen(s, t, t) <==> OpenAt(s, Local(s.zone, t))
  {
    SeenIsOpen(s, t, t, off);
  }

  lemma InRangeBeforeMidnight(r: Range, day: int, midnight: int, y: int)
    requires IsRange(r) && InRange(r, day, y) && day < midnight && midnight * DAY < y
    ensures InRange(r, day, midnight * DAY - 1)
  {
    RangeBounds(r, day, y);
    RangeBounds(r, day, midnight * DAY - 1);
    assert (day + 1) * DAY <= midnight * DAY;
  }

  /** The last instant before the last midnight the search scans to. */
  function LastInstant(s: Schedule, t: int, off: int): int { (DayOf(s.zone, t) + SCAN_DAYS) * DAY - off - 1 }

  predicate IsScanned(s: Schedule, t: int, day: int) {
    DayOf(s.zone, t) - 1 <= day < DayOf(s.zone, t) + SCAN_DAYS
  }

  lemma RangeOpenBeforeMidnight(s: Schedule, r: Range, day: int, t: int, u: int, off: int)
    requires FixedAround(s.zone, t, off) && IsRange(r) && IsScanned(s, t, day)
    requires OnDay(s.zone, r, day, u) && LastInstant(s, t, off) + 1 < u
    ensures OnDay(s.zone, r, day, LastInstant(s, t, off))
  {
    FixedOnDay(s.zone, r, day, t, u, off);
    InRangeBeforeMidnight(r, day, DayOf(s.zone, t) + SCAN_DAYS, u + off);
    FixedOnDay(s.zone, r, day, t, LastInstant(s, t, off), off);
  }

  lemma WindowOpenBeforeMidnight(s: Schedule, day: int, t: int, u: int, off: int)
    requires FixedAround(s.zone, t, off) && IsSchedule(s) && IsScanned(s, t, day)
    requires WindowOn(s, day, u) && LastInstant(s, t, off) + 1 < u
    ensures WindowOn(s, day, LastInstant(s, t, off))
  {
    var i :| && 0 <= i < |s.window.ranges| && s.window.ranges[i].Some?
             && OnDay(s.zone, s.window.ranges[i].value, day, u);
    RangeOpenBeforeMidnight(s, s.window.ranges[i].value, day, t, u, off);
  }

  /** The window of some scanned day holds x, */
  ghost predicate WindowSeen(s: Schedule, t: int, x: int) {
    exists day :: IsScanned(s, t, day) && WindowOn(s, day, x)
  }

  /** and so do the outer hours of one. */
  ghost predicate OuterSeen(s: Schedule, t: int, x: int) {
    exists day :: IsScanned(s, t, day) && OnDay(s.zone, s.outer, day, x)
  }

  lemma SeenByParts(s: Schedule, t: int, x: int)
    ensures Seen(s, t, x) <==> WindowSeen(s, t, x) && (s.outer.end == 0 || OuterSeen(s, t, x))
  {
    if Seen(s, t, x) {
      var lo, hi := DayOf(s.zone, t) - 1, DayOf(s.zone, t) + SCAN_DAYS;
      var day :| lo <= day < hi && WindowOn(s, day, x);
      assert IsScanned(s, t, day);
      if s.outer.end != 0 {
        var outerDay :| lo <= outerDay < hi && OnDay(s.zone, s.outer, outerDay, x);
        assert IsScanned(s, t, outerDay);
      }
    }
  }

  lemma WindowSeenBeforeMidnight(s: Schedule, t: int, u: int, off: int)
    requires FixedAround(s.zone, t, off) && IsSchedule(s)
    ensures WindowSeen(s, t, u) && LastInstant(s, t, off) + 1 < u ==> WindowSeen(s, t, LastInstant(s, t, off))
  {
    if WindowSeen(s, t, u) && LastInstant(s, t, off) + 1 < u {
      var day :| IsScanned(s, t, day) && WindowOn(s, day, u);
      WindowOpenBeforeMidnight(s, day, t, u, off);
    }
  }

  lemma OuterSeenBeforeMidnight(s: Schedule, t: int, u: int, off: int)
    requires FixedAround(s.zone, t, off) && IsSchedule(s) && s.outer.end != 0
    ensures OuterSeen(s, t, u) && LastInstant(s, t, off) + 1 < u ==> OuterSeen(s, t, LastInstant(s, t, off))
  {
    if OuterSeen(s, t, u) && LastInstant(s, t, off) + 1 < u {
      var day :| IsScanned(s, t, day) && OnDay(s.zone, s.outer, day, u);
      RangeOpenBeforeMidnight(s, s.outer, day, t, u, off);
    }
  }

  /** What the search sees open past the last midnight it scans to, it sees open just
      before it. */
  lemma OpenBeforeMidnight(s: Schedule, t: int, u: int, off: int)
    requires FixedAround(s.zone, t, off) && IsSchedule(s)
    ensures Seen(s, t, u) && LastInstant(s, t, off) + 1 < u ==> Seen(s, t, LastInstant(s, t, off))
  {
    SeenByParts(s, t, u);
    SeenByParts(s, t, LastInstant(s, t, off));
    WindowSeenBeforeMidnight(s, t, u, off);
    if s.outer.end != 0 {
      OuterSeenBeforeMidnight(s, t, u, off);
    }
  }

  lemma ScanReachesAhead(s: Schedule, t: int, off: int)
    requires FixedAround(s.zone, t, off)
    ensures t <= LastInstant(s, t, off)
  {
    assert Local(s.zone, t) == t + off;
  }

  /** So what it finds first is no later than that midnight. */
  lemma FoundBeforeMidnight(s: Schedule, t: int, u: int, off: int)
    requires FixedAround(s.zone, t, off) && IsSchedule(s) && IsNextOpen(s, t, Some(u))
    ensures t <= LastInstant(s, t, off) && u <= LastInstant(s, t, off) + 1
  {
    ScanReachesAhead(s, t, off);
    OpenBeforeMidnight(s, t, u, off);
  }

  lemma UnseenIsClosed(s: Schedule, t: int, x: int, off: int)
    requires FixedAround(s.zone, t, off) && IsSchedule(s) && !Seen(s, t, x)
    requires t <= x && x + off < (DayOf(s.zone, t) + SCAN_DAYS) * DAY
    ensures !OpenAt(s, x + off)
  {
    assert Local(s.zone, t) == t + off;
    assert DayOf(s.zone, t) <= (x + off) / DAY < DayOf(s.zone, t) + SCAN_DAYS;
    SeenIsOpen(s, t, x, off);
  }

  /** NextOpen is the least open instant not before t, */
  lemma NextOpenIsTheLeastOpen(s: Schedule, t: int, u: int, off: int)
    requires FixedAround(s.zone, t, off) && IsSchedule(s) && IsNextOpen(s, t, Some(u))
    ensures t <= u && OpenAt(s, u + off)
    ensures forall y :: t + off <= y < u + off ==> !OpenAt(s, y)
  {
    SeenIsOpen(s, t, u, off);
    FoundBeforeMidnight(s, t, u, off);
    forall y | t + off <= y < u + off
      ensures !OpenAt(s, y)
    {
      UnseenIsClosed(s, t, y - off, off);
    }
  }

  /** and open when asked again from that instant's own date. */
  lemma NextOpenIsOpen(s: Schedule, t: int, u: int, off: int)
    requires FixedAround(s.zone, t, off) && FixedAround(s.zone, u, off) && IsSchedule(s) && IsNextOpen(s, t, Some(u))
    ensures Seen(s, u, u)
  {
    SeenIsOpen(s, t, u, off);
    assert Local(s.zone, u) == u + off;
    SeenIsOpen(s, u, u, off);
  }

  //
  // When nothing opens.
  //

  lemma RangesAreWeekly(r: Range, day: int, y: int, weeks: int)
    requires InRange(r, day, y)
    ensures InRange(r, day + 7 * weeks, y + 7 * DAY * weeks)
  {
    assert DateOf(y + 7 * DAY * weeks) == DateOf(y) + 7 * weeks;
    assert TimeOfDay(y + 7 * DAY * weeks) == TimeOfDay(y);
  }

  lemma WeekdaysAreWeekly(w: CallingWindow, day: int, weeks: int)
    requires IsWindowDay(w, day)
    ensures IsWindowDay(w, day + 7 * weeks)
  {
    var name :| name in w.days && IsNamed(day, name);
    var n: int, k: nat :| IsWeekday(day, n, k) && name == FROM_THURSDAY[k];
    assert IsWeekday(day + 7 * weeks, n + weeks, k);
  }

  lemma OpenIsWeekly(s: Schedule, y: int, weeks: int)
    requires OpenAt(s, y)
    ensures OpenAt(s, y + 7 * DAY * weeks)
  {
    var day :| WindowHolds(s, day, y);
    var i :| 0 <= i < |s.window.ranges| && s.window.ranges[i].Some? && InRange(s.window.ranges[i].value, day, y);
    var day' := day + 7 * weeks;
    RangesAreWeekly(s.window.ranges[i].value, day, y, weeks);
    WeekdaysAreWeekly(s.window, day, weeks);
    assert WindowHolds(s, day', y + 7 * DAY * weeks);
    if s.outer.end != 0 {
      var outerDay :| InRange(s.outer, outerDay, y);
      RangesAreWeekly(s.outer, outerDay, y, weeks);
    }
  }

  /** Whole weeks bring any wall time into the days the search scans. */
  lemma WeeksToScan(today: int, y: int) returns (weeks: int)
    ensures today < (y + 7 * DAY * weeks) / DAY < today + SCAN_DAYS
  {
    weeks := (today + 7 - y / DAY) / 7;
    assert (y + 7 * DAY * weeks) / DAY == y / DAY + 7 * weeks;
  }

  lemma OpenOnceIsSeen(s: Schedule, t: int, y: int, off: int)
    requires FixedAround(s.zone, t, off) && IsSchedule(s) && OpenAt(s, y)
    ensures exists x :: t <= x && Seen(s, t, x)
  {
    var weeks := WeeksToScan(DayOf(s.zone, t), y);
    OpenIsWeekly(s, y, weeks);
    OpenAheadIsSeen(s, t, y + 7 * DAY * weeks - off, off);
  }

  lemma OpenAheadIsSeen(s: Schedule, t: int, x: int, off: int)
    requires FixedAround(s.zone, t, off) && IsSchedule(s) && OpenAt(s, x + off)
    requires DayOf(s.zone, t) < (x + off) / DAY < DayOf(s.zone, t) + SCAN_DAYS
    ensures t <= x && Seen(s, t, x)
  {
    assert Local(s.zone, t) == t + off;
    SeenIsOpen(s, t, x, off);
  }

  /** The search comes back empty exactly when no wall time at all is open. */
  lemma NothingFoundMeansNeverOpen(s: Schedule, t: int, r: Option<int>, off: int)
    requires FixedAround(s.zone, t, off) && IsSchedule(s) && IsNextOpen(s, t, r)
    ensures r.None? <==> forall y :: !OpenAt(s, y)
  {
    if r.Some? {
      SeenIsOpen(s, t, r.value, off);
    } else {
      forall y
        ensures !OpenAt(s, y)
      {
        if OpenAt(s, y) {
          OpenOnceIsSeen(s, t, y, off);
        }
      }
    }
  }
}
