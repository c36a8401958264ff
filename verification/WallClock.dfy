/** Wall-clock times as instants (wallClock in internal/campaign/schedule.go). Instants
    and naive times are nanoseconds; a naive time is what a wall clock reads, as if it
    were UTC. */
module WallClock {
  import opened Util

  const SECOND := 1_000_000_000
  const MINUTE := 60 * SECOND
  const DAY := 1440 * MINUTE

  /** The zero time, 1 January of year 1: what an edge that does not exist reads as. */
  const ZERO_TIME := -62_135_596_800 * SECOND

  /** From the instant at on, the zone's clock is offset ahead of UTC. */
  datatype Transition = Transition(at: int, offset: int)

  /** A zone: its transitions in order, the offset before the first, and which instant the
      time library picks for a wall time the clock skips. */
  datatype Zone = Zone(first: int, transitions: seq<Transition>, date: int -> int)

  ghost predicate IsZone(z: Zone) {
    && z.first % MINUTE == 0
    && (forall i :: 0 <= i < |z.transitions| ==> z.transitions[i].offset % MINUTE == 0)
    && (forall i, j :: 0 <= i < j < |z.transitions| ==> z.transitions[i].at < z.transitions[j].at)
  }

  function OffsetOf(first: int, ts: seq<Transition>, t: int): int
    decreases |ts|
  {
    if ts == [] then first
    else if ts[|ts| - 1].at <= t then ts[|ts| - 1].offset
    else OffsetOf(first, ts[..|ts| - 1], t)
  }

  function Offset(z: Zone, t: int): int { OffsetOf(z.first, z.transitions, t) }

  /** What the wall clock reads at t. */
  function Local(z: Zone, t: int): int { t + Offset(z, t) }

  ghost predicate IsEdge(ts: seq<Transition>, at: int) { exists i :: 0 <= i < |ts| && ts[i].at == at }

  /** The last transition at or before t. */
  function StartOf(ts: seq<Transition>, t: int): Option<int>
    decreases |ts|
  {
    if ts == [] then None
    else if ts[|ts| - 1].at <= t then Some(ts[|ts| - 1].at)
    else StartOf(ts[..|ts| - 1], t)
  }

  /** The first transition after t. */
  function EndOf(ts: seq<Transition>, t: int): Option<int>
    decreases |ts|
  {
    if ts == [] then None
    else if ts[0].at > t then Some(ts[0].at)
    else EndOf(ts[1..], t)
  }

  /** The wall clock reads the same minute at t as the naive time does. */
  predicate Reads(z: Zone, t: int, naive: int) { Local(z, t) / MINUTE == naive / MINUTE }

  /** The instants the wanted wall time is looked for at. */
  function Probes(z: Zone, naive: int): seq<int> {
    [naive - Offset(z, naive - DAY), naive - Offset(z, naive), naive - Offset(z, naive + DAY)]
  }

  function Found(z: Zone, naive: int): set<int> {
    set t | t in Probes(z, naive) && Reads(z, t, naive)
  }

  /** The edge nearest to the instant the library picked. */
  function Edge(z: Zone, naive: int): int {
    var guess := z.date(naive);
    match (StartOf(z.transitions, guess), EndOf(z.transitions, guess))
    case (None, None) => ZERO_TIME
    case (None, Some(end)) => end
    case (Some(start), None) => start
    case (Some(start), Some(end)) => if guess - start <= end - guess then start else end
  }

  ghost predicate IsLeast(s: set<int>, x: int) { x in s && forall y :: y in s ==> x <= y }
  ghost predicate IsGreatest(s: set<int>, x: int) { x in s && forall y :: y in s ==> y <= x }

  /** What wallClock returns, in terms of the code: r is the first or last candidate or,
      with none, the edge. */
  ghost predicate IsWallTime(z: Zone, naive: int, isStart: bool, r: int) {
    var found := Found(z, naive);
    if found == {} then r == Edge(z, naive) else if isStart then IsLeast(found, r) else IsGreatest(found, r)
  }

  lemma EndsOfSorted(s: seq<int>, sorted: seq<int>)
    requires s != [] && multiset(sorted) == multiset(s) && Ascending(sorted, (t: int) => t)
    ensures sorted != [] && sorted[0] in s && sorted[|sorted| - 1] in s
    ensures forall t :: t in s ==> sorted[0] <= t <= sorted[|sorted| - 1]
  {
    assert |multiset(sorted)| == |multiset(s)|;
    assert sorted[0] in multiset(s) && sorted[|sorted| - 1] in multiset(s);
    forall t | t in s
      ensures sorted[0] <= t <= sorted[|sorted| - 1]
    {
      assert t in multiset(sorted);
    }
  }

  /** wallClock. The offsets come out of a map, in any order: the result does not depend
      on it. */
  method WallTime(z: Zone, naive: int, isStart: bool) returns (r: int)
    ensures IsWallTime(z, naive, isStart, r)
  {
    var offsets := {Offset(z, naive - DAY), Offset(z, naive), Offset(z, naive + DAY)};
    var candidates: seq<int> := [];
    var rest := offsets;
    while rest != {}
      invariant rest <= offsets
      invariant forall t :: t in candidates <==> Reads(z, t, naive) && (naive - t) in offsets - rest
      decreases |rest|
    {
      var off := Pick(rest);
      rest := rest - {off};
      var inst := naive - off;
      if Reads(z, inst, naive) {
        candidates := candidates + [inst];
      }
    }
    assert forall t :: t in candidates <==> t in Found(z, naive);
    if |candidates| > 0 {
      var sorted := SortBy(candidates, (t: int) => t);
      EndsOfSorted(candidates, sorted);
      return if isStart then sorted[0] else sorted[|sorted| - 1];
    }
    assert Found(z, naive) == {};
    var guess := z.date(naive);
    var zoneStart, zoneEnd := StartOf(z.transitions, guess), EndOf(z.transitions, guess);
    if zoneStart.None? {
      return if zoneEnd.None? then ZERO_TIME else zoneEnd.value;
    }
    if zoneEnd.None? {
      return zoneStart.value;
    }
    if guess - zoneStart.value <= zoneEnd.value - guess {
      return zoneStart.value;
    }
    return zoneEnd.value;
  }

  //
  // What it means.
  //

  /** Within a day of naive either way the zone has at most one transition, at T, from
      offset a to offset b. */
  ghost predicate OneTransition(z: Zone, naive: int, T: int, a: int, b: int) {
    && -DAY <= a <= DAY && -DAY <= b <= DAY && a % MINUTE == 0 && b % MINUTE == 0
    && forall t :: naive - DAY <= t <= naive + DAY ==> Offset(z, t) == if t < T then a else b
  }

  /** Every offset of the zone is less than a day. */
  ghost predicate IsEarthly(z: Zone) { forall t :: -DAY < Offset(z, t) < DAY }

  /** The candidates are all the instants at which the wall clock reads the time. */
  lemma EveryReadingIsFound(z: Zone, naive: int, T: int, a: int, b: int)
    requires OneTransition(z, naive, T, a, b) && naive % MINUTE == 0
    ensures forall t :: t in Found(z, naive) <==> naive - DAY <= t <= naive + DAY && Local(z, t) == naive
  {
    forall t | t in Probes(z, naive)
      ensures naive - DAY <= t <= naive + DAY && (Reads(z, t, naive) <==> Local(z, t) == naive)
    {
      ReadsExactly(z, naive - t, naive);
    }
    forall t | naive - DAY <= t <= naive + DAY && Local(z, t) == naive
      ensures t in Found(z, naive)
    {
      OffsetsAreProbed(z, naive, T, a, b, t);
    }
  }

  lemma WholeMinutes(x: int, y: int)
    requires x % MINUTE == 0 && y % MINUTE == 0
    ensures x / MINUTE == y / MINUTE <==> x == y
  {
    assert x == MINUTE * (x / MINUTE) && y == MINUTE * (y / MINUTE);
  }

  lemma ReadsExactly(z: Zone, off: int, naive: int)
    requires naive % MINUTE == 0 && off % MINUTE == 0 && Offset(z, naive - off) % MINUTE == 0
    ensures Reads(z, naive - off, naive) <==> Local(z, naive - off) == naive
  {
    WholeMinutes(Local(z, naive - off), naive);
  }

  lemma OffsetsAreProbed(z: Zone, naive: int, T: int, a: int, b: int, t: int)
    requires OneTransition(z, naive, T, a, b) && naive - DAY <= t <= naive + DAY
    ensures naive - Offset(z, t) in Probes(z, naive)
  {
    var probes := Probes(z, naive);
    if t < T {
      assert probes[0] == naive - a;
    } else {
      assert probes[2] == naive - b;
    }
  }

  ghost predicate Ordered(ts: seq<Transition>) { forall i, j :: 0 <= i < j < |ts| ==> ts[i].at < ts[j].at }

  lemma {:induction false} StartOfIsTheLast(ts: seq<Transition>, t: int)
    requires Ordered(ts)
    ensures match StartOf(ts, t)
            case None => forall at :: IsEdge(ts, at) ==> at > t
            case Some(start) =>
              && IsEdge(ts, start) && start <= t
              && forall at :: IsEdge(ts, at) && at <= t ==> at <= start
    decreases |ts|
  {
    if ts != [] {
      var last := |ts| - 1;
      StartOfIsTheLast(ts[..last], t);
      assert forall at :: IsEdge(ts, at) <==> IsEdge(ts[..last], at) || at == ts[last].at;
    }
  }

  lemma {:induction false} EndOfIsTheFirst(ts: seq<Transition>, t: int)
    requires Ordered(ts)
    ensures match EndOf(ts, t)
            case None => forall at :: IsEdge(ts, at) ==> at <= t
            case Some(end) => IsEdge(ts, end) && end > t && forall at :: IsEdge(ts, at) && at > t ==> at >= end
    decreases |ts|
  {
    if ts != [] {
      EndOfIsTheFirst(ts[1..], t);
      assert forall at :: IsEdge(ts, at) <==> IsEdge(ts[1..], at) || at == ts[0].at;
    }
  }

  /** A gap's time: the clock jumps over it at T. */
  predicate InGap(naive: int, T: int, a: int, b: int) { T + a <= naive < T + b }

  /** No other edge is as near as T to the instant the library picked. */
  ghost predicate JumpIsNearest(z: Zone, naive: int, T: int) {
    var guess := z.date(naive);
    forall at :: IsEdge(z.transitions, at) && at != T ==>
      if guess < T then at > T || guess - at > T - guess else at < T || at - guess >= guess - T
  }

  /** For a time in a gap the code finds the jump exactly when no other edge is as near. */
  lemma GapGivesTheJump(z: Zone, naive: int, T: int)
    requires IsZone(z) && IsEdge(z.transitions, T)
    ensures Edge(z, naive) == T <==> JumpIsNearest(z, naive, T)
  {
    var guess := z.date(naive);
    StartOfIsTheLast(z.transitions, guess);
    EndOfIsTheFirst(z.transitions, guess);
  }

  /** Which it is when the library picks an instant right in one of the two zones and no
      other edge lies within twice the gap of it. */
  lemma RoomForTheGap(z: Zone, naive: int, T: int, a: int, b: int)
    requires InGap(naive, T, a, b) && z.date(naive) in {naive - a, naive - b}
    requires forall at :: IsEdge(z.transitions, at) && at != T ==> at < T - 2 * (b - a) || at > T + 2 * (b - a)
    ensures JumpIsNearest(z, naive, T)
  {
  }

  /** A gap longer than half the stretch around it: the clock skips a whole day 34 hours
      after an earlier edge, and the first time skipped is given the earlier edge. */
  lemma LongGapsNeedRoom()
    ensures exists z: Zone, naive, T, a, b ::
              && IsZone(z) && IsEdge(z.transitions, T) && OneTransition(z, naive, T, a, b) && InGap(naive, T, a, b)
              && z.date(naive) == naive - b && Found(z, naive) == {} && Edge(z, naive) != T
  {
    var a, b, p := -10 * 60 * MINUTE, 14 * 60 * MINUTE, -34 * 60 * MINUTE - MINUTE;
    var edges := [Transition(p, a), Transition(0, b)];
    var z := Zone(0, edges, (naive: int) => naive - b);
    assert edges[1].at == 0;
    assert edges[0].at == p;
    assert IsEdge(z.transitions, 0) && IsEdge(z.transitions, p);
    forall t | a - DAY <= t <= a + DAY
      ensures Offset(z, t) == if t < 0 then a else b
    {
      assert edges[..1] == [Transition(p, a)];
      assert t < 0 ==> OffsetOf(0, edges, t) == OffsetOf(0, edges[..1], t) == a;
    }
    assert OneTransition(z, a, 0, a, b) && InGap(a, 0, a, b);
    EveryReadingIsFound(z, a, 0, a, b);
    GapGivesTheJump(z, a, 0);
    assert !JumpIsNearest(z, a, 0);
  }

  //
  // What the result means.
  //

  /** The library and the zone around a wanted time are as the search needs them. */
  ghost predicate Searchable(z: Zone, naive: int, T: int, a: int, b: int) {
    && IsZone(z) && naive % MINUTE == 0 && OneTransition(z, naive, T, a, b)
    && (InGap(naive, T, a, b) ==> IsEdge(z.transitions, T) && JumpIsNearest(z, naive, T))
  }

  /** Without a transition, or with one far enough, the time is found once. In a fold it
      is found twice; in a gap never, and the result is the jump. */
  lemma WallTimeCases(z: Zone, naive: int, T: int, a: int, b: int, isStart: bool, r: int)
    requires Searchable(z, naive, T, a, b) && IsWallTime(z, naive, isStart, r)
    ensures r == if naive < T + a && (naive < T + b || isStart) then naive - a
                 else if InGap(naive, T, a, b) then T
                 else naive - b
  {
    EveryReadingIsFound(z, naive, T, a, b);
    var found := Found(z, naive);
    assert forall t :: t in found ==> t == naive - a || t == naive - b;
    assert Local(z, naive - a) == naive <==> Offset(z, naive - a) == a;
    assert Local(z, naive - b) == naive <==> Offset(z, naive - b) == b;
    assert a != b ==> (naive - a in found <==> naive - a < T) && (naive - b in found <==> naive - b >= T);
    if InGap(naive, T, a, b) {
      GapGivesTheJump(z, naive, T);
    }
  }

  /** A start is the first instant at which the wall clock reads the time or later; it
      reads the time there unless the clock jumps over it. */
  lemma StartIsTheFirstReading(z: Zone, naive: int, T: int, a: int, b: int, r: int)
    requires Searchable(z, naive, T, a, b) && IsEarthly(z) && IsWallTime(z, naive, true, r)
    ensures forall t :: t < r ==> Local(z, t) < naive
    ensures Local(z, r) >= naive
  {
    WallTimeCases(z, naive, T, a, b, true, r);
    forall t | t < r
      ensures Local(z, t) < naive
    {
      assert -DAY < Offset(z, t) < DAY;
    }
    assert Offset(z, r) in {a, b};
  }

  /** An end is the last instant at which the wall clock reads the time, or the jump over
      it: from there on the clock reads later. */
  lemma EndIsTheLastReading(z: Zone, naive: int, T: int, a: int, b: int, r: int)
    requires Searchable(z, naive, T, a, b) && IsEarthly(z) && IsWallTime(z, naive, false, r)
    ensures forall t :: t > r ==> Local(z, t) > naive
    ensures Local(z, r) == naive || (Local(z, r - 1) < naive < Local(z, r))
  {
    WallTimeCases(z, naive, T, a, b, false, r);
    forall t | t > r
      ensures Local(z, t) > naive
    {
      assert -DAY < Offset(z, t) < DAY;
    }
  }

  /** So both are monotone in the wall time, and an end never comes before a start of the
      same time or an earlier one. */
  lemma WallTimesAreMonotone(z: Zone, n1: int, n2: int, r1: int, r2: int, isStart1: bool, isStart2: bool,
                             T1: int, a1: int, b1: int, T2: int, a2: int, b2: int)
    requires n1 <= n2 && IsEarthly(z) && (isStart1 || !isStart2)
    requires Searchable(z, n1, T1, a1, b1) && IsWallTime(z, n1, isStart1, r1)
    requires Searchable(z, n2, T2, a2, b2) && IsWallTime(z, n2, isStart2, r2)
    ensures r1 <= r2
  {
    if isStart1 {
      StartIsTheFirstReading(z, n1, T1, a1, b1, r1);
    } else {
      EndIsTheLastReading(z, n1, T1, a1, b1, r1);
    }
    if isStart2 {
      StartIsTheFirstReading(z, n2, T2, a2, b2, r2);
    } else {
      EndIsTheLastReading(z, n2, T2, a2, b2, r2);
    }
  }

  /** Where the offset is fixed for a day either way, a wall time is the one instant that
      offset before it. */
  lemma FixedOffset(z: Zone, naive: int, off: int, isStart: bool, r: int)
    requires IsZone(z) && naive % MINUTE == 0 && -DAY <= off <= DAY && off % MINUTE == 0
    requires forall t :: naive - DAY <= t <= naive + DAY ==> Offset(z, t) == off
    requires IsWallTime(z, naive, isStart, r)
    ensures r == naive - off
  {
    WallTimeCases(z, naive, naive, off, off, isStart, r);
  }
}
