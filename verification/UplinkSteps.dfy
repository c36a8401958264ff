/** The uplink clock (internal/aicall/uplink.go) and the pump that feeds the model from
    it (internal/aicall/session.go): one frame for every 20 ms slot of wall time, the
    oldest of at most five queued caller frames or silence. */
module UplinkSteps {
  import opened Util
  import opened Subsequences

  const SLOT := 20_000_000
  const MAX_BACKLOG := 5

  /** Go's integer division truncates toward zero. */
  function GoDiv(a: int, b: nat): int
    requires b > 0
  {
    if a >= 0 then a / b else -((-a) / b)
  }

  datatype Stats = Stats(received: nat, sent: nat, filled: nat, droppedBacklog: nat, droppedHushed: nat,
                         maxBacklog: nat)

  /** The clock as its queue of frames, oldest first. elapsed times are since its start. */
  datatype Clock<F> = Clock(queue: seq<F>, slotsDone: int, stats: Stats)

  /** What a slot finds: the call hushed by a transfer or not, the model taking audio or not. */
  datatype Slot = Slot(isHushed: bool, isAccepted: bool)

  function Fresh<F>(): Clock<F> { Clock([], 0, Stats(0, 0, 0, 0, 0, 0)) }

  function Push<F>(c: Clock<F>, frame: F): Clock<F> {
    var isFull := |c.queue| == MAX_BACKLOG;
    var queue := (if isFull then c.queue[1..] else c.queue) + [frame];
    Clock(queue, c.slotsDone,
          c.stats.(received := c.stats.received + 1,
                   droppedBacklog := c.stats.droppedBacklog + if isFull then 1 else 0,
                   maxBacklog := Max(c.stats.maxBacklog, |queue|)))
  }

  function Owed<F>(c: Clock<F>, elapsed: int): nat {
    var n := GoDiv(elapsed, SLOT) - c.slotsDone;
    if n <= 0 then 0 else n
  }

  function Account<F>(c: Clock<F>, elapsed: int): Clock<F> {
    c.(slotsDone := c.slotsDone + Owed(c, elapsed))
  }

  function Pop<F>(c: Clock<F>): Clock<F> {
    if c.queue == [] then c else c.(queue := c.queue[1..])
  }

  /** One slot: the frame popped and, unless hushed, fed. */
  function Feed<F>(c: Clock<F>, isHushed: bool): Clock<F> {
    var isReal := c.queue != [];
    var stats :=
      if isHushed then c.stats.(droppedHushed := c.stats.droppedHushed + if isReal then 1 else 0)
      else c.stats.(sent := c.stats.sent + 1, filled := c.stats.filled + if isReal then 0 else 1);
    Pop(c).(stats := stats)
  }

  /** What a slot feeds the model: a frame, or silence. */
  function Fed<F>(c: Clock<F>, isHushed: bool): seq<Option<F>> {
    if isHushed then [] else if c.queue == [] then [None] else [Some(c.queue[0])]
  }

  /** The clock after a turn of the pump, what the model was fed, the slots gone through,
      and whether the model refused the last of them. */
  datatype Pumped<F> = Pumped(clock: Clock<F>, fed: seq<Option<F>>, handled: nat, isRefused: bool)

  /** n owed slots from slot i on, stopping when the model refuses audio. */
  function PumpSlots<F>(c: Clock<F>, n: nat, port: nat -> Slot, i: nat): Pumped<F>
    decreases n
  {
    if n == 0 then Pumped(c, [], 0, false)
    else
      var slot := port(i);
      var c' := Feed(c, slot.isHushed);
      if !slot.isHushed && !slot.isAccepted then Pumped(c', Fed(c, false), 1, true)
      else
        var rest := PumpSlots(c', n - 1, port, i + 1);
        Pumped(rest.clock, Fed(c, slot.isHushed) + rest.fed, rest.handled + 1, rest.isRefused)
  }

  //
  // Runs.
  //

  datatype Event<F> = FrameArrives(frame: F) | ClockRead(elapsed: int, port: nat -> Slot)

  /** A call so far. latest is the latest time the clock was read at. */
  datatype Track<F> = Track(clock: Clock<F>, pushed: seq<F>, fed: seq<Option<F>>,
                            handled: nat, latest: nat, isRefused: bool)

  /** A call whose model refused audio has ended. */
  function Step<F>(t: Track<F>, event: Event<F>): Track<F> {
    if t.isRefused then t
    else
      match event
      case FrameArrives(frame) => t.(clock := Push(t.clock, frame), pushed := t.pushed + [frame])
      case ClockRead(elapsed, port) =>
        var pumped := PumpSlots(Account(t.clock, elapsed), Owed(t.clock, elapsed), port, 0);
        t.(clock := pumped.clock, fed := t.fed + pumped.fed, handled := t.handled + pumped.handled,
           latest := Max(t.latest, elapsed), isRefused := pumped.isRefused)
  }

  function Run<F>(events: seq<Event<F>>): Track<F>
    decreases |events|
  {
    if events == [] then Track(Fresh(), [], [], 0, 0, false)
    else Step(Run(events[..|events| - 1]), events[|events| - 1])
  }

  function Reals<F>(fed: seq<Option<F>>): seq<F>
    decreases |fed|
  {
    if fed == [] then []
    else
      var reals := Reals(fed[..|fed| - 1]);
      match fed[|fed| - 1] case None => reals case Some(frame) => reals + [frame]
  }

  lemma {:induction false} RealsAppend<F>(a: seq<Option<F>>, b: seq<Option<F>>)
    ensures Reals(a + b) == Reals(a) + Reals(b)
    decreases |b|
  {
    if b == [] {
      assert a + b == a;
    } else {
      RealsAppend(a, b[..|b| - 1]);
      assert (a + b)[..|a + b| - 1] == a + b[..|b| - 1];
    }
  }

  /** The queue is the newest frames pushed; of the others, those fed are in order and
      every one not fed is counted as dropped. */
  ghost predicate Accounted<F>(c: Clock<F>, pushed: seq<F>, fed: seq<Option<F>>) {
    && |c.queue| <= MAX_BACKLOG && |c.queue| <= |pushed|
    && (var gone := |pushed| - |c.queue|;
        && c.queue == pushed[gone..]
        && Subsequence(Reals(fed), pushed[..gone])
        && gone == |Reals(fed)| + c.stats.droppedBacklog + c.stats.droppedHushed)
    && c.stats.received == |pushed|
    && c.stats.sent == |fed|
    && c.stats.sent == |Reals(fed)| + c.stats.filled
  }

  lemma PushAccounts<F>(c: Clock<F>, pushed: seq<F>, fed: seq<Option<F>>, frame: F)
    requires Accounted(c, pushed, fed)
    ensures Accounted(Push(c, frame), pushed + [frame], fed)
  {
    var gone := |pushed| - |c.queue|;
    assert (pushed + [frame])[..gone] == pushed[..gone];
    if |c.queue| == MAX_BACKLOG {
      assert (pushed + [frame])[..gone + 1][..gone] == pushed[..gone];
    }
  }

  lemma FeedAccounts<F>(c: Clock<F>, pushed: seq<F>, fed: seq<Option<F>>, isHushed: bool)
    requires Accounted(c, pushed, fed)
    ensures Accounted(Feed(c, isHushed), pushed, fed + Fed(c, isHushed))
  {
    var gone := |pushed| - |c.queue|;
    var more := Fed(c, isHushed);
    RealsAppend(fed, more);
    if more == [] {
      assert fed + more == fed;
    } else {
      assert Reals(more[..0]) == [];
    }
    if c.queue != [] {
      assert pushed[..gone + 1][..gone] == pushed[..gone];
      if !isHushed {
        assert (Reals(fed) + [c.queue[0]])[..|Reals(fed)|] == Reals(fed);
      }
    }
  }

  lemma PumpOneSlot<F>(c: Clock<F>, n: nat, port: nat -> Slot, i: nat, fed: seq<Option<F>>)
    requires n > 0
    ensures var slot := port(i);
            var p := PumpSlots(c, n, port, i);
            var c', fed' := Feed(c, slot.isHushed), fed + Fed(c, slot.isHushed);
            if slot.isHushed || slot.isAccepted then
              var rest := PumpSlots(c', n - 1, port, i + 1);
              p.clock == rest.clock && fed + p.fed == fed' + rest.fed
            else p.clock == c' && fed + p.fed == fed'
  {
  }

  lemma {:induction false} PumpAccounts<F>(c: Clock<F>, n: nat, port: nat -> Slot, i: nat, pushed: seq<F>,
                                           fed: seq<Option<F>>)
    requires Accounted(c, pushed, fed)
    ensures var p := PumpSlots(c, n, port, i); Accounted(p.clock, pushed, fed + p.fed)
    decreases n
  {
    if n == 0 {
      assert fed + [] == fed;
    } else {
      var slot := port(i);
      PumpOneSlot(c, n, port, i, fed);
      FeedAccounts(c, pushed, fed, slot.isHushed);
      if slot.isHushed || slot.isAccepted {
        PumpAccounts(Feed(c, slot.isHushed), n - 1, port, i + 1, pushed, fed + Fed(c, slot.isHushed));
      }
    }
  }

  /** A pump the model refused nothing in goes through every slot owed and feeds one frame
      for each that was not hushed. */
  lemma {:induction false} PumpGoesThroughTheSlots<F>(c: Clock<F>, n: nat, port: nat -> Slot, i: nat)
    ensures var p := PumpSlots(c, n, port, i);
            && p.clock.slotsDone == c.slotsDone
            && (!p.isRefused ==> p.handled == n)
            && ((forall k :: i <= k < i + n ==> !port(k).isHushed) ==> |p.fed| == p.handled)
    decreases n
  {
    if n > 0 {
      PumpGoesThroughTheSlots(Feed(c, port(i).isHushed), n - 1, port, i + 1);
    }
  }

  ghost predicate Inv<F>(t: Track<F>) {
    && Accounted(t.clock, t.pushed, t.fed)
    && t.clock.slotsDone == t.latest / SLOT
    && (!t.isRefused ==> t.handled == t.clock.slotsDone)
  }

  lemma StepKeepsInv<F>(t: Track<F>, event: Event<F>)
    requires Inv(t)
    ensures Inv(Step(t, event))
  {
    if !t.isRefused {
      match event {
        case FrameArrives(frame) => PushAccounts(t.clock, t.pushed, t.fed, frame);
        case ClockRead(elapsed, port) =>
          var due, n := Account(t.clock, elapsed), Owed(t.clock, elapsed);
          PumpAccounts(due, n, port, 0, t.pushed, t.fed);
          PumpGoesThroughTheSlots(due, n, port, 0);
      }
    }
  }

  lemma {:induction false} RunKeepsInv<F>(events: seq<Event<F>>)
    ensures Inv(Run(events))
    decreases |events|
  {
    if events != [] {
      RunKeepsInv(events[..|events| - 1]);
      StepKeepsInv(Run(events[..|events| - 1]), events[|events| - 1]);
    }
  }

  /** Every frame received was fed, pushed out, dropped while hushed or is still queued,
      and the frames fed are in the order they came. */
  lemma FramesAreConserved<F>(events: seq<Event<F>>)
    ensures var t := Run(events);
            var st, queued := t.clock.stats, |t.clock.queue|;
            && st.received == |t.pushed| == (st.sent - st.filled) + st.droppedBacklog + st.droppedHushed + queued
            && queued <= MAX_BACKLOG && queued <= |t.pushed| && t.clock.queue == t.pushed[|t.pushed| - queued..]
            && Subsequence(Reals(t.fed), t.pushed[..|t.pushed| - queued])
            && |t.fed| == st.sent
  {
    RunKeepsInv(events);
  }

  predicate IsNeverHushed<F>(event: Event<F>) {
    event.ClockRead? ==> forall k: nat :: k < Owed(Fresh<F>(), event.elapsed) ==> !event.port(k).isHushed
  }

  /** Until the model refuses audio, the slots gone through are those of the latest time
      the clock was read at, however late or out of order it was read; and a call never
      hushed fed the model exactly one frame for each. */
  lemma {:induction false} SlotsFollowTheClock<F>(events: seq<Event<F>>)
    ensures var t := Run(events);
            && (!t.isRefused ==> t.handled == t.latest / SLOT)
            && (!t.isRefused && (forall i :: 0 <= i < |events| ==> IsNeverHushed(events[i])) ==>
                  |t.fed| == t.latest / SLOT)
    decreases |events|
  {
    RunKeepsInv(events);
    if events != [] {
      var before, event := events[..|events| - 1], events[|events| - 1];
      SlotsFollowTheClock(before);
      RunKeepsInv(before);
      var t := Run(before);
      if !t.isRefused && event.ClockRead? {
        PumpGoesThroughTheSlots(Account(t.clock, event.elapsed), Owed(t.clock, event.elapsed), event.port, 0);
      }
      if forall i :: 0 <= i < |events| ==> IsNeverHushed(events[i]) {
        assert forall i :: 0 <= i < |before| ==> before[i] == events[i];
      }
    }
  }

  //
  // What a frame and a slot come to.
  //

  /** A frame that arrives is queued behind the others, and only a sixth pushes the oldest
      out. */
  lemma AFrameIsQueued<F>(t: Track<F>, frame: F)
    requires !t.isRefused && |t.clock.queue| <= 5
    ensures var t' := Step(t, FrameArrives(frame));
            && t'.clock.queue == LastN(t.clock.queue + [frame], 5) && t'.pushed == t.pushed + [frame]
            && t'.fed == t.fed && t'.clock.slotsDone == t.clock.slotsDone
            && t'.clock.stats.droppedBacklog - t.clock.stats.droppedBacklog == if |t.clock.queue| == 5 then 1 else 0
  {
  }

  /** The frames, each fed, followed by silence up to n slots. */
  function FedAs<F>(frames: seq<F>, n: nat): seq<Option<F>> {
    seq(n, k requires 0 <= k => if k < |frames| then Some(frames[k]) else None)
  }

  /** n slots the call is not hushed in feed the oldest frames queued, one each, and silence
      only when none is left. */
  lemma {:induction false} SlotsFeedTheOldest<F>(c: Clock<F>, n: nat, port: nat -> Slot, i: nat)
    requires forall k :: i <= k < i + n ==> port(k) == Slot(false, true)
    ensures var p := PumpSlots(c, n, port, i);
            && p.fed == FedAs(c.queue, n) && p.clock.queue == c.queue[Min(n, |c.queue|)..]
            && p.handled == n && !p.isRefused
            && p.clock.stats.filled == c.stats.filled + Max(n - |c.queue|, 0)
            && p.clock.stats.droppedHushed == c.stats.droppedHushed
    decreases n
  {
    if n > 0 {
      var c' := Feed(c, false);
      SlotsFeedTheOldest(c', n - 1, port, i + 1);
      assert FedAs(c.queue, n) == Fed(c, false) + FedAs(c'.queue, n - 1);
    }
  }

  /** n hushed slots feed nothing; the frames they find are dropped, and counted. */
  lemma {:induction false} HushedSlotsDropTheOldest<F>(c: Clock<F>, n: nat, port: nat -> Slot, i: nat)
    requires forall k :: i <= k < i + n ==> port(k).isHushed
    ensures var p := PumpSlots(c, n, port, i);
            && p.fed == [] && p.clock.queue == c.queue[Min(n, |c.queue|)..]
            && p.clock.stats.droppedHushed == c.stats.droppedHushed + Min(n, |c.queue|)
            && p.clock.stats.filled == c.stats.filled
    decreases n
  {
    if n > 0 {
      HushedSlotsDropTheOldest(Feed(c, true), n - 1, port, i + 1);
    }
  }

  /** A model that refuses audio is fed nothing more, and no further slot is gone through. */
  lemma RefusalEndsThePump<F>(c: Clock<F>, n: nat, port: nat -> Slot, i: nat)
    requires n > 0 && port(i) == Slot(false, false)
    ensures var p := PumpSlots(c, n, port, i);
            p.isRefused && p.handled == 1 && p.fed == FedAs(c.queue, 1) && p.clock.queue == c.queue[Min(1, |c.queue|)..]
  {
  }

  lemma {:induction false} PumpsNeverDeepen<F>(c: Clock<F>, n: nat, port: nat -> Slot, i: nat)
    ensures var p := PumpSlots(c, n, port, i);
            |p.clock.queue| <= |c.queue| && p.clock.stats.maxBacklog == c.stats.maxBacklog
    decreases n
  {
    if n > 0 {
      PumpsNeverDeepen(Feed(c, port(i).isHushed), n - 1, port, i + 1);
    }
  }

  /** How deep the queue was at first and after each event. */
  function Depths<F>(events: seq<Event<F>>): seq<nat>
    decreases |events|
  {
    (if events == [] then [] else Depths(events[..|events| - 1])) + [|Run(events).clock.queue|]
  }

  ghost predicate IsDeepest(depths: seq<nat>, depth: nat) {
    (forall i :: 0 <= i < |depths| ==> depths[i] <= depth) && depth in depths
  }

  /** MaxBacklog is the deepest the queue ever was. */
  lemma {:induction false} MaxBacklogIsTheDeepest<F>(events: seq<Event<F>>)
    ensures IsDeepest(Depths(events), Run(events).clock.stats.maxBacklog)
    ensures |Depths(events)| == |events| + 1 && Depths(events)[|events|] == |Run(events).clock.queue|
    decreases |events|
  {
    if events != [] {
      var before := events[..|events| - 1];
      MaxBacklogIsTheDeepest(before);
      assert Depths(before)[|before|] == |Run(before).clock.queue|;
      DepthAfter(Run(before), events[|events| - 1]);
      assert Depths(events)[|events|] == |Run(events).clock.queue|;
    }
  }

  lemma DepthAfter<F>(t: Track<F>, event: Event<F>)
    ensures var c, c' := t.clock, Step(t, event).clock;
            && c'.stats.maxBacklog >= c.stats.maxBacklog
            && (|c.queue| <= c.stats.maxBacklog ==> |c'.queue| <= c'.stats.maxBacklog)
            && (c'.stats.maxBacklog != c.stats.maxBacklog ==> |c'.queue| == c'.stats.maxBacklog)
  {
    if !t.isRefused && event.ClockRead? {
      PumpsNeverDeepen(Account(t.clock, event.elapsed), Owed(t.clock, event.elapsed), event.port, 0);
    }
  }
}
