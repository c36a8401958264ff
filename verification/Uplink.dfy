/** uplinkClock itself, a ring of five. */
module Uplink {
  import opened Util
  import opened UplinkSteps

  /** Where the i-th frame of a ring starting at head is. */
  function Place(head: nat, i: nat): (place: nat)
    ensures place < MAX_BACKLOG
  {
    (head + i) % MAX_BACKLOG
  }

  ghost predicate IsFilled<F>(slots: seq<Option<F>>, head: nat, count: nat)
    requires |slots| == MAX_BACKLOG
  {
    forall i :: 0 <= i < count ==> slots[Place(head, i)].Some?
  }

  function Ring<F>(slots: seq<Option<F>>, head: nat, count: nat): (frames: seq<F>)
    requires |slots| == MAX_BACKLOG && IsFilled(slots, head, count)
    ensures |frames| == count
  {
    seq(count, i requires 0 <= i < count => slots[Place(head, i)].value)
  }

  lemma PlacesDiffer(head: nat, i: nat, j: nat)
    requires i < MAX_BACKLOG && j < MAX_BACKLOG && i != j
    ensures Place(head, i) != Place(head, j)
  {
  }

  /** Taking the frame at head leaves the rest in order. */
  lemma RingTakes<F>(slots: seq<Option<F>>, head: nat, count: nat)
    requires |slots| == MAX_BACKLOG && head < MAX_BACKLOG && 0 < count <= MAX_BACKLOG && IsFilled(slots, head, count)
    ensures var slots', head' := slots[head := None], (head + 1) % MAX_BACKLOG;
            && head == Place(head, 0) && slots[head].Some?
            && IsFilled(slots', head', count - 1)
            && Ring(slots', head', count - 1) == Ring(slots, head, count)[1..]
  {
    assert head == Place(head, 0);
    var head' := (head + 1) % MAX_BACKLOG;
    forall i | 0 <= i < count - 1
      ensures Place(head', i) == Place(head, i + 1) != head
    {
      PlacesDiffer(head, 0, i + 1);
    }
  }

  lemma RingAppends<F>(slots: seq<Option<F>>, head: nat, count: nat, frame: F)
    requires |slots| == MAX_BACKLOG && count < MAX_BACKLOG && IsFilled(slots, head, count)
    ensures var slots' := slots[(head + count) % MAX_BACKLOG := Some(frame)];
            && IsFilled(slots', head, count + 1)
            && Ring(slots', head, count + 1) == Ring(slots, head, count) + [frame]
  {
    var slots' := slots[(head + count) % MAX_BACKLOG := Some(frame)];
    forall i | 0 <= i < count
      ensures slots'[Place(head, i)] == slots[Place(head, i)]
    {
      PlacesDiffer(head, i, count);
    }
    assert slots'[Place(head, count)] == Some(frame);
  }

  ghost predicate Matches<F>(all: Pumped<F>, c: Clock<F>, fed: seq<Option<F>>, isRefused: bool) {
    all.clock == c && all.fed == fed && all.isRefused == isRefused
  }

  /** Going through n more slots from slot i on completes the pump. */
  ghost predicate Remains<F>(all: Pumped<F>, fed: seq<Option<F>>, c: Clock<F>, n: nat, port: nat -> Slot, i: nat) {
    var rest := PumpSlots(c, n, port, i);
    all.clock == rest.clock && all.fed == fed + rest.fed && all.isRefused == rest.isRefused
  }

  lemma OneSlotLess<F>(all: Pumped<F>, fed: seq<Option<F>>, c: Clock<F>, n: nat, port: nat -> Slot, i: nat)
    requires n > 0 && Remains(all, fed, c, n, port, i)
    ensures var slot := port(i);
            var c', fed' := Feed(c, slot.isHushed), fed + Fed(c, slot.isHushed);
            if slot.isHushed || slot.isAccepted then Remains(all, fed', c', n - 1, port, i + 1)
            else all.clock == c' && all.fed == fed' && all.isRefused
  {
    PumpOneSlot(c, n, port, i, fed);
  }

  class UplinkClock<F> {
    const start: int
    var slotsDone: int
    const queue: array<Option<F>>
    var head: nat
    var count: nat
    var stats: Stats

    ghost predicate Valid()
      reads this, queue
    {
      && queue.Length == MAX_BACKLOG && head < MAX_BACKLOG && count <= MAX_BACKLOG
      && IsFilled(queue[..], head, count)
    }

    /** The queued frames, oldest first. */
    ghost function Contents(): seq<F>
      requires Valid()
      reads this, queue
    {
      Ring(queue[..], head, count)
    }

    ghost function State(): Clock<F>
      requires Valid()
      reads this, queue
    {
      Clock(Contents(), slotsDone, stats)
    }

    constructor (start: int)
      ensures Valid() && State() == Fresh() && fresh(queue) && this.start == start
    {
      this.start := start;
      slotsDone, head, count := 0, 0, 0;
      queue := new Option<F>[MAX_BACKLOG](_ => None);
      stats := Stats(0, 0, 0, 0, 0, 0);
    }

    method Push(frame: F)
      requires Valid()
      modifies this, queue
      ensures Valid() && State() == UplinkSteps.Push(old(State()), frame)
    {
      stats := stats.(received := stats.received + 1);
      if count == MAX_BACKLOG {
        var dropped := Pop();
        stats := stats.(droppedBacklog := stats.droppedBacklog + 1);
      }
      RingAppends(queue[..], head, count, frame);
      ghost var all := queue[..][(head + count) % MAX_BACKLOG := Some(frame)];
      queue[(head + count) % MAX_BACKLOG] := Some(frame);
      assert queue[..] == all;
      count := count + 1;
      if count > stats.maxBacklog {
        stats := stats.(maxBacklog := count);
      }
    }

    method Owed(now: int) returns (n: nat)
      requires Valid()
      modifies this`slotsDone
      ensures Valid() && n == UplinkSteps.Owed(old(State()), now - start)
      ensures State() == Account(old(State()), now - start)
    {
      var slots := GoDiv(now - start, SLOT);
      var owed := slots - slotsDone;
      if owed <= 0 {
        return 0;
      }
      slotsDone := slots;
      return owed;
    }

    method Pop() returns (frame: Option<F>)
      requires Valid()
      modifies this, queue
      ensures Valid() && State() == UplinkSteps.Pop(old(State()))
      ensures frame == if old(Contents()) == [] then None else Some(old(Contents()[0]))
    {
      if count == 0 {
        return None;
      }
      RingTakes(queue[..], head, count);
      ghost var rest := queue[..][head := None];
      frame := queue[head];
      queue[head] := None;
      head := (head + 1) % MAX_BACKLOG;
      count := count - 1;
      assert queue[..] == rest;
    }

    /** One slot: the oldest frame or silence fed, or nothing while hushed. */
    method FeedSlot(isHushed: bool) returns (fed: seq<Option<F>>)
      requires Valid()
      modifies this, queue
      ensures Valid() && State() == Feed(old(State()), isHushed) && fed == Fed(old(State()), isHushed)
    {
      var frame := Pop();
      if isHushed {
        if frame.Some? {
          stats := stats.(droppedHushed := stats.droppedHushed + 1);
        }
        return [];
      }
      if frame.None? {
        stats := stats.(filled := stats.filled + 1);
      }
      stats := stats.(sent := stats.sent + 1);
      return [frame];
    }

    /** Goes through the slots owed at now. */
    method SendDueSlots(now: int, port: nat -> Slot) returns (fed: seq<Option<F>>, isRefused: bool)
      requires Valid()
      modifies this, queue
      ensures Valid()
      ensures var c := old(State());
              var p := PumpSlots(Account(c, now - start), UplinkSteps.Owed(c, now - start), port, 0);
              Matches(p, State(), fed, isRefused)
    {
      var n := Owed(now);
      fed, isRefused := FeedSlots(n, port);
    }

    method FeedSlots(owed: nat, port: nat -> Slot) returns (fed: seq<Option<F>>, isRefused: bool)
      requires Valid()
      modifies this, queue
      ensures Valid() && Matches(PumpSlots(old(State()), owed, port, 0), State(), fed, isRefused)
    {
      var n := owed;
      ghost var c := State();
      ghost var all := PumpSlots(c, n, port, 0);
      fed := [];
      var i := 0;
      while n > 0
        invariant Valid() && State() == c
        invariant Remains(all, fed, c, n, port, i)
        decreases n
      {
        var slot := port(i);
        OneSlotLess(all, fed, c, n, port, i);
        var frames := FeedSlot(slot.isHushed);
        c, fed := Feed(c, slot.isHushed), fed + frames;
        if !slot.isHushed && !slot.isAccepted {
          return fed, true;
        }
        n, i := n - 1, i + 1;
      }
      return fed, false;
    }
  }
}
