/** The Reporter itself: each stretch it runs under one lock is proved to make the step of
    ReporterSteps. */
module Reporters {
  import opened Util
  import opened ReporterSteps

  class Reporter {
    var store: Store
    var closed: bool
    var index: Option<nat>
    var entries: seq<Entry>
    var emitted: seq<Snapshot>
    var isLost: bool
    var fires: seq<Fire>

    ghost function State(): World
      reads this
    {
      World(store, Book(closed, index, entries, emitted, isLost), fires)
    }

    ghost predicate Valid()
      reads this
    {
      && (index.Some? ==> index.value < |entries|)
      && forall i :: 0 <= i < |fires| ==> fires[i].entry < |entries|
    }

    constructor (c: Campaign)
      ensures Valid() && State() == Initial(c)
    {
      store := Store(Some(c), true, []);
      closed, index, entries, emitted, isLost, fires := false, None, [], [], false, [];
    }

    /** What Touch does to the entry; r.mu is held and the reporter is open. */
    method OpenWindow()
      requires Valid()
      modifies this`index, this`entries
      ensures Valid() && State() == old(State()).(book := Arm(old(State()).book))
    {
      if index.None? {
        index := Some(|entries|);
        entries := entries + [Entry(false, false, None)];
      }
      var e := index.value;
      if entries[e].armed {
        return;
      }
      entries := entries[e := entries[e].(armed := true, hasTimer := true)];
    }

    method Touch()
      requires Valid()
      modifies this
      ensures Valid() && State() == Touched(old(State()))
    {
      if closed {
        return;
      }
      OpenWindow();
      store := store.(isUntouched := false);
    }

    method Close()
      requires Valid()
      modifies this
      ensures Valid() && State() == Closed(old(State()))
    {
      closed := true;
      if index.Some? && entries[index.value].armed {
        var e := index.value;
        entries := entries[e := entries[e].(hasTimer := false)];
        fires := fires + [Fire(e, Queued)];
      }
    }

    method TimerFires(e: nat)
      requires Valid()
      modifies this`entries, this`fires
      ensures Valid() && State() == TimerFired(old(State()), e)
    {
      if e < |entries| && entries[e].hasTimer {
        entries := entries[e := entries[e].(hasTimer := false)];
        fires := fires + [Fire(e, Queued)];
      }
    }

    /** fire takes its entry's mutex, when it is free. */
    method TakeMutex(i: nat)
      requires Valid() && i < |fires| && fires[i].phase.Queued? && IsFree(fires, fires[i].entry)
      modifies this`fires
      ensures Valid() && State() == Locked(old(State()), i)
    {
      fires := Move(fires, i, Holding);
    }

    method Disarm(i: nat)
      requires Valid() && i < |fires| && fires[i].phase.Holding?
      modifies this`fires, this`entries
      ensures Valid() && State() == DisarmedBy(old(State()), i)
    {
      var e := fires[i].entry;
      entries := entries[e := entries[e].(armed := false)];
      fires := Move(fires, i, Disarmed);
    }

    method Load(i: nat, fails: bool)
      requires Valid() && i < |fires| && fires[i].phase.Disarmed?
      modifies this`fires, this`store
      ensures Valid() && State() == LoadedBy(old(State()), i, fails)
    {
      if fails {
        fires := Move(fires, i, Loaded(Failed));
      } else if store.current.None? {
        fires := Move(fires, i, Loaded(NotFound));
      } else {
        var snap := SnapshotOf(store.current.value);
        store := store.(loads := store.loads + [snap]);
        fires := Move(fires, i, Loaded(Got(snap)));
      }
    }

    /** The rest of fire, with what it read. */
    method Finish(i: nat)
      requires Valid() && i < |fires| && fires[i].phase.Loaded?
      modifies this
      ensures Valid() && State() == FinishedBy(old(State()), i)
    {
      var read, e := fires[i].phase.read, fires[i].entry;
      fires := Move(fires, i, Over);
      match read {
        case NotFound =>
          index := None;
        case Failed =>
          if closed {
            isLost := true;
          } else {
            OpenWindow();
          }
        case Got(snap) =>
          if entries[e].last.Some? && Equal(entries[e].last.value, snap) {
            return;
          }
          entries := entries[e := entries[e].(last := Some(snap))];
          emitted := emitted + [snap];
      }
    }
  }
}
