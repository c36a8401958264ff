/** What holds in every interleaving of the reporter's steps. */
module ReporterRuns {
  import opened Util
  import opened ReporterSteps
  import opened Subsequences

  /** Equal is equality of what a supervisor watches. */
  lemma EqualMeansEqual(s: Snapshot, o: Snapshot)
    ensures Equal(s, o) <==> s == o
  {
  }

  /** A campaign's progress shows only while it is running. */
  lemma ProgressShowsWhileRunning(c: Campaign, p: Progress)
    ensures c.status != "RUNNING" ==> SnapshotOf(c.(progress := p)) == SnapshotOf(c)
    ensures c.status == "RUNNING" && c.progress.activity != "" && p.activity != "" ==>
              (SnapshotOf(c.(progress := p)) == SnapshotOf(c) <==> p == c.progress)
  {
  }

  /** Consecutive equal snapshots as one. */
  function Squashed(loads: seq<Snapshot>): seq<Snapshot>
    decreases |loads|
  {
    if loads == [] then []
    else
      var before, s := Squashed(loads[..|loads| - 1]), loads[|loads| - 1];
      if before != [] && before[|before| - 1] == s then before else before + [s]
  }

  function LastOf(s: seq<Snapshot>): Option<Snapshot> { if s == [] then None else Some(s[|s| - 1]) }

  /** A fire that read the campaign and has not reported it yet. */
  predicate HasGot(f: Fire) { f.phase.Loaded? && f.phase.read.Got? }

  /** A fire still to disarm its window, */
  predicate Waits(f: Fire) { f.phase.Queued? || f.phase.Holding? }

  /** and one still to read the campaign, or that failed to. */
  predicate IsPending(f: Fire) { Waits(f) || f.phase.Disarmed? || f.phase == Loaded(Failed) }

  ghost predicate SomeGot(fires: seq<Fire>) { exists i :: 0 <= i < |fires| && HasGot(fires[i]) }
  ghost predicate SomeWaits(fires: seq<Fire>) { exists i :: 0 <= i < |fires| && Waits(fires[i]) }
  ghost predicate SomePending(fires: seq<Fire>) { exists i :: 0 <= i < |fires| && IsPending(fires[i]) }

  /** One fire at a time holds an entry's mutex. */
  ghost predicate Exclusive(fires: seq<Fire>, n: nat) {
    && (forall i :: 0 <= i < |fires| ==> fires[i].entry < n)
    && (forall i, j :: 0 <= i < j < |fires| && fires[i].entry == fires[j].entry ==>
          !(Holds(fires[i]) && Holds(fires[j])))
  }

  /** Until the campaign is deleted it has one entry at most. */
  ghost predicate OneEntry(isThere: bool, index: Option<nat>, n: nat, fires: seq<Fire>) {
    && (index.Some? ==> index.value < n)
    && (isThere ==> n <= 1 && index == if n == 1 then Some(0) else None)
    && (forall i :: 0 <= i < |fires| ==>
          && (HasGot(fires[i]) ==> fires[i].entry == 0)
          && (fires[i].phase == Loaded(NotFound) ==> !isThere))
  }

  function First(entries: seq<Entry>): Option<Snapshot> { if entries == [] then None else entries[0].last }

  /** What was emitted is what was read, squashed; only the read of a fire still to finish
      is missing. */
  ghost predicate EmitsInOrder(loads: seq<Snapshot>, last: Option<Snapshot>, emitted: seq<Snapshot>, fires: seq<Fire>) {
    && last == LastOf(emitted)
    && (forall i :: 0 <= i < |fires| && HasGot(fires[i]) ==>
          && loads != [] && fires[i].phase.read.snapshot == loads[|loads| - 1]
          && emitted == Squashed(loads[..|loads| - 1]))
    && (!SomeGot(fires) ==> emitted == Squashed(loads))
  }

  /** Before Close a window is open exactly when its timer runs or one fire for it waits;
      after, only the waiting fires are left. */
  ghost predicate Windows(closed: bool, e: Entry, fires: seq<Fire>) {
    && (e.armed ==> e.hasTimer || SomeWaits(fires))
    && (closed ==> !e.hasTimer)
    && (!closed && e.hasTimer ==> e.armed && !SomeWaits(fires))
    && (!closed && SomeWaits(fires) ==> e.armed)
    && (!closed ==> forall i, j :: 0 <= i < j < |fires| ==> !(Waits(fires[i]) && Waits(fires[j])))
  }

  /** A commit that was touched is reported, or something is on its way to read it. */
  ghost predicate Covered(now: Snapshot, e: Entry, fires: seq<Fire>) {
    || e.hasTimer
    || SomePending(fires)
    || (exists i :: 0 <= i < |fires| && HasGot(fires[i]) && fires[i].phase.read.snapshot == now)
    || (!SomeGot(fires) && e.last == Some(now))
  }

  ghost predicate Inv(w: World) {
    && Exclusive(w.fires, |w.book.entries|)
    && OneEntry(w.store.current.Some?, w.book.index, |w.book.entries|, w.fires)
    && EmitsInOrder(w.store.loads, First(w.book.entries), w.book.emitted, w.fires)
  }

  ghost predicate Live(w: World) {
    w.store.current.Some? ==>
      && (w.book.entries == [] ==> w.store.isUntouched)
      && (w.book.entries != [] ==>
            && Windows(w.book.closed, w.book.entries[0], w.fires)
            && (!w.store.isUntouched && !w.book.isLost ==>
                  Covered(SnapshotOf(w.store.current.value), w.book.entries[0], w.fires)))
  }

  //
  // Inv, step by step.
  //

  lemma MoveKeepsExclusive(fires: seq<Fire>, n: nat, i: nat, phase: Phase)
    requires Exclusive(fires, n) && i < |fires|
    requires phase.Over? || Holds(fires[i]) || IsFree(fires, fires[i].entry)
    ensures Exclusive(Move(fires, i, phase), n)
  {
  }

  lemma OtherFiresGotNothing(fires: seq<Fire>, n: nat, i: nat)
    requires Exclusive(fires, n) && i < |fires| && Holds(fires[i]) && fires[i].entry == 0
    requires forall j :: 0 <= j < |fires| && HasGot(fires[j]) ==> fires[j].entry == 0
    ensures forall j :: 0 <= j < |fires| && j != i ==> !HasGot(fires[j])
  {
  }

  /** A fire that got nothing before and after changes nothing about emission. */
  lemma MoveKeepsEmission(loads: seq<Snapshot>, last: Option<Snapshot>, emitted: seq<Snapshot>, fires: seq<Fire>,
                          i: nat, phase: Phase)
    requires EmitsInOrder(loads, last, emitted, fires) && i < |fires|
    requires !HasGot(fires[i]) && !HasGot(fires[i].(phase := phase))
    ensures EmitsInOrder(loads, last, emitted, Move(fires, i, phase))
  {
    var fires' := Move(fires, i, phase);
    if SomeGot(fires) {
      var j :| 0 <= j < |fires| && HasGot(fires[j]);
      assert HasGot(fires'[j]);
    }
  }

  lemma AddKeepsEmission(loads: seq<Snapshot>, last: Option<Snapshot>, emitted: seq<Snapshot>, fires: seq<Fire>, e: nat)
    requires EmitsInOrder(loads, last, emitted, fires)
    ensures EmitsInOrder(loads, last, emitted, fires + [Fire(e, Queued)])
  {
    var fires' := fires + [Fire(e, Queued)];
    if SomeGot(fires) {
      var j :| 0 <= j < |fires| && HasGot(fires[j]);
      assert HasGot(fires'[j]);
    }
  }

  lemma GettingKeepsEmission(loads: seq<Snapshot>, last: Option<Snapshot>, emitted: seq<Snapshot>, fires: seq<Fire>,
                             n: nat, i: nat, s: Snapshot)
    requires EmitsInOrder(loads, last, emitted, fires) && Exclusive(fires, n)
    requires i < |fires| && fires[i].phase.Disarmed? && fires[i].entry == 0
    requires forall j :: 0 <= j < |fires| && HasGot(fires[j]) ==> fires[j].entry == 0
    ensures EmitsInOrder(loads + [s], last, emitted, Move(fires, i, Loaded(Got(s))))
  {
    OtherFiresGotNothing(fires, n, i);
    var fires' := Move(fires, i, Loaded(Got(s)));
    assert HasGot(fires'[i]);
    assert (loads + [s])[..|loads|] == loads;
  }

  lemma ReportingKeepsEmission(loads: seq<Snapshot>, b: Book, fires: seq<Fire>, i: nat)
    requires EmitsInOrder(loads, First(b.entries), b.emitted, fires) && Exclusive(fires, |b.entries|)
    requires i < |fires| && HasGot(fires[i]) && fires[i].entry == 0
    requires forall j :: 0 <= j < |fires| && HasGot(fires[j]) ==> fires[j].entry == 0
    ensures var b' := Reported(b, 0, fires[i].phase.read.snapshot);
            && EmitsInOrder(loads, First(b'.entries), b'.emitted, Move(fires, i, Over))
            && |b'.entries| == |b.entries| && b'.entries[0].last == Some(fires[i].phase.read.snapshot)
            && !SomeGot(Move(fires, i, Over))
  {
    OtherFiresGotNothing(fires, |b.entries|, i);
    if b.entries[0].last.Some? {
      EqualMeansEqual(b.entries[0].last.value, fires[i].phase.read.snapshot);
    }
  }

  lemma ArmingKeepsInv(w: World, b: Book)
    requires Inv(w) && b == Arm(w.book)
    ensures Inv(w.(book := b))
  {
  }

  lemma WaitingFireKeepsInv(w: World, e: nat, b: Book)
    requires Inv(w) && e < |w.book.entries|
    requires b.index == w.book.index && |b.entries| == |w.book.entries| && b.emitted == w.book.emitted
    requires First(b.entries) == First(w.book.entries)
    ensures Inv(w.(book := b, fires := w.fires + [Fire(e, Queued)]))
  {
    AddKeepsEmission(w.store.loads, First(w.book.entries), w.book.emitted, w.fires, e);
  }

  lemma LoadKeepsInv(w: World, i: nat, fails: bool)
    requires Inv(w)
    ensures Inv(LoadedBy(w, i, fails))
  {
    if i < |w.fires| && w.fires[i].phase.Disarmed? {
      var read := ReadOf(w.store, fails);
      MoveKeepsExclusive(w.fires, |w.book.entries|, i, Loaded(read));
      if read.Got? {
        GettingKeepsEmission(w.store.loads, First(w.book.entries), w.book.emitted, w.fires, |w.book.entries|, i,
                             read.snapshot);
      } else {
        MoveKeepsEmission(w.store.loads, First(w.book.entries), w.book.emitted, w.fires, i, Loaded(read));
      }
    }
  }

  lemma ReportKeepsInv(w: World, i: nat)
    requires Inv(w) && i < |w.fires| && HasGot(w.fires[i])
    ensures Inv(FinishedBy(w, i))
  {
    MoveKeepsExclusive(w.fires, |w.book.entries|, i, Over);
    ReportingKeepsEmission(w.store.loads, w.book, w.fires, i);
  }

  /** A fire is over that read nothing. */
  lemma OverKeepsInv(w: World, i: nat)
    requires Inv(w) && i < |w.fires| && w.fires[i].phase.Loaded? && !HasGot(w.fires[i])
    ensures Inv(w.(fires := Move(w.fires, i, Over)))
  {
    MoveKeepsExclusive(w.fires, |w.book.entries|, i, Over);
    MoveKeepsEmission(w.store.loads, First(w.book.entries), w.book.emitted, w.fires, i, Over);
  }

  lemma FinishKeepsInv(w: World, i: nat)
    requires Inv(w)
    ensures Inv(FinishedBy(w, i))
  {
    if i < |w.fires| && w.fires[i].phase.Loaded? {
      if HasGot(w.fires[i]) {
        ReportKeepsInv(w, i);
      } else {
        OverKeepsInv(w, i);
        ArmingKeepsInv(w.(fires := Move(w.fires, i, Over)), Arm(w.book));
      }
    }
  }

  lemma LockKeepsInv(w: World, i: nat)
    requires Inv(w)
    ensures Inv(Locked(w, i))
  {
    if i < |w.fires| && w.fires[i].phase.Queued? && IsFree(w.fires, w.fires[i].entry) {
      MoveKeepsExclusive(w.fires, |w.book.entries|, i, Holding);
      MoveKeepsEmission(w.store.loads, First(w.book.entries), w.book.emitted, w.fires, i, Holding);
    }
  }

  lemma DisarmKeepsInv(w: World, i: nat)
    requires Inv(w)
    ensures Inv(DisarmedBy(w, i))
  {
    if i < |w.fires| && w.fires[i].phase.Holding? {
      MoveKeepsExclusive(w.fires, |w.book.entries|, i, Disarmed);
      MoveKeepsEmission(w.store.loads, First(w.book.entries), w.book.emitted, w.fires, i, Disarmed);
    }
  }

  lemma TimerKeepsInv(w: World, e: nat)
    requires Inv(w)
    ensures Inv(TimerFired(w, e))
  {
    if e < |w.book.entries| {
      WaitingFireKeepsInv(w, e, TimerStopped(w.book, e));
    }
  }

  lemma CloseKeepsInv(w: World)
    requires Inv(w)
    ensures Inv(Closed(w))
  {
    if Open(w.book).Some? {
      WaitingFireKeepsInv(w, Open(w.book).value, TimerStopped(w.book, Open(w.book).value).(closed := true));
    }
  }

  lemma StepKeepsInv(w: World, event: Event)
    requires Inv(w)
    ensures Inv(Step(w, event))
  {
    match event {
      case Touch => ArmingKeepsInv(w, Arm(w.book));
      case TimerFires(e) => TimerKeepsInv(w, e);
      case Close => CloseKeepsInv(w);
      case Lock(i) => LockKeepsInv(w, i);
      case Disarm(i) => DisarmKeepsInv(w, i);
      case Load(i, fails) => LoadKeepsInv(w, i, fails);
      case Finish(i) => FinishKeepsInv(w, i);
      case _ =>
    }
  }

  //
  // Nothing touched is lost, step by step.
  //

  lemma LockKeepsLive(w: World, i: nat)
    requires Inv(w) && Live(w)
    ensures Live(Locked(w, i))
  {
    if i < |w.fires| && w.fires[i].phase.Queued? {
      ReadyFires(w.fires, i, Holding);
    }
  }

  /** What moving a fire to a phase does to who waits, who is pending and who has read. */
  lemma ReadyFires(fires: seq<Fire>, i: nat, phase: Phase)
    requires i < |fires|
    ensures var fires' := Move(fires, i, phase);
            && (Waits(fires'[i]) ==> SomeWaits(fires'))
            && (Waits(fires[i]) == Waits(fires'[i]) ==> (SomeWaits(fires') <==> SomeWaits(fires)))
            && (IsPending(fires'[i]) ==> SomePending(fires'))
            && (IsPending(fires[i]) == IsPending(fires'[i]) ==> (SomePending(fires') <==> SomePending(fires)))
            && (!HasGot(fires[i]) && !HasGot(fires'[i]) ==> (SomeGot(fires') <==> SomeGot(fires)))
  {
    var fires' := Move(fires, i, phase);
    assert Waits(fires'[i]) ==> SomeWaits(fires');
    assert forall j :: 0 <= j < |fires| && j != i ==> fires'[j] == fires[j];
    if SomeWaits(fires) {
      var j :| 0 <= j < |fires| && Waits(fires[j]);
      assert j != i ==> Waits(fires'[j]);
    }
    if SomePending(fires) {
      var j :| 0 <= j < |fires| && IsPending(fires[j]);
      assert j != i ==> IsPending(fires'[j]);
    }
    if SomeGot(fires) {
      var j :| 0 <= j < |fires| && HasGot(fires[j]);
      assert j != i ==> HasGot(fires'[j]);
    }
  }

  lemma DisarmKeepsLive(w: World, i: nat)
    requires Inv(w) && Live(w)
    ensures Live(DisarmedBy(w, i))
  {
    if i < |w.fires| && w.fires[i].phase.Holding? {
      ReadyFires(w.fires, i, Disarmed);
      assert SomeWaits(w.fires);
    }
  }

  lemma LoadKeepsLive(w: World, i: nat, fails: bool)
    requires Inv(w) && Live(w)
    ensures Live(LoadedBy(w, i, fails))
  {
    if i < |w.fires| && w.fires[i].phase.Disarmed? {
      var read := ReadOf(w.store, fails);
      var fires' := Move(w.fires, i, Loaded(read));
      ReadyFires(w.fires, i, Loaded(read));
      assert read.Got? ==> HasGot(fires'[i]) && fires'[i].phase.read.snapshot == read.snapshot;
    }
  }

  lemma FinishKeepsLive(w: World, i: nat)
    requires Inv(w) && Live(w)
    ensures Live(FinishedBy(w, i))
  {
    if i < |w.fires| && w.fires[i].phase.Loaded? {
      ReadyFires(w.fires, i, Over);
      if HasGot(w.fires[i]) {
        ReportingKeepsEmission(w.store.loads, w.book, w.fires, i);
        OtherFiresGotNothing(w.fires, |w.book.entries|, i);
      }
    }
  }

  lemma AddedFires(fires: seq<Fire>, e: nat)
    ensures var fires' := fires + [Fire(e, Queued)];
            && SomeWaits(fires') && SomePending(fires') && (SomeGot(fires') <==> SomeGot(fires))
  {
    var fires' := fires + [Fire(e, Queued)];
    assert Waits(fires'[|fires|]) && IsPending(fires'[|fires|]);
    if SomeGot(fires) {
      var j :| 0 <= j < |fires| && HasGot(fires[j]);
      assert HasGot(fires'[j]);
    }
  }

  lemma StepKeepsLive(w: World, event: Event)
    requires Inv(w) && Live(w)
    ensures Live(Step(w, event))
  {
    match event {
      case Commit(_) =>
      case Delete =>
      case Touch => TouchKeepsLive(w);
      case TimerFires(e) => AddedFires(w.fires, e);
      case Close => CloseKeepsLive(w);
      case Lock(i) => LockKeepsLive(w, i);
      case Disarm(i) => DisarmKeepsLive(w, i);
      case Load(i, fails) => LoadKeepsLive(w, i, fails);
      case Finish(i) => FinishKeepsLive(w, i);
    }
  }

  lemma TouchKeepsLive(w: World)
    requires Inv(w) && Live(w)
    ensures Live(Touched(w))
  {
  }

  lemma CloseKeepsLive(w: World)
    requires Inv(w) && Live(w)
    ensures Live(Closed(w))
  {
    if Open(w.book).Some? {
      AddedFires(w.fires, Open(w.book).value);
    }
  }

  lemma {:induction false} RunKeepsInv(c: Campaign, events: seq<Event>)
    ensures Inv(Run(c, events)) && Live(Run(c, events))
    decreases |events|
  {
    if events != [] {
      var w := Run(c, events[..|events| - 1]);
      RunKeepsInv(c, events[..|events| - 1]);
      StepKeepsInv(w, events[|events| - 1]);
      StepKeepsLive(w, events[|events| - 1]);
    }
  }

  //
  // The theorems.
  //

  /** No window is open and no fire is under way. */
  ghost predicate IsQuiet(w: World) {
    && (forall e :: 0 <= e < |w.book.entries| ==> !w.book.entries[e].armed && !w.book.entries[e].hasTimer)
    && (forall i :: 0 <= i < |w.fires| ==> w.fires[i].phase.Over?)
  }

  /** No change is lost: in every interleaving, once nothing is open or under way the last
      report is of the campaign as it stands, if every commit was touched before Close and
      no read that failed came back to a closed reporter. */
  lemma NoChangeIsLost(c: Campaign, events: seq<Event>)
    ensures var w := Run(c, events);
            IsQuiet(w) && w.store.current.Some? && !w.store.isUntouched && !w.book.isLost ==>
              LastOf(w.book.emitted) == Some(SnapshotOf(w.store.current.value))
  {
    RunKeepsInv(c, events);
  }

  lemma {:induction false} SquashedTakesTurns(loads: seq<Snapshot>)
    ensures forall i :: 0 <= i < |Squashed(loads)| - 1 ==> Squashed(loads)[i] != Squashed(loads)[i + 1]
    ensures Subsequence(Squashed(loads), loads)
    decreases |loads|
  {
    if loads != [] {
      SquashedTakesTurns(loads[..|loads| - 1]);
    }
  }

  /** Reports follow the order of the reads, each with the first of a stretch of equal
      ones, and no two in a row are equal. */
  lemma ReportsFollowTheReads(c: Campaign, events: seq<Event>)
    ensures var w := Run(c, events);
            && Subsequence(w.book.emitted, w.store.loads)
            && (forall i :: 0 <= i < |w.book.emitted| - 1 ==> w.book.emitted[i] != w.book.emitted[i + 1])
            && (IsQuiet(w) ==> w.book.emitted == Squashed(w.store.loads))
  {
    RunKeepsInv(c, events);
    var w := Run(c, events);
    SquashedTakesTurns(w.store.loads);
    if SomeGot(w.fires) {
      SquashedTakesTurns(w.store.loads[..|w.store.loads| - 1]);
    }
  }

  lemma SquashedEndsTheSame(loads: seq<Snapshot>)
    ensures LastOf(Squashed(loads)) == LastOf(loads)
  {
  }

  /** What was last read is what a supervisor watches of the campaign as it stands. */
  predicate IsReadCurrent(w: World) {
    w.store.current.Some? && LastOf(w.store.loads) == Some(SnapshotOf(w.store.current.value))
  }

  /** Exactly when a change is lost, whatever was touched, closed or failed: once nothing is
      open or under way the last report is of the campaign as it stands if and only if what
      was last read is. */
  lemma ReportIsCurrentExactlyWhen(c: Campaign, events: seq<Event>)
    ensures var w := Run(c, events);
            IsQuiet(w) && w.store.current.Some? ==>
              (LastOf(w.book.emitted) == Some(SnapshotOf(w.store.current.value)) <==> IsReadCurrent(w))
  {
    RunKeepsInv(c, events);
    SquashedEndsTheSame(Run(c, events).store.loads);
  }

  /** A read of the campaign came after its last commit. */
  predicate IsReadSinceCommit(c: Campaign, events: seq<Event>)
    decreases |events|
  {
    events != [] &&
    (var before, event := events[..|events| - 1], events[|events| - 1];
     match event
     case Commit(_) => false
     case Load(i, fails) => Reads(Run(c, before), i, fails) || IsReadSinceCommit(c, before)
     case _ => IsReadSinceCommit(c, before))
  }

  predicate Reads(w: World, i: nat, fails: bool) {
    i < |w.fires| && w.fires[i].phase.Disarmed? && !fails && w.store.current.Some?
  }

  /** The events in which it is: a read since the last commit; or commits since the last
      read that left what is watched as it was read. */
  lemma {:induction false} ReadsAreCurrent(c: Campaign, events: seq<Event>)
    requires Run(c, events).store.current.Some? && IsReadSinceCommit(c, events)
    ensures IsReadCurrent(Run(c, events))
    decreases |events|
  {
    var before, event := events[..|events| - 1], events[|events| - 1];
    var w := Run(c, before);
    if !(event.Load? && Reads(w, event.i, event.fails)) {
      ReadsAreCurrent(c, before);
      OnlyReadsRead(w, event);
    }
  }

  lemma OnlyReadsRead(w: World, event: Event)
    requires !event.Commit? && !(event.Load? && Reads(w, event.i, event.fails))
    ensures Step(w, event).store.loads == w.store.loads
    ensures Step(w, event).store.current == w.store.current || event.Delete?
  {
  }

  /** A commit after a read leaves it current exactly when it changed nothing watched. */
  lemma CommitsKeepReadsCurrent(w: World, campaign: Campaign)
    requires IsReadCurrent(w)
    ensures IsReadCurrent(Step(w, Commit(campaign))) <==> SnapshotOf(campaign) == SnapshotOf(w.store.current.value)
  {
  }

  lemma RunOneMore(c: Campaign, events: seq<Event>, event: Event)
    ensures Run(c, events + [event]) == Step(Run(c, events), event)
  {
    assert (events + [event])[..|events|] == events;
  }

  const FAILED_READ_AT_CLOSE := [Touch, TimerFires(0), Lock(0), Disarm(0), Load(0, true), Close, Finish(0)]

  /** A read that fails while the reporter closes loses the change. */
  lemma AFailedReadAtCloseLosesTheChange(c: Campaign)
    ensures var w := Run(c, FAILED_READ_AT_CLOSE);
            && IsQuiet(w) && w.store.current == Some(c) && !w.store.isUntouched && w.book.isLost && w.book.emitted == []
  {
    var e1 := [] + [Touch];
    var e2 := e1 + [TimerFires(0)];
    var e3 := e2 + [Lock(0)];
    var e4 := e3 + [Disarm(0)];
    var e5 := e4 + [Load(0, true)];
    var e6 := e5 + [Close];
    RunOneMore(c, [], Touch);
    RunOneMore(c, e1, TimerFires(0));
    RunOneMore(c, e2, Lock(0));
    RunOneMore(c, e3, Disarm(0));
    RunOneMore(c, e4, Load(0, true));
    RunOneMore(c, e5, Close);
    RunOneMore(c, e6, Finish(0));
    assert e6 + [Finish(0)] == FAILED_READ_AT_CLOSE;
    FailedReadAtClose(c);
  }

  lemma FailedReadAtClose(c: Campaign)
    ensures var w4 := Step(Step(Step(Step(Initial(c), Touch), TimerFires(0)), Lock(0)), Disarm(0));
            Step(Step(Step(w4, Load(0, true)), Close), Finish(0)) ==
            World(Store(Some(c), false, []), Book(true, Some(0), [Entry(false, false, None)], [], true),
                  [Fire(0, Over)])
  {
    var store, open := Store(Some(c), false, []), Book(false, Some(0), [Entry(false, false, None)], [], false);
    ReadyToRead(c);
    var w4 := World(store, open, [Fire(0, Disarmed)]);
    var w6 := Step(Step(w4, Load(0, true)), Close);
    assert w6 == World(store, open.(closed := true), [Fire(0, Loaded(Failed))]);
  }

  lemma ReadyToRead(c: Campaign)
    ensures Step(Step(Step(Step(Initial(c), Touch), TimerFires(0)), Lock(0)), Disarm(0)) ==
            World(Store(Some(c), false, []), Book(false, Some(0), [Entry(false, false, None)], [], false),
                  [Fire(0, Disarmed)])
  {
    var w2 := Step(Step(Initial(c), Touch), TimerFires(0));
    assert w2 == World(Store(Some(c), false, []), Book(false, Some(0), [Entry(true, false, None)], [], false),
                       [Fire(0, Queued)]);
  }
}
