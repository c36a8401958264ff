/** What a supervisor is shown of a campaign, and that every change shown comes through. */
module ReporterLaws {
  import opened Util
  import opened ReporterSteps
  import opened ReporterRuns

  /** The dialer's account, which exists only while the campaign runs. */
  function Shown(c: Campaign): Option<Progress> {
    if c.status == "RUNNING" && c.progress.activity != "" then Some(c.progress) else None
  }

  /** Two snapshots of a campaign are one exactly when its status, pause reason, contacts and
      the account shown are the same: nothing else is watched, and nothing of these left
      out. */
  lemma SnapshotsAreEqualExactlyWhen(c: Campaign, d: Campaign)
    ensures SnapshotOf(c) == SnapshotOf(d) <==>
              && c.id == d.id && c.status == d.status && c.pauseReason == d.pauseReason
              && c.contacts == d.contacts && Shown(c) == Shown(d)
  {
  }

  /** A snapshot carries the campaign's own words and counts. */
  lemma SnapshotsTellTheCampaign(c: Campaign)
    ensures var s := SnapshotOf(c);
            && s.id == c.id && s.status == c.status && s.pauseReason == c.pauseReason && s.contacts == c.contacts
            && match Shown(c)
               case Some(p) => Progress(s.activity, s.nextDialAt, s.inFlight) == p
               case None => s.activity == "" && s.nextDialAt.None? && s.inFlight == 0
  {
  }

  /** A fire that finds the campaign deleted reports nothing and forgets it. */
  lemma DeletedCampaignsAreForgotten(w: World, i: nat)
    requires i < |w.fires| && w.fires[i].phase.Disarmed? && w.store.current.None?
    ensures var w' := Step(Step(w, Load(i, false)), Finish(i));
            w'.book == w.book.(index := None) && w'.store == w.store && w'.fires[i].phase.Over?
  {
  }

  //
  // Every window closes.
  //

  /** A step the reporter makes by itself, its reads succeeding. */
  predicate IsOwnStep(event: Event) {
    event.TimerFires? || event.Lock? || event.Disarm? || (event.Load? && !event.fails) || event.Finish?
  }

  /** The steps still ahead of a fire; one that failed to read opens another window. */
  function StepsOf(f: Fire): nat {
    match f.phase
    case Queued => 4
    case Holding => 3
    case Disarmed => 2
    case Loaded(read) => if read.Failed? then 6 else 1
    case Over => 0
  }

  function Ahead(fires: seq<Fire>): nat
    decreases |fires|
  {
    if fires == [] then 0 else Ahead(fires[..|fires| - 1]) + StepsOf(fires[|fires| - 1])
  }

  lemma {:induction false} AheadAfterMove(fires: seq<Fire>, i: nat, phase: Phase)
    requires i < |fires|
    ensures Ahead(Move(fires, i, phase)) == Ahead(fires) - StepsOf(fires[i]) + StepsOf(fires[i].(phase := phase))
    decreases |fires|
  {
    var last := |fires| - 1;
    if i == last {
      assert Move(fires, i, phase)[..last] == fires[..last];
    } else {
      assert Move(fires, i, phase)[..last] == Move(fires[..last], i, phase);
      AheadAfterMove(fires[..last], i, phase);
    }
  }

  function Left(w: World): nat {
    Ahead(w.fires) + if IsTimed(w.book) then 5 else 0
  }

  predicate IsTimed(b: Book) { b.entries != [] && b.entries[0].hasTimer }

  /** The step that comes next. */
  function Next(w: World, i: nat): Event
    requires i < |w.fires|
  {
    match w.fires[i].phase
    case Queued => Lock(i)
    case Holding => Event.Disarm(i)
    case Disarmed => Load(i, false)
    case Loaded(_) => Finish(i)
    case Over => Finish(i)
  }

  /** Worlds a run may reach before the campaign is deleted. */
  ghost predicate IsSound(w: World) { Inv(w) && Live(w) && w.store.current.Some? }

  /** No fire has failed to read and still to ask for another window. */
  ghost predicate NoneFailed(w: World) {
    forall i :: 0 <= i < |w.fires| ==> w.fires[i].phase != Loaded(Failed)
  }

  /** What a campaign is and owes, which the reporter's own steps leave as it is. */
  ghost predicate KeepsStore(w: World, w': World) {
    && w'.store.current == w.store.current && w'.store.isUntouched == w.store.isUntouched
    && w'.book.closed == w.book.closed
    && (NoneFailed(w) ==> NoneFailed(w'))
    && (!w.book.closed || NoneFailed(w) ==> w'.book.isLost == w.book.isLost)
  }

  lemma FireMovesOn(w: World, i: nat)
    requires IsSound(w) && i < |w.fires| && !w.fires[i].phase.Over?
    requires w.fires[i].phase.Queued? ==> IsFree(w.fires, w.fires[i].entry)
    ensures var w' := Step(w, Next(w, i));
            && i < |w'.fires| && w'.fires == Move(w.fires, i, w'.fires[i].phase)
            && w'.fires[i].phase != Loaded(Failed)
            && StepsOf(w'.fires[i]) < StepsOf(w.fires[i])
            && (w.fires[i].phase == Loaded(Failed) ==> w'.fires[i].phase.Over?)
            && (IsTimed(w'.book) ==> IsTimed(w.book) || w.fires[i].phase == Loaded(Failed))
  {
    var w' := Step(w, Next(w, i));
    match w.fires[i].phase {
      case Queued => assert w'.fires == Move(w.fires, i, Holding);
      case Holding => assert w'.fires == Move(w.fires, i, Disarmed);
      case Disarmed => assert w'.fires == Move(w.fires, i, w'.fires[i].phase);
      case Loaded(_) => assert w'.fires == Move(w.fires, i, Over);
    }
  }

  lemma FireKeepsStore(w: World, i: nat)
    requires i < |w.fires|
    ensures KeepsStore(w, Step(w, Next(w, i)))
  {
  }

  lemma MovingOnIsNearer(w: World, w': World, i: nat)
    requires i < |w.fires| && i < |w'.fires| && w'.fires == Move(w.fires, i, w'.fires[i].phase)
    requires StepsOf(w'.fires[i]) < StepsOf(w.fires[i])
    requires w.fires[i].phase == Loaded(Failed) ==> w'.fires[i].phase.Over?
    requires IsTimed(w'.book) ==> IsTimed(w.book) || w.fires[i].phase == Loaded(Failed)
    ensures Left(w') < Left(w)
  {
    AheadAfterMove(w.fires, i, w'.fires[i].phase);
  }

  /** A fire that holds its mutex, or one that waits while none does, comes a step nearer. */
  lemma FireMoves(w: World, i: nat)
    requires IsSound(w) && i < |w.fires| && !w.fires[i].phase.Over?
    requires w.fires[i].phase.Queued? ==> IsFree(w.fires, w.fires[i].entry)
    ensures var w' := Step(w, Next(w, i)); Left(w') < Left(w) && KeepsStore(w, w') && w'.store.current.Some?
  {
    var w' := Step(w, Next(w, i));
    FireMovesOn(w, i);
    FireKeepsStore(w, i);
    MovingOnIsNearer(w, w', i);
  }

  lemma TimerMoves(w: World)
    requires IsSound(w) && w.book.entries != [] && w.book.entries[0].hasTimer
    ensures var w' := Step(w, TimerFires(0)); Left(w') < Left(w) && KeepsStore(w, w') && w'.store.current.Some?
  {
    assert (w.fires + [Fire(0, Queued)])[..|w.fires|] == w.fires;
  }

  /** Unless all is quiet the reporter has a step to make. */
  lemma SomethingMoves(w: World) returns (event: Event)
    requires IsSound(w) && !IsQuiet(w)
    ensures IsOwnStep(event)
    ensures var w' := Step(w, event); Left(w') < Left(w) && KeepsStore(w, w') && w'.store.current.Some?
  {
    if i :| 0 <= i < |w.fires| && Holds(w.fires[i]) {
      FireMoves(w, i);
      event := Next(w, i);
    } else if i :| 0 <= i < |w.fires| && w.fires[i].phase.Queued? {
      FireMoves(w, i);
      event := Next(w, i);
    } else {
      TimerMoves(w);
      event := TimerFires(0);
    }
  }

  lemma RunMoves(c: Campaign, events: seq<Event>) returns (event: Event)
    requires Run(c, events).store.current.Some? && !IsQuiet(Run(c, events))
    ensures IsOwnStep(event)
    ensures var w, w' := Run(c, events), Run(c, events + [event]);
            Left(w') < Left(w) && KeepsStore(w, w') && w'.store.current.Some?
  {
    RunKeepsInv(c, events);
    event := SomethingMoves(Run(c, events));
    RunOneMore(c, events, event);
  }

  lemma StoreIsKept(w: World, w': World, w'': World)
    requires KeepsStore(w, w') && KeepsStore(w', w'')
    ensures KeepsStore(w, w'')
  {
  }

  /** The reporter's own steps lead from the run to one at rest. */
  ghost predicate LeadsToRest(c: Campaign, events: seq<Event>, more: seq<Event>) {
    && (forall i :: 0 <= i < |more| ==> IsOwnStep(more[i]))
    && IsQuiet(Run(c, events + more)) && KeepsStore(Run(c, events), Run(c, events + more))
  }

  lemma OneStepEarlier(c: Campaign, events: seq<Event>, event: Event, rest: seq<Event>)
    requires IsOwnStep(event) && KeepsStore(Run(c, events), Run(c, events + [event]))
    requires LeadsToRest(c, events + [event], rest)
    ensures LeadsToRest(c, events, [event] + rest)
  {
    assert events + ([event] + rest) == events + [event] + rest;
    StoreIsKept(Run(c, events), Run(c, events + [event]), Run(c, events + [event] + rest));
  }

  /** From wherever a run stands the reporter comes to rest by its own steps, if its reads
      succeed. */
  lemma {:induction false} EveryWindowCloses(c: Campaign, events: seq<Event>) returns (more: seq<Event>)
    requires Run(c, events).store.current.Some?
    ensures LeadsToRest(c, events, more)
    decreases Left(Run(c, events))
  {
    if IsQuiet(Run(c, events)) {
      more := [];
      assert events + more == events;
    } else {
      var event := RunMoves(c, events);
      var rest := EveryWindowCloses(c, events + [event]);
      more := [event] + rest;
      OneStepEarlier(c, events, event, rest);
    }
  }

  /** So a change that was touched comes through: from any point of any run of an open
      reporter its own steps lead to a last report that tells the campaign as it stands. */
  lemma TouchedChangesComeThrough(c: Campaign, events: seq<Event>) returns (more: seq<Event>)
    requires var w := Run(c, events);
             w.store.current.Some? && !w.store.isUntouched && !w.book.closed && !w.book.isLost
    ensures forall i :: 0 <= i < |more| ==> IsOwnStep(more[i])
    ensures LastOf(Run(c, events + more).book.emitted) == Some(SnapshotOf(Run(c, events).store.current.value))
  {
    more := EveryWindowCloses(c, events);
    NoChangeIsLost(c, events + more);
  }

  /** Close reports what is still waiting: from any point of any run, unless a read had just
      failed, it and the steps that follow end the same way. */
  lemma ClosingReportsTheRest(c: Campaign, events: seq<Event>) returns (more: seq<Event>)
    requires var w := Run(c, events);
             w.store.current.Some? && !w.store.isUntouched && !w.book.isLost && NoneFailed(w)
    ensures forall i :: 0 <= i < |more| ==> IsOwnStep(more[i])
    ensures LastOf(Run(c, events + [Close] + more).book.emitted) ==
            Some(SnapshotOf(Run(c, events).store.current.value))
  {
    RunOneMore(c, events, Close);
    more := EveryWindowCloses(c, events + [Close]);
    NoChangeIsLost(c, events + [Close] + more);
  }
}
