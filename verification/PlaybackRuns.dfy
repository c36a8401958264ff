/** What holds in every run of the playback accounting. */
module PlaybackRuns {
  import opened Util
  import opened PlaybackSteps

  /** How many frames of the current turn, counted since its audio was last flushed, left
      the queue for the caller. */
  function Heard(wire: seq<nat>, since: nat): nat
    decreases |wire|
  {
    if wire == [] then 0
    else Heard(wire[..|wire| - 1], since) + if wire[|wire| - 1] >= since then 1 else 0
  }

  lemma {:induction false} NothingHeardSince(wire: seq<nat>, since: nat)
    requires forall i :: 0 <= i < |wire| ==> wire[i] < since
    ensures Heard(wire, since) == 0
    decreases |wire|
  {
    if wire != [] {
      NothingHeardSince(wire[..|wire| - 1], since);
    }
  }

  /** The number of the frame the queue starts at. */
  function First(leg: Leg): int { leg.sent - |leg.queue| }

  ghost predicate LegInv(leg: Leg) {
    && |leg.queue| <= LEG_CAPACITY && |leg.queue| <= leg.sent
    && (forall i :: 0 <= i < |leg.queue| ==> leg.queue[i] == First(leg) + i)
    && (forall i :: 0 <= i < |leg.wire| ==> leg.wire[i] < First(leg))
    && (forall i, j :: 0 <= i < j < |leg.wire| ==> leg.wire[i] < leg.wire[j])
  }

  /** Nothing sent since `since` is lost. */
  ghost predicate Delivers(leg: Leg, since: nat) {
    && since <= leg.sent
    && (forall f: nat :: since <= f < First(leg) ==> f in leg.wire)
    && Heard(leg.wire, since) == Max(First(leg) - since, 0)
  }

  ghost predicate Inv(c: Call) {
    && LegInv(c.leg)
    && Delivers(c.leg, c.floor.since)
    && c.floor.framesQueued == c.leg.sent - c.floor.since
  }

  lemma TakingKeepsInv(c: Call)
    requires Inv(c)
    ensures Inv(TakeFrame(c))
  {
    if c.leg.queue != [] {
      var leg := TakeFrame(c).leg;
      assert leg.wire[..|leg.wire| - 1] == c.leg.wire;
      assert leg.wire[|leg.wire| - 1] == First(c.leg);
      forall f: nat | c.floor.since <= f < First(leg)
        ensures f in leg.wire
      {
        if f < First(c.leg) {
          assert f in c.leg.wire;
        }
      }
    }
  }

  lemma QueueingKeepsInv(c: Call)
    requires Inv(c)
    ensures Inv(QueueFrame(c))
  {
  }

  lemma {:induction false} QueueingAllKeepsInv(c: Call, n: nat)
    requires Inv(c)
    ensures Inv(QueueFrames(c, n))
  {
    if n > 0 {
      QueueingAllKeepsInv(c, n - 1);
      QueueingKeepsInv(QueueFrames(c, n - 1));
    }
  }

  lemma StoppingKeepsInv(c: Call, endsTheTurn: bool)
    requires LegInv(c.leg)
    ensures Inv(StopPlayback(c, endsTheTurn))
  {
    NothingHeardSince(c.leg.wire, c.leg.sent);
  }

  /** Inv is about the leg and two counters only. */
  lemma InvFrame(c: Call, c': Call)
    requires Inv(c) && c'.leg == c.leg
    requires c'.floor.since == c.floor.since && c'.floor.framesQueued == c.floor.framesQueued
    ensures Inv(c')
  {
  }

  lemma FlushKeepsInv(c: Call, event: Event)
    requires Inv(c) && DisturbsDrain(c, event) && !event.ResponseStarted? && !event.ResponseDone?
    ensures Inv(Step(c, event))
  {
    StoppingKeepsInv(c, true);
    InvFrame(StopPlayback(c, true), Step(c, event));
  }

  lemma EndTurnKeepsInv(c: Call)
    requires Inv(c)
    ensures Inv(EndTurn(c))
  {
    QueueingKeepsInv(c);
    InvFrame(if c.floor.hasRest then QueueFrame(c) else c, EndTurn(c));
  }

  lemma StepKeepsInv(c: Call, event: Event)
    requires Inv(c)
    ensures Inv(Step(c, event))
  {
    var c' := Step(c, event);
    match event {
      case AudioDelta(frames, hasRest, isHushed) =>
        QueueingAllKeepsInv(c.(floor := c.floor.(isBotSpeaking := true, hasRest := hasRest)), frames);
      case WireTakesFrame => TakingKeepsInv(c);
      case ResponseStarted => NothingHeardSince(c.leg.wire, c.leg.sent);
      case ResponseDone => EndTurnKeepsInv(c);
      case _ =>
        if DisturbsDrain(c, event) {
          FlushKeepsInv(c, event);
        } else {
          InvFrame(c, c');
        }
    }
  }

  lemma {:induction false} RunKeepsInv(c: Call, events: seq<Event>)
    requires Inv(c)
    ensures Inv(RunFrom(c, events))
    decreases |events|
  {
    if events != [] {
      RunKeepsInv(c, events[..|events| - 1]);
      StepKeepsInv(RunFrom(c, events[..|events| - 1]), events[|events| - 1]);
    }
  }

  /** The played time reported at a flush is exact: it counts the frames of the current
      turn that left the queue, whatever an earlier turn still had in it. */
  lemma PlayedTimeIsExact(events: seq<Event>)
    ensures var c := Run(events);
            PlayedMs(c) == FRAME_MS * Heard(c.leg.wire, c.floor.since)
  {
    RunKeepsInv(INITIAL, events);
    DeliveredIsPlayed(Run(events));
  }

  lemma DeliveredIsPlayed(c: Call)
    requires Inv(c)
    ensures PlayedMs(c) == FRAME_MS * Heard(c.leg.wire, c.floor.since)
  {
  }

  /** So what the model is told is what was heard, and not known when nothing was queued. */
  lemma TheModelIsToldWhatWasHeard(events: seq<Event>, event: Event)
    ensures var c, c' := Run(events), Step(Run(events), event);
            c'.told != c.told ==>
              && |c'.told| == |c.told| + 1 && c'.told[..|c.told|] == c.told
              && c'.leg.queue == [] && c'.leg.wire == c.leg.wire
              && c'.told[|c.told|] == (if c.floor.framesQueued == 0 then -1
                                       else FRAME_MS * Heard(c.leg.wire, c.floor.since))
  {
    var c := Run(events);
    PlayedTimeIsExact(events);
    match event {
      case AudioDelta(frames, hasRest, _) =>
        QueueingTellsNothing(c.(floor := c.floor.(isBotSpeaking := true, hasRest := hasRest)), frames);
      case _ =>
    }
  }

  /** Queueing only adds frames. */
  lemma {:induction false} QueueingTellsNothing(c: Call, n: nat)
    ensures var c' := QueueFrames(c, n);
            && c' == c.(leg := c'.leg, floor := c.floor.(framesQueued := c'.floor.framesQueued))
            && c'.leg.sent >= c.leg.sent && c'.leg.wire == c.leg.wire
            && |c'.leg.queue| - |c.leg.queue| == c'.leg.sent - c.leg.sent
            && c'.leg.sent - c.leg.sent == c'.floor.framesQueued - c.floor.framesQueued
  {
    if n > 0 {
      QueueingTellsNothing(c, n - 1);
    }
  }

  //
  // The drain decision.
  //

  /** Whether an event flushes audio, starts a turn or ends one. */
  predicate DisturbsDrain(c: Call, event: Event) {
    match event
    case ResponseStarted => true
    case ResponseDone => true
    case Interrupted => true
    case MuteTurn(turn) => turn != 0 && turn == c.turns.current
    case SpeechStarted(isGuarded) => TakesTheFloor(c.floor, |c.leg.queue|, false, isGuarded)
    case Digit(isEndingArmed) => !isEndingArmed && TakesTheFloor(c.floor, |c.leg.queue|, true, false)
    case _ => false
  }

  predicate DrainUndisturbed(c: Call, events: seq<Event>)
    decreases |events|
  {
    events == [] ||
    (var before, event := events[..|events| - 1], events[|events| - 1];
     DrainUndisturbed(c, before) && !DisturbsDrain(RunFrom(c, before), event))
  }

  /** An event bumps the drain generation exactly when it disturbs the drain; otherwise
      everything queued stays queued or reaches the wire. */
  lemma DisturbancesMoveTheDrain(c: Call, event: Event)
    ensures var c' := Step(c, event);
            && c'.gens.drain == c.gens.drain + (if DisturbsDrain(c, event) then 1 else 0)
            && c'.leg.sent >= c.leg.sent
            && (!DisturbsDrain(c, event) ==> c'.floor.since == c.floor.since && First(c'.leg) >= First(c.leg))
  {
    match event {
      case AudioDelta(frames, hasRest, _) =>
        QueueingTellsNothing(c.(floor := c.floor.(isBotSpeaking := true, hasRest := hasRest)), frames);
      case _ =>
    }
  }

  /** Every marker the watcher holds is of this or an earlier drain generation. */
  ghost predicate Markers(w: Watcher, drain: nat) {
    && (forall i :: 0 <= i < |w.channel| ==> w.channel[i].generation <= drain)
    && (w.watch.Draining? || w.watch.Settling? ==> w.watch.marker.generation <= drain)
  }

  lemma StepKeepsMarkers(c: Call, event: Event)
    requires Markers(c.watcher, c.gens.drain)
    ensures Markers(Step(c, event).watcher, Step(c, event).gens.drain)
  {
    DisturbancesMoveTheDrain(c, event);
    match event {
      case AudioDelta(frames, hasRest, _) =>
        QueueingTellsNothing(c.(floor := c.floor.(isBotSpeaking := true, hasRest := hasRest)), frames);
      case _ =>
    }
  }

  lemma {:induction false} RunKeepsMarkers(events: seq<Event>)
    ensures Markers(Run(events).watcher, Run(events).gens.drain)
    decreases |events|
  {
    if events != [] {
      RunKeepsMarkers(events[..|events| - 1]);
      StepKeepsMarkers(Run(events[..|events| - 1]), events[|events| - 1]);
    }
  }

  /** What is known of the call when events have followed a turn's end. */
  ghost predicate SinceEnd(ended: Call, now: Call, isUndisturbed: bool) {
    && now.gens.drain >= ended.gens.drain
    && (now.gens.drain == ended.gens.drain <==> isUndisturbed)
    && now.leg.sent >= ended.leg.sent
    && (isUndisturbed ==>
          && now.floor.since == ended.floor.since
          && (now.watcher.watch.Settling? && now.watcher.watch.marker.generation == ended.gens.drain ==>
                First(now.leg) >= ended.leg.sent))
  }

  lemma {:induction false} EventsSinceEnd(c: Call, after: seq<Event>)
    requires Markers(c.watcher, c.gens.drain)
    ensures SinceEnd(EndTurn(c), RunFrom(EndTurn(c), after), DrainUndisturbed(EndTurn(c), after))
    decreases |after|
  {
    if after != [] {
      var before, event := after[..|after| - 1], after[|after| - 1];
      EventsSinceEnd(c, before);
      var now := RunFrom(EndTurn(c), before);
      DisturbancesMoveTheDrain(now, event);
      SettlingMeansDrained(now, event);
    }
  }

  /** The watcher starts to settle only on an empty queue. */
  lemma SettlingMeansDrained(c: Call, event: Event)
    ensures var w, w' := c.watcher.watch, Step(c, event).watcher.watch;
            w'.Settling? ==> w == w' || (Step(c, event).leg == c.leg && c.leg.queue == [])
  {
    match event {
      case AudioDelta(frames, hasRest, _) =>
        QueueingTellsNothing(c.(floor := c.floor.(isBotSpeaking := true, hasRest := hasRest)), frames);
      case _ =>
    }
  }

  lemma DrainedMeansHeard(ended: Call, now: Call)
    requires Inv(ended) && Inv(now) && now.floor.since == ended.floor.since && First(now.leg) >= ended.leg.sent
    ensures forall f: nat :: ended.floor.since <= f < ended.leg.sent ==> f in now.leg.wire
    ensures Heard(now.leg.wire, ended.floor.since) >= ended.floor.framesQueued
  {
  }

  lemma SettlingPublishes(c: Call, isDeadAirWatched: bool)
    requires c.watcher.watch.Settling?
    ensures var m := c.watcher.watch.marker;
            var played := Step(c, DrainTick(isDeadAirWatched)).watcher.played;
            && (played == c.watcher.played + [m] <==> m.generation == c.gens.drain)
            && (played == c.watcher.played <==> m.generation != c.gens.drain)
  {
    assert |c.watcher.played + [c.watcher.watch.marker]| > |c.watcher.played|;
  }

  /** PLAYBACK_DONE of a turn whose drain the watcher is settling is published exactly
      when no flush, turn start or other turn end came after its end. */
  lemma DrainDecision(before: seq<Event>, after: seq<Event>, isDeadAirWatched: bool)
    ensures var ended := EndTurn(Run(before));
            var marker := EndMarker(EndGeneration(Run(before)));
            var now := RunFrom(ended, after);
            var played := Step(now, DrainTick(isDeadAirWatched)).watcher.played;
            now.watcher.watch == Settling(marker) ==>
              && (played == now.watcher.played + [marker] <==> DrainUndisturbed(ended, after))
              && (played == now.watcher.played <==> !DrainUndisturbed(ended, after))
  {
    RunKeepsMarkers(before);
    EventsSinceEnd(Run(before), after);
    var now := RunFrom(EndTurn(Run(before)), after);
    if now.watcher.watch.Settling? {
      SettlingPublishes(now, isDeadAirWatched);
    }
  }

  lemma EndKeepsInv(before: seq<Event>, after: seq<Event>)
    ensures Inv(EndTurn(Run(before))) && Inv(RunFrom(EndTurn(Run(before)), after))
  {
    RunKeepsInv(INITIAL, before);
    EndTurnKeepsInv(Run(before));
    RunKeepsInv(EndTurn(Run(before)), after);
  }

  /** And then every frame of the turn is on the wire. Speech that does not take the floor
      is no disturbance. */
  lemma DrainedTurnsAreHeardWhole(before: seq<Event>, after: seq<Event>)
    ensures var ended, now := EndTurn(Run(before)), RunFrom(EndTurn(Run(before)), after);
            && now.watcher.watch == Settling(EndMarker(EndGeneration(Run(before))))
            && DrainUndisturbed(ended, after) ==>
              && (forall f: nat :: ended.floor.since <= f < ended.leg.sent ==> f in now.leg.wire)
              && Heard(now.leg.wire, ended.floor.since) >= ended.floor.framesQueued
  {
    var ended, now := EndTurn(Run(before)), RunFrom(EndTurn(Run(before)), after);
    EndKeepsInv(before, after);
    RunKeepsMarkers(before);
    EventsSinceEnd(Run(before), after);
    if now.watcher.watch == Settling(EndMarker(EndGeneration(Run(before)))) && DrainUndisturbed(ended, after) {
      DrainedMeansHeard(ended, now);
    }
  }

  //
  // The dead-air decision.
  //

  predicate DisturbsIdle(c: Call, event: Event) {
    event.SpeechStarted? || (!event.ResponseDone? && DisturbsDrain(c, event))
  }

  predicate IdleUndisturbed(c: Call, events: seq<Event>)
    decreases |events|
  {
    events == [] ||
    (var before, event := events[..|events| - 1], events[|events| - 1];
     IdleUndisturbed(c, before) && !DisturbsIdle(RunFrom(c, before), event))
  }

  /** What is known when events have followed a PLAYBACK_DONE, none of them another. */
  ghost predicate SinceHeard(heard: Call, now: Call, isUndisturbed: bool) {
    && now.gens.idle >= heard.gens.idle
    && (now.gens.idle == heard.gens.idle <==> isUndisturbed)
    && |now.watcher.played| >= |heard.watcher.played|
    && (|now.watcher.played| == |heard.watcher.played| && (now.watcher.watch.Quiet? || now.watcher.watch.Fired?) ==>
          now.watcher.watch.idle == heard.gens.idle)
  }

  lemma StepSinceHeard(heard: Call, now: Call, event: Event, isUndisturbed: bool)
    requires SinceHeard(heard, now, isUndisturbed)
    ensures SinceHeard(heard, Step(now, event), isUndisturbed && !DisturbsIdle(now, event))
  {
    match event {
      case AudioDelta(frames, hasRest, _) =>
        QueueingTellsNothing(now.(floor := now.floor.(isBotSpeaking := true, hasRest := hasRest)), frames);
      case _ =>
    }
  }

  lemma {:induction false} EventsSinceHeard(heard: Call, after: seq<Event>)
    requires heard.watcher.watch.Quiet? && heard.watcher.watch.idle == heard.gens.idle
    ensures SinceHeard(heard, RunFrom(heard, after), IdleUndisturbed(heard, after))
    decreases |after|
  {
    if after != [] {
      EventsSinceHeard(heard, after[..|after| - 1]);
      StepSinceHeard(heard, RunFrom(heard, after[..|after| - 1]), after[|after| - 1],
                     IdleUndisturbed(heard, after[..|after| - 1]));
    }
  }

  /** When the silence has lasted, NO_INPUT is published exactly when no speech, flush or
      turn start came after the PLAYBACK_DONE the watch belongs to. */
  lemma DeadAirDecision(c: Call, after: seq<Event>)
    requires c.watcher.watch.Settling? && c.watcher.watch.marker.generation == c.gens.drain
    ensures var heard := Step(c, DrainTick(true));
            var now := RunFrom(heard, after);
            |now.watcher.played| == |heard.watcher.played| && now.watcher.watch.Quiet? ==>
              (Step(now, SilenceElapses).watcher.silences != now.watcher.silences <==> IdleUndisturbed(heard, after))
  {
    EventsSinceHeard(Step(c, DrainTick(true)), after);
    var now := RunFrom(Step(c, DrainTick(true)), after);
    if now.watcher.watch.Quiet? {
      assert |now.watcher.silences + [now.watcher.watch.marker]| > |now.watcher.silences|;
    }
  }

  //
  // The fence.
  //

  ghost predicate Fenced(c: Call) {
    c.floor.isCutOff && !c.floor.hasRest && c.floor.framesQueued == 0 && c.leg.queue == []
  }

  lemma FenceHolds(c: Call, event: Event)
    requires Fenced(c) && !event.ResponseStarted?
    ensures var c' := Step(c, event);
            Fenced(c') && c'.leg == c.leg
  {
  }

  lemma {:induction false} FenceHoldsThrough(c: Call, after: seq<Event>)
    requires Fenced(c) && (forall i :: 0 <= i < |after| ==> !after[i].ResponseStarted?)
    ensures Fenced(RunFrom(c, after)) && RunFrom(c, after).leg == c.leg
    decreases |after|
  {
    if after != [] {
      FenceHoldsThrough(c, after[..|after| - 1]);
      FenceHolds(RunFrom(c, after[..|after| - 1]), after[|after| - 1]);
    }
  }

  /** Once a turn still being generated is cut by the caller or muted, none of what the
      model goes on sending of it is queued: nothing is until the next turn starts. */
  lemma CutAudioIsNeverQueued(c: Call, event: Event, after: seq<Event>)
    requires c.floor.isResponding && DisturbsDrain(c, event)
    requires event.SpeechStarted? || event.Digit? || event.MuteTurn?
    requires forall i :: 0 <= i < |after| ==> !after[i].ResponseStarted?
    ensures RunFrom(Step(c, event), after).leg == Leg(c.leg.sent, [], c.leg.wire)
  {
    FenceHoldsThrough(Step(c, event), after);
  }

  /** A cut the session saw first is told once: until the next turn starts nothing more is
      told after a caller took the floor from a turn being generated. */
  lemma {:induction false} OneCutIsToldOnce(c: Call, event: Event, after: seq<Event>)
    requires c.floor.isResponding && DisturbsDrain(c, event) && (event.SpeechStarted? || event.Digit?)
    requires forall i :: 0 <= i < |after| ==> !after[i].ResponseStarted?
    ensures var cut := RunFrom(Step(c, event), after);
            |cut.told| == |c.told| + 1 && !cut.floor.isResponding && !cut.floor.isBotSpeaking
    decreases |after|
  {
    if after != [] {
      var before := after[..|after| - 1];
      OneCutIsToldOnce(c, event, before);
      FenceHoldsThrough(Step(c, event), before);
    }
  }

  /** The audio is dropped as it comes. */
  predicate IsDropped(event: Event, isCutOff: bool) { event.AudioDelta? ==> event.isHushed || isCutOff }

  /** A cut the provider reported first, of the turn in progress, raises no fence. It too is
      told once if no audio of the cancelled turn is let through after it: until the next
      turn starts nothing more is told. */
  lemma {:induction false} ProviderCutIsToldOnce(c: Call, after: seq<Event>)
    requires OneFewer(c.floor.openTurns) == 0
    requires forall i :: 0 <= i < |after| ==> !after[i].ResponseStarted? && IsDropped(after[i], c.floor.isCutOff)
    ensures var cut, now := Step(c, Interrupted), RunFrom(Step(c, Interrupted), after);
            && now.told == cut.told && (c.floor.isCutOff ==> now.floor.isCutOff)
            && HasNothingToCut(now)
    decreases |after|
  {
    if after != [] {
      ProviderCutIsToldOnce(c, after[..|after| - 1]);
      NothingIsTold(RunFrom(Step(c, Interrupted), after[..|after| - 1]), after[|after| - 1]);
    }
  }

  predicate HasNothingToCut(c: Call) {
    && !c.floor.isBotSpeaking && !c.floor.isResponding && !c.floor.hasRest
    && c.floor.framesQueued == 0 && c.leg.queue == []
  }

  lemma NothingIsTold(c: Call, event: Event)
    requires HasNothingToCut(c) && !event.ResponseStarted? && IsDropped(event, c.floor.isCutOff)
    ensures var c' := Step(c, event);
            HasNothingToCut(c') && c'.told == c.told && (c.floor.isCutOff ==> c'.floor.isCutOff)
  {
  }

  /** Audio that is let through can be cut again, and that is told: a chunk after the
      provider's cut and then a keypress tell the model a second time exactly when the
      chunk was not dropped. */
  lemma LateAudioIsToldAgain(c: Call, frames: nat, hasRest: bool, isHushed: bool)
    requires OneFewer(c.floor.openTurns) == 0
    ensures var cut := Step(c, Interrupted);
            var late := Step(Step(cut, AudioDelta(frames, hasRest, isHushed)), Digit(false));
            |late.told| > |cut.told| <==> !IsDropped(AudioDelta(frames, hasRest, isHushed), c.floor.isCutOff)
  {
    var cut := Step(c, Interrupted);
    QueueingTellsNothing(cut.(floor := cut.floor.(isBotSpeaking := true, hasRest := hasRest)), frames);
  }

  //
  // Turns and their playback, in the order the armed ending takes for granted.
  //

  /** Turn numbers never fall. */
  lemma TurnsNeverFall(c: Call, event: Event)
    ensures c.turns.current <= Step(c, event).turns.current <= c.turns.current + 1
  {
    match event {
      case AudioDelta(frames, hasRest, _) =>
        QueueingTellsNothing(c.(floor := c.floor.(isBotSpeaking := true, hasRest := hasRest)), frames);
      case _ =>
    }
  }

  /** The marker is of a turn's end in the run. */
  ghost predicate WasEnded(events: seq<Event>, m: Marker) {
    exists k: nat :: EndedAt(events, k, m)
  }

  ghost predicate EndedAt(events: seq<Event>, k: nat, m: Marker) {
    k < |events| && events[k] == ResponseDone && m == EndMarker(EndGeneration(Run(events[..k])))
  }

  lemma EndedStill(before: seq<Event>, event: Event, m: Marker)
    requires WasEnded(before, m)
    ensures WasEnded(before + [event], m)
  {
    var k: nat :| EndedAt(before, k, m);
    assert (before + [event])[..k] == before[..k];
    assert EndedAt(before + [event], k, m);
  }

  /** The markers the watcher holds or has published. */
  predicate Holds(w: Watcher, m: Marker) {
    m in w.channel || m in w.played || (!w.watch.Resting? && w.watch.marker == m)
  }

  lemma OnlyEndsMakeMarkers(c: Call, event: Event, m: Marker)
    requires Holds(Step(c, event).watcher, m)
    ensures Holds(c.watcher, m) || (event.ResponseDone? && m == EndMarker(EndGeneration(c)))
  {
    match event {
      case AudioDelta(frames, hasRest, _) =>
        QueueingTellsNothing(c.(floor := c.floor.(isBotSpeaking := true, hasRest := hasRest)), frames);
      case _ =>
    }
  }

  /** Every PLAYBACK_DONE is of a turn whose end came before it in the run, with the same
      turn and the same audio. */
  lemma {:induction false} PlaybackFollowsTheTurnsEnd(events: seq<Event>, m: Marker)
    requires Holds(Run(events).watcher, m)
    ensures WasEnded(events, m)
    decreases |events|
  {
    if events != [] {
      var before, event := events[..|events| - 1], events[|events| - 1];
      assert events == before + [event];
      OnlyEndsMakeMarkers(Run(before), event, m);
      if Holds(Run(before).watcher, m) {
        PlaybackFollowsTheTurnsEnd(before, m);
        EndedStill(before, event, m);
      } else {
        assert EndedAt(events, |before|, m);
      }
    }
  }
}
