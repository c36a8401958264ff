/** What each event does to the floor, the send queue and the playback watcher, and when, in
    terms of what the leg and the model saw. */
module PlaybackLaws {
  import opened Util
  import opened PlaybackSteps
  import opened PlaybackRuns

  //
  // Who has the floor.
  //

  /** The bot is speaking, or audio of its turn is still queued. */
  predicate IsInPlay(c: Call) { c.floor.isBotSpeaking || (c.floor.framesQueued > 0 && c.leg.queue != []) }

  /** The caller has the floor: nothing is queued, the bot neither speaks nor answers, and a
      turn that was being made is fenced off. One report told the model. */
  ghost predicate IsTaken(c: Call, c': Call) {
    && c'.leg == Leg(c.leg.sent, [], c.leg.wire) && !IsInPlay(c') && !c'.floor.isResponding
    && c'.floor.isCutOff == (c.floor.isCutOff || c.floor.isResponding)
    && |c'.told| == |c.told| + 1 && c'.told[..|c.told|] == c.told
  }

  /** Speech outside the barge-in guard takes the floor while audio is in play; speech inside
      it, the bot's own echo, or over silence, leaves the leg, the floor and what was told as
      they were. All speech ends the dead-air watch. */
  lemma SpeechTakesTheFloorExactlyWhen(c: Call, isGuarded: bool)
    ensures var c' := Step(c, SpeechStarted(isGuarded));
            && (if IsInPlay(c) && !isGuarded then IsTaken(c, c')
                else c'.leg == c.leg && c'.floor == c.floor && c'.told == c.told && c'.gens.drain == c.gens.drain)
            && c'.gens.idle > c.gens.idle
  {
  }

  /** A key takes the floor while audio is in play or a response is open, and does nothing
      to an armed ending. */
  lemma KeysTakeTheFloorExactlyWhen(c: Call, isEndingArmed: bool)
    ensures var c' := Step(c, Digit(isEndingArmed));
            if !isEndingArmed && (IsInPlay(c) || c.floor.isResponding) then IsTaken(c, c') else c' == c
  {
  }

  /** In every run what the model is told then is how much of the turn was heard. */
  lemma TakingTheFloorTellsWhatWasHeard(events: seq<Event>, event: Event)
    requires event.SpeechStarted? || event.Digit?
    ensures var c, c' := Run(events), Step(Run(events), event);
            |c'.told| > |c.told| ==>
              c'.told[|c.told|] == (if c.floor.framesQueued == 0 then -1
                                    else FRAME_MS * Heard(c.leg.wire, c.floor.since))
  {
    TheModelIsToldWhatWasHeard(events, event);
  }

  /** A cancellation the provider reports flushes the queue and tells of the flush, if the
      turn queued anything; the bot stops answering unless a newer turn is open. */
  lemma InterruptionsDo(c: Call)
    ensures var c' := Step(c, Interrupted);
            && c'.leg == Leg(c.leg.sent, [], c.leg.wire) && !IsInPlay(c')
            && c'.floor.isResponding == (c.floor.isResponding && c.floor.openTurns >= 2)
            && c'.floor.openTurns == Max(c.floor.openTurns - 1, 0)
            && |c'.told| == |c.told| + (if c.floor.framesQueued > 0 then 1 else 0)
            && c'.floor.isCutOff == c.floor.isCutOff
  {
  }

  /** Muting the turn in progress flushes the queue and fences off what is still being made
      of it, and tells the model nothing; any other turn is left alone. */
  lemma MutingDoes(c: Call, turn: nat)
    ensures var c' := Step(c, MuteTurn(turn));
            if turn != 0 && turn == c.turns.current then
              && c'.leg == Leg(c.leg.sent, [], c.leg.wire) && c'.told == c.told && c'.turns.muted == turn
              && c'.floor.isResponding == c.floor.isResponding
              && c'.floor.isCutOff == (c.floor.isCutOff || c.floor.isResponding)
            else c' == c
  {
  }

  //
  // What is queued.
  //

  lemma {:induction false} QueueTakesWhatFits(c: Call, n: nat)
    requires |c.leg.queue| <= LEG_CAPACITY
    ensures var c' := QueueFrames(c, n);
            && |c'.leg.queue| == Min(|c.leg.queue| + n, LEG_CAPACITY)
            && c.leg.queue <= c'.leg.queue && c'.leg.sent - c.leg.sent == |c'.leg.queue| - |c.leg.queue|
            && c'.leg.wire == c.leg.wire && c'.told == c.told && c'.gens == c.gens
            && c'.floor == c.floor.(framesQueued := c.floor.framesQueued + c'.leg.sent - c.leg.sent)
  {
    if n > 0 {
      QueueTakesWhatFits(c, n - 1);
    }
  }

  /** In every run a chunk of audio is queued frame by frame behind what waits, as far as the
      leg has room, unless the call is hushed or the turn was cut off. */
  lemma AudioIsQueuedExactlyWhen(events: seq<Event>, frames: nat, hasRest: bool, isHushed: bool)
    ensures var c := Run(events);
            var c' := Step(c, AudioDelta(frames, hasRest, isHushed));
            if isHushed || c.floor.isCutOff then c' == c
            else
              && c'.floor.isBotSpeaking && c'.floor.hasRest == hasRest
              && |c'.leg.queue| == Min(|c.leg.queue| + frames, 1500) && c.leg.queue <= c'.leg.queue
              && c'.floor.framesQueued - c.floor.framesQueued == |c'.leg.queue| - |c.leg.queue|
  {
    RunKeepsInv(INITIAL, events);
    var c := Run(events);
    QueueTakesWhatFits(c.(floor := c.floor.(isBotSpeaking := true, hasRest := hasRest)), frames);
  }

  /** A turn starts with nothing counted and no fence, but one asked for by muting it; what
      an earlier turn queued still plays. */
  lemma StartsDo(c: Call)
    ensures var c' := Step(c, ResponseStarted);
            && c'.leg == c.leg && c'.told == c.told
            && c'.turns.current == c.turns.current + 1 && c'.floor.framesQueued == 0 && c'.floor.isResponding
            && c'.floor.openTurns == Min(c.floor.openTurns + 1, 2)
            && c'.floor.isCutOff == c.turns.isNextMuted && !c'.turns.isNextMuted
            && c'.turns.muted == (if c.turns.isNextMuted then c'.turns.current else c.turns.muted)
            && c'.gens == Generations(c.gens.drain + 1, c.gens.idle + 1)
  {
  }

  /** A turn ends with its last part of a frame queued, if there is room; it counts as one
      with audio exactly when it queued any, and the watcher is handed it unless it is eight
      behind. Who is silent stays silent. */
  lemma EndsDo(c: Call)
    ensures var c' := Step(c, ResponseDone);
            var isPadded := c.floor.hasRest && |c.leg.queue| < 1500;
            var hasAudio := c.floor.framesQueued > 0 || isPadded;
            && c'.leg.sent == c.leg.sent + (if isPadded then 1 else 0)
            && !c'.floor.isResponding && !c'.floor.isBotSpeaking && !c'.floor.hasRest
            && c'.floor.openTurns == Max(c.floor.openTurns - 1, 0)
            && c'.turns == (if hasAudio then c.turns.(audioTurns := c.turns.audioTurns + 1,
                                                      lastAudioTurn := c.turns.current)
                            else c.turns)
            && c'.gens == Generations(c.gens.drain + 1, c.gens.idle)
            && c'.watcher.channel == c.watcher.channel
                                     + (if |c.watcher.channel| == 8 then []
                                        else [Marker(c'.gens.drain, c.turns.current, hasAudio)])
  {
  }

  //
  // What the watcher publishes.
  //

  predicate IsFollowing(w: Watcher) { w.watch.Draining? || w.watch.Settling? }

  /** A turn handed over whose audio has left the queue is published after two looks, one
      frame apart, if nothing disturbed it; if something did, it is not. */
  lemma DrainedTurnsArePublished(c: Call, isDeadAirWatched: bool)
    requires c.watcher.channel != [] && !IsFollowing(c.watcher) && c.leg.queue == []
    ensures var m := c.watcher.channel[0];
            var looked := Step(Step(c, MarkerTaken), DrainTick(isDeadAirWatched));
            var c' := Step(looked, DrainTick(isDeadAirWatched));
            && c'.watcher.channel == c.watcher.channel[1..]
            && (if m.generation == c.gens.drain then
                  && looked.watcher.played == c.watcher.played && c'.watcher.played == c.watcher.played + [m]
                  && c'.watcher.watch == (if isDeadAirWatched then Quiet(m, c.gens.idle) else Resting)
                else c'.watcher.played == c.watcher.played && c'.watcher.watch == Resting)
  {
  }

  /** One still queued is waited for. */
  lemma QueuedTurnsAreWaitedFor(c: Call, isDeadAirWatched: bool)
    requires c.watcher.watch.Draining? && c.leg.queue != [] && c.watcher.watch.marker.generation == c.gens.drain
    ensures Step(c, DrainTick(isDeadAirWatched)) == c
  {
  }

  /** A caller who stays quiet after it is reported, and again after each re-arm asked for. */
  lemma SilenceIsReported(c: Call)
    requires c.watcher.watch.Quiet? && c.watcher.watch.idle == c.gens.idle
    ensures var reported := Step(c, SilenceElapses);
            var again := Step(Step(Step(reported, RewatchDeadAir), RearmTaken), SilenceElapses);
            && reported.watcher.silences == c.watcher.silences + [c.watcher.watch.marker]
            && again.watcher.silences == reported.watcher.silences + [c.watcher.watch.marker]
            && Step(reported, SilenceElapses).watcher.silences == reported.watcher.silences
  {
  }
}
