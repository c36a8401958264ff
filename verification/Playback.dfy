/** The Session's playback methods themselves: each is proved to make the step of
    PlaybackSteps. */
module Playback {
  import opened Util
  import opened PlaybackSteps

  /** The Session, its leg and its playback watcher. Methods run under mu, one at a time. */
  class Session {
    var leg: Leg
    var floor: Floor
    var turns: Turns
    var gens: Generations
    var watcher: Watcher
    var told: seq<int>

    ghost function State(): Call
      reads this
    {
      Call(leg, floor, turns, gens, watcher, told)
    }

    constructor ()
      ensures State() == INITIAL
    {
      leg, floor, turns, gens, watcher, told :=
        INITIAL.leg, INITIAL.floor, INITIAL.turns, INITIAL.gens, INITIAL.watcher, INITIAL.told;
    }

    method QueueFrame()
      modifies this`leg, this`floor
      ensures State() == PlaybackSteps.QueueFrame(old(State()))
    {
      if |leg.queue| >= LEG_CAPACITY {
        return;
      }
      leg := Leg(leg.sent + 1, leg.queue + [leg.sent], leg.wire);
      floor := floor.(framesQueued := floor.framesQueued + 1);
    }

    method PlayAudio(frames: nat, hasRest: bool, isHushed: bool)
      modifies this`leg, this`floor
      ensures State() == PlaybackSteps.PlayAudio(old(State()), frames, hasRest, isHushed)
    {
      if isHushed {
        return;
      }
      if floor.isCutOff {
        return;
      }
      if !floor.isBotSpeaking {
        floor := floor.(isBotSpeaking := true);
      }
      floor := floor.(hasRest := hasRest);
      ghost var began := State();
      for i := 0 to frames
        invariant State() == QueueFrames(began, i)
      {
        QueueFrame();
      }
    }

    method TakeFrame()
      modifies this`leg
      ensures State() == PlaybackSteps.TakeFrame(old(State()))
    {
      if leg.queue != [] {
        leg := Leg(leg.sent, leg.queue[1..], leg.wire + [leg.queue[0]]);
      }
    }

    method BeginTurn()
      modifies this`floor, this`turns, this`gens
      ensures State() == PlaybackSteps.BeginTurn(old(State()))
    {
      floor := floor.(framesQueued := 0, since := leg.sent);
      turns := turns.(current := turns.current + 1);
      floor := floor.(isResponding := true, openTurns := Min(floor.openTurns + 1, 2));
      if floor.isCutOff {
        floor := floor.(isCutOff := false);
      }
      if turns.isNextMuted {
        turns := turns.(isNextMuted := false, muted := turns.current);
        floor := floor.(isCutOff := true);
      }
      gens := Generations(gens.drain + 1, gens.idle + 1);
    }

    method EndTurn() returns (hasAudio: bool)
      modifies this
      ensures State() == PlaybackSteps.EndTurn(old(State()))
      ensures hasAudio == EndMarker(EndGeneration(old(State()))).hasAudio
    {
      if floor.hasRest {
        QueueFrame();
      }
      floor := floor.(isBotSpeaking := false, isResponding := false, hasRest := false,
                      openTurns := OneFewer(floor.openTurns));
      gens := gens.(drain := gens.drain + 1);
      hasAudio := floor.framesQueued > 0;
      if hasAudio {
        turns := turns.(audioTurns := turns.audioTurns + 1, lastAudioTurn := turns.current);
      }
      var marker := Marker(gens.drain, turns.current, hasAudio);
      if |watcher.channel| != MARKER_CAPACITY {
        watcher := watcher.(channel := watcher.channel + [marker]);
      }
    }

    method StopPlaybackLocked(endsTheTurn: bool) returns (playedMs: int, hadQueued: bool, cleared: nat)
      modifies this`leg, this`floor, this`gens
      ensures State() == StopPlayback(old(State()), endsTheTurn)
      ensures playedMs == PlayedMs(old(State())) && hadQueued == (old(floor.framesQueued) > 0)
      ensures cleared == |old(leg.queue)|
    {
      cleared := |leg.queue|;
      leg := Leg(leg.sent, [], leg.wire);
      var played := Max(floor.framesQueued - cleared, 0);
      hadQueued := floor.framesQueued > 0;
      floor := floor.(framesQueued := 0, hasRest := false, isBotSpeaking := false, since := leg.sent);
      if endsTheTurn {
        floor := floor.(isResponding := false);
      }
      gens := Generations(gens.drain + 1, gens.idle + 1);
      playedMs := played * FRAME_MS;
    }

    method BargeIn(isKey: bool, isGuarded: bool)
      modifies this
      ensures State() == PlaybackSteps.BargeIn(old(State()), isKey, isGuarded)
    {
      var isGenerating := floor.isResponding;
      var isAudioInFlight := floor.framesQueued > 0 && |leg.queue| > 0;
      if !floor.isBotSpeaking && !isAudioInFlight && !(isKey && isGenerating) {
        return;
      }
      if !isKey && isGuarded {
        return;
      }
      var playedMs, hadQueued, cleared := StopPlaybackLocked(true);
      if isGenerating {
        floor := floor.(isCutOff := true);
      }
      if !hadQueued {
        playedMs := -1;
      }
      told := told + [playedMs];
    }

    method CancelDeadAirWatch()
      modifies this`gens
      ensures gens == old(gens).(idle := old(gens.idle) + 1)
    {
      gens := gens.(idle := gens.idle + 1);
    }

    method OnSpeechStarted(isGuarded: bool)
      modifies this
      ensures State() == HearSpeech(old(State()), isGuarded)
    {
      CancelDeadAirWatch();
      BargeIn(false, isGuarded);
    }

    method OnInterrupted() returns (isCurrent: bool)
      modifies this
      ensures State() == TakeInterruption(old(State()))
      ensures isCurrent == (OneFewer(old(floor.openTurns)) == 0)
    {
      floor := floor.(openTurns := OneFewer(floor.openTurns));
      isCurrent := floor.openTurns == 0;
      var playedMs, hadQueued, cleared := StopPlaybackLocked(isCurrent);
      if hadQueued {
        told := told + [playedMs];
      }
    }

    method MuteTurn(turn: nat)
      modifies this
      ensures State() == Mute(old(State()), turn)
    {
      if turn == 0 || turns.current != turn {
        return;
      }
      var isGenerating := floor.isResponding;
      turns := turns.(muted := turn);
      if isGenerating {
        floor := floor.(isCutOff := true);
      }
      var playedMs, hadQueued, cleared := StopPlaybackLocked(false);
    }

    method MuteNextTurn(isMuted: bool)
      modifies this`turns
      ensures State() == Step(old(State()), Event.MuteNextTurn(isMuted))
    {
      turns := turns.(isNextMuted := isMuted);
    }

    /** The watcher takes the next turn's marker, unless it is following one. */
    method TakeMarker()
      modifies this`watcher
      ensures State() == Step(old(State()), MarkerTaken)
    {
      if watcher.channel == [] || watcher.watch.Draining? || watcher.watch.Settling? {
        return;
      }
      watcher := watcher.(channel := watcher.channel[1..], watch := Draining(watcher.channel[0]));
    }

    method RewatchDeadAir()
      modifies this`watcher
      ensures State() == Step(old(State()), Event.RewatchDeadAir)
    {
      watcher := watcher.(isRearmed := true);
    }

    /** The watcher takes a request to watch again, honoured while nobody spoke. */
    method TakeRearm()
      modifies this`watcher
      ensures State() == Step(old(State()), RearmTaken)
    {
      if !watcher.watch.Fired? || !watcher.isRearmed {
        return;
      }
      watcher := watcher.(isRearmed := false);
      if watcher.watch.idle == gens.idle {
        watcher := watcher.(watch := Quiet(watcher.watch.marker, watcher.watch.idle));
      }
    }

    /** One look of awaitDrained at the queue. */
    method TickDrain(isDeadAirWatched: bool)
      modifies this`watcher
      ensures State() == Step(old(State()), DrainTick(isDeadAirWatched))
    {
      match watcher.watch {
        case Draining(m) =>
          if m.generation != gens.drain {
            watcher := watcher.(watch := Resting);
          } else if |leg.queue| == 0 {
            watcher := watcher.(watch := Settling(m));
          }
        case Settling(m) =>
          if m.generation != gens.drain {
            watcher := watcher.(watch := Resting);
          } else {
            watcher := watcher.(played := watcher.played + [m], isRearmed := false,
                                watch := if isDeadAirWatched then Quiet(m, gens.idle) else Resting);
          }
        case _ =>
      }
    }

    /** The dead-air timer of awaitCallerOrDeadAir fires. */
    method OnSilence()
      modifies this`watcher
      ensures State() == Step(old(State()), SilenceElapses)
    {
      match watcher.watch {
        case Quiet(m, idle) =>
          if idle != gens.idle {
            watcher := watcher.(watch := Resting);
          } else {
            watcher := watcher.(silences := watcher.silences + [m], watch := Fired(m, idle));
          }
        case _ =>
      }
    }
  }
}
