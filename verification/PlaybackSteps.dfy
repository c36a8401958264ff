/** Turn and playback accounting of an AI call (internal/aicall/session.go): what each
    event does to the leg's send queue, the turn's counters, the two generations and the
    playback watcher. */
module PlaybackSteps {
  import opened Util

  const FRAME_MS := 20
  const LEG_CAPACITY := 1500
  const MARKER_CAPACITY := 8

  /** The leg, a FIFO. Frames are numbered in the order it took them: sent is the next
      number, queue waits, wire left for the caller. */
  datatype Leg = Leg(sent: nat, queue: seq<nat>, wire: seq<nat>)

  /** The floor. hasRest is whether the framer holds part of a frame. since, which only
      the proofs read, is the number the next frame had when the turn began or the audio
      was last flushed. */
  datatype Floor = Floor(framesQueued: nat, isBotSpeaking: bool, isResponding: bool, isCutOff: bool,
                         openTurns: nat, hasRest: bool, since: nat)

  datatype Turns = Turns(current: nat, audioTurns: nat, lastAudioTurn: nat, muted: nat, isNextMuted: bool)

  datatype Generations = Generations(drain: nat, idle: nat)

  datatype Marker = Marker(generation: nat, turn: nat, hasAudio: bool)

  /** Where the playback watcher is: waiting for a turn's end, for its audio to drain, for
      one more frame interval, for the caller, or for a re-arm after dead air. */
  datatype Watch = Resting | Draining(marker: Marker) | Settling(marker: Marker)
                 | Quiet(marker: Marker, idle: nat) | Fired(marker: Marker, idle: nat)

  /** played and silences are the PLAYBACK_DONE and NO_INPUT events published. */
  datatype Watcher = Watcher(channel: seq<Marker>, watch: Watch, isRearmed: bool,
                             played: seq<Marker>, silences: seq<Marker>)

  /** told is what the model was told the caller heard, in milliseconds. */
  datatype Call = Call(leg: Leg, floor: Floor, turns: Turns, gens: Generations, watcher: Watcher, told: seq<int>)

  const INITIAL := Call(Leg(0, [], []), Floor(0, false, false, false, 0, false, 0), Turns(0, 0, 0, 0, false),
                        Generations(0, 0), Watcher([], Resting, false, [], []), [])

  datatype Event =
    | AudioDelta(frames: nat, hasRest: bool, isHushed: bool)
    | WireTakesFrame
    | ResponseStarted
    | ResponseDone
    | SpeechStarted(isGuarded: bool)
    | Digit(isEndingArmed: bool)
    | Interrupted
    | MuteTurn(turn: nat)
    | MuteNextTurn(isMuted: bool)
    | MarkerTaken
    | DrainTick(isDeadAirWatched: bool)
    | SilenceElapses
    | RewatchDeadAir
    | RearmTaken

  //
  // The leg.
  //

  /** A full queue refuses the frame. */
  function QueueFrame(c: Call): Call {
    if |c.leg.queue| >= LEG_CAPACITY then c
    else
      c.(leg := Leg(c.leg.sent + 1, c.leg.queue + [c.leg.sent], c.leg.wire),
         floor := c.floor.(framesQueued := c.floor.framesQueued + 1))
  }

  function QueueFrames(c: Call, n: nat): Call {
    if n == 0 then c else QueueFrame(QueueFrames(c, n - 1))
  }

  function PlayAudio(c: Call, frames: nat, hasRest: bool, isHushed: bool): Call {
    if isHushed || c.floor.isCutOff then c
    else QueueFrames(c.(floor := c.floor.(isBotSpeaking := true, hasRest := hasRest)), frames)
  }

  function TakeFrame(c: Call): Call {
    if c.leg.queue == [] then c
    else c.(leg := Leg(c.leg.sent, c.leg.queue[1..], c.leg.wire + [c.leg.queue[0]]))
  }

  //
  // Turns.
  //

  function BeginTurn(c: Call): Call {
    var current := c.turns.current + 1;
    var isMuted := c.turns.isNextMuted;
    c.(floor := c.floor.(framesQueued := 0, isResponding := true, openTurns := Min(c.floor.openTurns + 1, 2),
                         isCutOff := isMuted, since := c.leg.sent),
       turns := c.turns.(current := current, muted := if isMuted then current else c.turns.muted, isNextMuted := false),
       gens := Generations(c.gens.drain + 1, c.gens.idle + 1))
  }

  function OneFewer(openTurns: nat): nat { if openTurns > 0 then openTurns - 1 else 0 }

  function EndGeneration(c: Call): Call {
    var padded := if c.floor.hasRest then QueueFrame(c) else c;
    var hasAudio := padded.floor.framesQueued > 0;
    padded.(floor := padded.floor.(isBotSpeaking := false, isResponding := false, hasRest := false,
                                   openTurns := OneFewer(c.floor.openTurns)),
            turns := if hasAudio then c.turns.(audioTurns := c.turns.audioTurns + 1, lastAudioTurn := c.turns.current)
                     else c.turns,
            gens := c.gens.(drain := c.gens.drain + 1))
  }

  /** The marker a turn's end hands to the watcher. */
  function EndMarker(ended: Call): Marker {
    Marker(ended.gens.drain, ended.turns.current, ended.floor.framesQueued > 0)
  }

  /** A watcher that is behind misses the marker. */
  function HandOver(c: Call): Call {
    if |c.watcher.channel| == MARKER_CAPACITY then c
    else c.(watcher := c.watcher.(channel := c.watcher.channel + [EndMarker(c)]))
  }

  function EndTurn(c: Call): Call { HandOver(EndGeneration(c)) }

  //
  // Taking the floor back.
  //

  function PlayedMs(c: Call): nat { Max(c.floor.framesQueued - |c.leg.queue|, 0) * FRAME_MS }

  function StopPlayback(c: Call, endsTheTurn: bool): Call {
    c.(leg := Leg(c.leg.sent, [], c.leg.wire),
       floor := c.floor.(framesQueued := 0, isBotSpeaking := false, hasRest := false, since := c.leg.sent,
                         isResponding := if endsTheTurn then false else c.floor.isResponding),
       gens := Generations(c.gens.drain + 1, c.gens.idle + 1))
  }

  function Tell(c: Call, ms: int): Call { c.(told := c.told + [ms]) }

  predicate TakesTheFloor(f: Floor, pending: nat, isKey: bool, isGuarded: bool) {
    && (f.isBotSpeaking || (f.framesQueued > 0 && pending > 0) || (isKey && f.isResponding))
    && (isKey || !isGuarded)
  }

  function BargeIn(c: Call, isKey: bool, isGuarded: bool): Call {
    if !TakesTheFloor(c.floor, |c.leg.queue|, isKey, isGuarded) then c
    else
      var stopped := StopPlayback(c, true);
      var fenced := stopped.(floor := stopped.floor.(isCutOff := c.floor.isCutOff || c.floor.isResponding));
      Tell(fenced, if c.floor.framesQueued > 0 then PlayedMs(c) else -1)
  }

  function HearSpeech(c: Call, isGuarded: bool): Call {
    BargeIn(c.(gens := c.gens.(idle := c.gens.idle + 1)), false, isGuarded)
  }

  function TakeInterruption(c: Call): Call {
    var openTurns := OneFewer(c.floor.openTurns);
    var stopped := StopPlayback(c.(floor := c.floor.(openTurns := openTurns)), openTurns == 0);
    if c.floor.framesQueued > 0 then Tell(stopped, PlayedMs(c)) else stopped
  }

  function Mute(c: Call, turn: nat): Call {
    if turn == 0 || c.turns.current != turn then c
    else
      var fenced := c.(turns := c.turns.(muted := turn),
                       floor := c.floor.(isCutOff := c.floor.isCutOff || c.floor.isResponding));
      StopPlayback(fenced, false)
  }

  //
  // The playback watcher.
  //

  function TakeMarker(w: Watcher): Watcher {
    if w.channel == [] || w.watch.Draining? || w.watch.Settling? then w
    else w.(channel := w.channel[1..], watch := Draining(w.channel[0]))
  }

  function TickDrain(w: Watcher, gens: Generations, pending: nat, isDeadAirWatched: bool): Watcher {
    match w.watch
    case Draining(m) =>
      if m.generation != gens.drain then w.(watch := Resting)
      else if pending == 0 then w.(watch := Settling(m))
      else w
    case Settling(m) =>
      if m.generation != gens.drain then w.(watch := Resting)
      else w.(watch := if isDeadAirWatched then Quiet(m, gens.idle) else Resting,
              isRearmed := false, played := w.played + [m])
    case _ => w
  }

  function TickSilence(w: Watcher, gens: Generations): Watcher {
    if !w.watch.Quiet? then w
    else if w.watch.idle != gens.idle then w.(watch := Resting)
    else w.(watch := Fired(w.watch.marker, w.watch.idle), silences := w.silences + [w.watch.marker])
  }

  function TakeRearm(w: Watcher, gens: Generations): Watcher {
    if !w.watch.Fired? || !w.isRearmed then w
    else
      w.(isRearmed := false,
         watch := if w.watch.idle == gens.idle then Quiet(w.watch.marker, w.watch.idle) else w.watch)
  }

  //
  // Runs.
  //

  function Step(c: Call, event: Event): Call {
    match event
    case AudioDelta(frames, hasRest, isHushed) => PlayAudio(c, frames, hasRest, isHushed)
    case WireTakesFrame => TakeFrame(c)
    case ResponseStarted => BeginTurn(c)
    case ResponseDone => EndTurn(c)
    case SpeechStarted(isGuarded) => HearSpeech(c, isGuarded)
    case Digit(isEndingArmed) => if isEndingArmed then c else BargeIn(c, true, false)
    case Interrupted => TakeInterruption(c)
    case MuteTurn(turn) => Mute(c, turn)
    case MuteNextTurn(isMuted) => c.(turns := c.turns.(isNextMuted := isMuted))
    case MarkerTaken => c.(watcher := TakeMarker(c.watcher))
    case DrainTick(isDeadAirWatched) =>
      c.(watcher := TickDrain(c.watcher, c.gens, |c.leg.queue|, isDeadAirWatched))
    case SilenceElapses => c.(watcher := TickSilence(c.watcher, c.gens))
    case RewatchDeadAir => c.(watcher := c.watcher.(isRearmed := true))
    case RearmTaken => c.(watcher := TakeRearm(c.watcher, c.gens))
  }

  function RunFrom(c: Call, events: seq<Event>): Call
    decreases |events|
  {
    if events == [] then c else Step(RunFrom(c, events[..|events| - 1]), events[|events| - 1])
  }

  function Run(events: seq<Event>): Call { RunFrom(INITIAL, events) }
}
