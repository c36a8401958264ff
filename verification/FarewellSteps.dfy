/** The model's own goodbyes (internal/aicall/farewell.go and the farewell half of
    internal/aicall/claims.go), fed in the order the call's loop feeds them
    (internal/aicall/orchestrator.go). */
module FarewellSteps {
  import opened Util

  /** Whether a text claims a goodbye, whether it ends by asking, and strings.TrimSpace. */
  datatype Detector = Detector(hasFarewell: string -> bool, endsInQuestion: string -> bool, trim: string -> string)

  /** The farewell half of claimWatch. */
  datatype Claims = Claims(pending: map<nat, string>, lastDoneTurn: nat, isLastDoneBacked: bool, isToolReplyNext: bool,
                           isFarewellUnhung: bool, playedInFullTurn: nat, isLastDoneCut: bool, lastDoneText: string)

  /** farewellWatch. isGraceRunning is whether due is set. */
  datatype Watch = Watch(streak: nat, countedTurn: nat, undecided: nat, isCallerHeard: bool,
                         isGraceRunning: bool, graceTurn: nat)

  datatype Rule = TwoGoodbyes | Grace

  /** What the loop knows: toolCallTurn is the turn of the latest tool call, if any. */
  datatype Call = Call(claims: Claims, watch: Watch, toolCallTurn: Option<nat>, ended: Option<Rule>)

  const NO_CLAIMS := Claims(map[], 0, false, false, false, 0, false, "")
  const INITIAL := Call(NO_CLAIMS, Watch(0, 0, 0, false, false, 0), None, None)

  /** isHeld is an armed ending, a handover settling or a time limit waiting; isOwed an
      action promised in words. Asides are left out by the loop before they get here. */
  datatype Event =
    | BotSaid(turn: nat, text: string, isMuted: bool, isHeld: bool, isOwed: bool)
    | CallerSpoke
    | ToolCall(turn: nat)
    | TurnDone(turn: nat, isInterrupted: bool, isArmed: bool)
    | BargeIn(turn: nat)
    | PlaybackDone(turn: nat, hasAudio: bool, isHeld: bool, isOwed: bool)
    | NoInput
    | GraceDue(isHeld: bool)

  //
  // claimWatch.
  //

  /** A final line, and whether a goodbye was found in it. */
  function ClaimsBotSaid(d: Detector, c: Claims, turn: nat, text: string): (Claims, bool) {
    if text == "" then (c, false)
    else if c.lastDoneTurn != 0 && turn == c.lastDoneTurn then
      if c.isLastDoneBacked then (c, false)
      else
        var all := d.trim(c.lastDoneText + " " + text);
        var isFarewell := d.hasFarewell(text) && !d.endsInQuestion(all);
        (c.(lastDoneText := all,
            isFarewellUnhung := (c.isFarewellUnhung && !d.endsInQuestion(all)) || (isFarewell && !c.isLastDoneCut)),
         isFarewell)
    else if turn < c.lastDoneTurn then (c, false)
    else
      var prior := if turn in c.pending then c.pending[turn] else "";
      (c.(pending := c.pending[turn := if prior != "" then prior + " " + text else text]), false)
  }

  function ClaimsTurnDone(d: Detector, c: Claims, turn: nat, isToolCall: bool, isArmed: bool): Claims {
    var isBacked := isToolCall || c.isToolReplyNext || isArmed;
    var text := if turn in c.pending then c.pending[turn] else "";
    var isJudged := !isBacked && text != "";
    Claims(map t | t in c.pending && t > turn :: c.pending[t], turn, isBacked, isToolCall,
           isJudged && d.hasFarewell(text) && !d.endsInQuestion(text),
           c.playedInFullTurn, false, if isJudged then text else "")
  }

  function ClaimsInterrupted(c: Claims): Claims { c.(isFarewellUnhung := false, isLastDoneCut := true) }

  function ClaimsBargeIn(c: Claims, turn: nat): Claims {
    if turn == 0 || turn != c.lastDoneTurn then c else ClaimsInterrupted(c)
  }

  function ClaimsAudioPlayed(c: Claims, turn: nat): Claims {
    c.(playedInFullTurn := if turn > c.playedInFullTurn then turn else c.playedInFullTurn)
  }

  function FarewellPlayedInFull(c: Claims): nat {
    if !c.isFarewellUnhung || c.isLastDoneCut || c.lastDoneTurn == 0 || c.playedInFullTurn != c.lastDoneTurn then 0
    else c.lastDoneTurn
  }

  //
  // farewellWatch.
  //

  function WatchTurnDone(w: Watch, turn: nat, isInterrupted: bool, isFarewellUnhung: bool): Watch {
    w.(isGraceRunning := false, isCallerHeard := false,
       streak := if w.undecided != 0 then 0 else w.streak,
       undecided := if isInterrupted || isFarewellUnhung then 0 else turn)
  }

  function WatchBotSaid(w: Watch, turn: nat, isFarewell: bool): Watch {
    if isFarewell && w.undecided == turn then w.(undecided := 0) else w
  }

  function WatchToolCall(w: Watch): Watch { w.(streak := 0, undecided := 0, isGraceRunning := false) }

  function WatchCallerSpoke(w: Watch): Watch { w.(isGraceRunning := false, isCallerHeard := true) }

  /** checkOwnFarewell: the watch after it, and whether the call ends. */
  function Check(w: Watch, c: Claims, isHeld: bool, isOwed: bool): (Watch, bool) {
    var turn := FarewellPlayedInFull(c);
    if turn == 0 || turn == w.countedTurn then (w, false)
    else
      var counted := w.(countedTurn := turn, streak := w.streak + 1);
      if isHeld || isOwed then (counted.(isGraceRunning := false), false)
      else if counted.streak >= 2 then (counted, true)
      else if counted.isCallerHeard then (counted, false)
      else (counted.(graceTurn := turn, isGraceRunning := true), false)
  }

  //
  // The loop.
  //

  function Checked(call: Call, isHeld: bool, isOwed: bool): Call {
    var (watch, isOver) := Check(call.watch, call.claims, isHeld, isOwed);
    call.(watch := watch, ended := if isOver then Some(TwoGoodbyes) else call.ended)
  }

  function Step(d: Detector, call: Call, event: Event): Call {
    if call.ended.Some? then call
    else
      match event
      case BotSaid(turn, text, isMuted, isHeld, isOwed) =>
        if isMuted then call
        else
          var (claims, isFarewell) := ClaimsBotSaid(d, call.claims, turn, text);
          Checked(call.(claims := claims, watch := WatchBotSaid(call.watch, turn, isFarewell)), isHeld, isOwed)
      case CallerSpoke => call.(watch := WatchCallerSpoke(call.watch))
      case ToolCall(turn) =>
        call.(claims := call.claims.(isFarewellUnhung := false), watch := WatchToolCall(call.watch),
              toolCallTurn := Some(turn))
      case TurnDone(turn, isInterrupted, isArmed) =>
        var done := ClaimsTurnDone(d, call.claims, turn, call.toolCallTurn == Some(turn), isArmed);
        var claims := if isInterrupted then ClaimsInterrupted(done) else done;
        call.(claims := claims, watch := WatchTurnDone(call.watch, turn, isInterrupted, claims.isFarewellUnhung))
      case BargeIn(turn) =>
        call.(claims := ClaimsBargeIn(call.claims, turn), watch := call.watch.(isGraceRunning := false))
      case PlaybackDone(turn, hasAudio, isHeld, isOwed) =>
        var played :=
          if hasAudio then
            call.(claims := ClaimsAudioPlayed(call.claims, turn), watch := call.watch.(isCallerHeard := false))
          else call;
        Checked(played, isHeld, isOwed)
      case NoInput => call.(claims := call.claims.(isFarewellUnhung := false))
      case GraceDue(isHeld) =>
        if !call.watch.isGraceRunning then call
        else
          call.(watch := call.watch.(isGraceRunning := false),
                ended := if FarewellPlayedInFull(call.claims) != call.watch.graceTurn || isHeld then None
                         else Some(Grace))
  }

  function Run(d: Detector, events: seq<Event>): Call
    decreases |events|
  {
    if events == [] then INITIAL else Step(d, Run(d, events[..|events| - 1]), events[|events| - 1])
  }
}
