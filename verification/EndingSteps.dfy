/** The armed-ending protocol of an AI call (internal/aicall/actions.go): what each
    callActions handler does to the flags, the cap timers and the armed action. */
module EndingSteps {
  import opened Util
  import opened ClosingLine

  const ACTION_GRACE_CAP := 10_000 * MILLISECOND
  const LINE_DRAIN_MARGIN := 2_000 * MILLISECOND
  const CLOSING_TAIL_ACK := 1_500 * MILLISECOND

  /** What is fixed for the call: the tokeniser's classes, and graceCap. */
  datatype Env = Env(classes: Classes, graceCap: int)

  function Grace(env: Env): int { if env.graceCap <= 0 then ACTION_GRACE_CAP else env.graceCap }

  /** What a handler reads of the session (currentTurn, audioProgress, audioSince,
      queuedPlayout, isTurnGenerating). */
  datatype View = View(turn: int, audioTurns: int, lastAudioTurn: int, isSpeaking: bool,
                       queuedPlayout: nat, isTurnGenerating: bool)

  datatype Cut = Cut(turn: int, unplayed: int, played: int, isGenerating: bool)

  /** A cap timer. arming is the action it was started for; only the proofs read it. */
  datatype Timer = Timer(generation: nat, due: int, arming: Option<nat>)

  /** The armed action, its serial number counted from the start of the call, and what
      became of the earlier ones. */
  datatype Action = Action(armed: Option<nat>, armings: nat, ran: seq<nat>, disarmed: seq<nat>)

  /** armedGeneration and capDue, and the timers started and not yet fired. */
  datatype Cap = Cap(generation: nat, due: int, live: set<Timer>)

  /** What callActions knows of the closing line. */
  datatype Line = Line(isLineSpoken: bool, isLineOwed: bool, closingLine: string, said: map<int, string>,
                       isLineAskedAgain: bool, notLineThrough: int, isLineRefused: bool)

  /** What it knows of the caller cutting in on it. */
  datatype Cuts = Cuts(isInterrupted: bool, interruptions: nat, isLineSaidByRule: bool,
                       goodbyeTurn: int, audioTurnsAtInterrupt: int, isHangupRefused: bool)

  /** How a turn finished with audio while the line was owed fared against it. */
  datatype Verdict = Covered | NothingToCompare | SecondMiss | FirstMiss

  datatype Judged = Judged(turn: int, verdict: Verdict)

  /** What the handlers asked of the model and the session, and the order turns came in.
      requests, refusals, judged, finished and missed, the turns judged a first miss, are
      about the current arming; judged and finished start over when a line is newly owed. */
  datatype Trace = Trace(requests: nat, refusals: nat, judged: seq<Judged>, finished: set<int>,
                         lastDone: int, isNextTurnMuted: bool, missed: seq<int>)

  datatype World = World(a: Action, isArmedTransfer: bool, armedInTurn: int, cap: Cap,
                         line: Line, cuts: Cuts, isEndingLocked: bool, now: int, t: Trace)

  const NO_LINE := Line(false, false, "", map[], false, 0, false)

  function Initial(now: int): World {
    World(Action(None, 0, [], []), false, 0, Cap(0, 0, {}), NO_LINE, Cuts(false, 0, false, 0, 0, false),
          false, now, Trace(0, 0, [], {}, 0, false, []))
  }

  //
  // The handlers.
  //

  function StartCap(w: World, after: int): World {
    if w.cuts.interruptions >= 2 then w
    else
      var generation, due := w.cap.generation + 1, w.now + after;
      w.(cap := Cap(generation, due, w.cap.live + {Timer(generation, due, w.a.armed)}))
  }

  function RunArmed(w: World): World {
    match w.a.armed
    case None => w
    case Some(k) => w.(a := w.a.(armed := None, ran := w.a.ran + [k]))
  }

  /** Everything a new arming starts with, but its cap. */
  function FreshArming(w: World, turn: int, isTransfer: bool): World {
    w.(a := w.a.(armed := Some(w.a.armings), armings := w.a.armings + 1),
       isArmedTransfer := isTransfer, armedInTurn := turn, line := NO_LINE,
       cuts := Cuts(false, 0, false, 0, w.cuts.audioTurnsAtInterrupt, false),
       t := w.t.(requests := 0, refusals := 0, judged := [], finished := {}, missed := []))
  }

  function ArmAs(env: Env, w: World, v: View, isTransfer: bool): World {
    if w.isEndingLocked || w.a.armed.Some? then w
    else StartCap(FreshArming(w, v.turn, isTransfer), Grace(env))
  }

  function RunAtCap(w: World, timer: Timer): World {
    var w' := w.(cap := w.cap.(live := w.cap.live - {timer}));
    if w.a.armed.Some? && w.cap.generation == timer.generation then RunArmed(w') else w'
  }

  predicate RefusesBareHangup(w: World, v: View) {
    w.a.armed.Some? && w.cuts.isInterrupted && !w.cuts.isHangupRefused && !v.isSpeaking &&
    v.audioTurns <= w.cuts.audioTurnsAtInterrupt
  }

  predicate RefusesHangupWhileLineOwed(w: World, v: View) {
    w.a.armed.Some? && w.line.isLineOwed && !w.line.isLineRefused && !w.cuts.isInterrupted &&
    !v.isSpeaking && v.lastAudioTurn <= w.armedInTurn
  }

  function BareHangupRefused(env: Env, w: World): World {
    StartCap(w.(cuts := w.cuts.(isHangupRefused := true), t := w.t.(refusals := w.t.refusals + 1)), Grace(env))
  }

  function HangupRefusedForLine(env: Env, w: World): World {
    StartCap(w.(line := w.line.(isLineRefused := true), t := w.t.(refusals := w.t.refusals + 1)), Grace(env))
  }

  function InsistOnHangup(w: World): World {
    if w.a.armed.None? || !w.line.isLineOwed || !w.line.isLineRefused then w
    else w.(line := w.line.(isLineOwed := false))
  }

  function SayGoodbye(w: World, v: View): World {
    if w.a.armed.None? || w.isArmedTransfer || !w.cuts.isLineSaidByRule || w.cuts.goodbyeTurn != 0 ||
       !v.isSpeaking || v.turn <= w.armedInTurn then w
    else w.(cuts := w.cuts.(goodbyeTurn := v.turn), t := w.t.(isNextTurnMuted := true))
  }

  /** What the model is told. */
  datatype Answer = Succeeded | BeingTransferred | AnswerTheCaller | SayTheLine

  function HangupAnswer(w: World, v: View): Answer {
    if w.isEndingLocked || w.a.armed.None? then Succeeded
    else if w.isArmedTransfer then BeingTransferred
    else if RefusesBareHangup(w, v) then AnswerTheCaller
    else if RefusesHangupWhileLineOwed(w, v) then SayTheLine
    else Succeeded
  }

  function Hangup(env: Env, w: World, v: View): World {
    if w.isEndingLocked then w
    else if w.a.armed.None? then ArmAs(env, w, v, false)
    else if w.isArmedTransfer then w
    else if RefusesBareHangup(w, v) then BareHangupRefused(env, w)
    else if RefusesHangupWhileLineOwed(w, v) then HangupRefusedForLine(env, w)
    else SayGoodbye(InsistOnHangup(w), v)
  }

  function ExpectClosingLine(w: World, line: string): World {
    if w.a.armed.None? || w.isArmedTransfer || w.isEndingLocked || w.line.isLineSpoken then w
    else w.(line := w.line.(isLineOwed := true, closingLine := line),
            t := w.t.(judged := [], finished := {}))
  }

  function Words(line: Line, turn: int): string { if turn in line.said then line.said[turn] else "" }

  function OnBotSaid(env: Env, w: World, turn: int, text: string): World {
    if w.a.armed.None? || !w.line.isLineOwed || w.line.closingLine == "" || turn <= w.armedInTurn ||
       turn <= w.line.notLineThrough || text == "" then w
    else w.(line := w.line.(said := w.line.said[turn := TrimSpace(env.classes, Words(w.line, turn) + " " + text)]))
  }

  function LockEnding(w: World): World { w.(line := w.line.(isLineOwed := false), isEndingLocked := true) }

  function Disarm(w: World): World {
    var disarmed := match w.a.armed case None => w.a.disarmed case Some(k) => w.a.disarmed + [k];
    w.(a := w.a.(armed := None, disarmed := disarmed), cap := w.cap.(generation := w.cap.generation + 1))
  }

  function OnPlaybackDone(w: World, turn: int, hasAudio: bool): World {
    var isAfterGoodbye := w.cuts.goodbyeTurn != 0 && turn > w.cuts.goodbyeTurn;
    if w.a.armed.None? || turn <= w.armedInTurn ||
       (w.cuts.isInterrupted && !hasAudio && !isAfterGoodbye) ||
       (w.line.isLineOwed && !w.line.isLineSpoken && !hasAudio) || turn <= w.line.notLineThrough then w
    else RunArmed(w)
  }

  /** The verdict on a turn with audio while the line is owed. */
  function Judge(env: Env, line: Line, turn: int): Verdict {
    var words := Words(line, turn);
    if line.closingLine == "" || words == "" then NothingToCompare
    else if Says(env.classes, line.closingLine, words) then Covered
    else if line.isLineAskedAgain then SecondMiss
    else FirstMiss
  }

  function After(said: map<int, string>, turn: int): map<int, string> {
    map k | k in said && k > turn :: said[k]
  }

  /** The words of a finished turn are taken, and the verdict on it recorded. */
  function WithVerdict(env: Env, w: World, turn: int): World {
    w.(line := w.line.(said := After(w.line.said, turn)),
       t := w.t.(judged := w.t.judged + [Judged(turn, Judge(env, w.line, turn))]))
  }

  /** The line now exists: the cap is moved out, if need be, to cover its playing. */
  function LineSpoken(w: World, v: View): World {
    var w' := w.(line := w.line.(isLineSpoken := true));
    var playout := v.queuedPlayout + LINE_DRAIN_MARGIN;
    if w'.now + playout > w'.cap.due then StartCap(w', playout) else w'
  }

  function AskForLine(w: World): World {
    w.(line := w.line.(isLineAskedAgain := true), t := w.t.(requests := w.t.requests + 1))
  }

  /** A turn after the closing move that is not the line: asked for again, unless a
      later turn is already being made. */
  function LineMissed(env: Env, w: World, v: View, turn: int): World {
    var missed := w.(line := w.line.(notLineThrough := turn), t := w.t.(missed := w.t.missed + [turn]));
    var w' := StartCap(missed, Grace(env) + v.queuedPlayout);
    if v.isTurnGenerating then w' else AskForLine(w')
  }

  function OnTurnDone(env: Env, w: World, v: View, turn: int, isInterrupted: bool, hasAudio: bool): World {
    if w.a.armed.None? || turn <= w.armedInTurn || isInterrupted || (w.line.isLineOwed && !hasAudio) then w
    else if !w.line.isLineOwed then LineSpoken(w, v)
    else
      var w' := WithVerdict(env, w, turn);
      if Judge(env, w.line, turn) == FirstMiss then LineMissed(env, w', v, turn) else LineSpoken(w', v)
  }

  function LineSaidByRule(w: World): World {
    w.(line := w.line.(isLineOwed := false), cuts := w.cuts.(isLineSaidByRule := true))
  }

  function Interrupt(env: Env, w: World, v: View): World {
    var cuts := w.cuts.(isInterrupted := true, audioTurnsAtInterrupt := v.audioTurns,
                        interruptions := w.cuts.interruptions + 1);
    var w' := w.(line := w.line.(isLineSpoken := false), cuts := cuts);
    if w'.cuts.interruptions >= 2 then LineSaidByRule(w')
    else StartCap(w', Grace(env))
  }

  /** A cut with more than a tail left withdraws the goodbye. */
  function WithdrawGoodbye(w: World, cut: Cut): World {
    if w.a.armed.Some? && w.cuts.goodbyeTurn != 0 && cut.unplayed > CLOSING_TAIL_ACK
    then w.(cuts := w.cuts.(goodbyeTurn := 0), t := w.t.(isNextTurnMuted := false)) else w
  }

  predicate IsFirstCutInFinalSentence(env: Env, w: World, cut: Cut) {
    w.cuts.interruptions == 0 && w.line.closingLine != "" &&
    CutInFinalSentence(env.classes, w.line.closingLine, cut.played, cut.unplayed)
  }

  /** The cut counts as an interruption of the armed ending: more than a tail of a line
      that finished, or anything audible of a later turn still being generated. */
  predicate Interrupts(w: World, cut: Cut) {
    if w.line.isLineSpoken then cut.unplayed > CLOSING_TAIL_ACK
    else cut.isGenerating && cut.turn > w.armedInTurn && (cut.unplayed > 0 || cut.played > 0)
  }

  function CutLine(env: Env, w: World, v: View, cut: Cut): World {
    var w' := Interrupt(env, w, v);
    if w.line.isLineSpoken && IsFirstCutInFinalSentence(env, w, cut) then LineSaidByRule(w') else w'
  }

  function TakeCut(env: Env, w: World, v: View, cut: Cut): World {
    if w.a.armed.None? then w
    else if Interrupts(w, cut) then CutLine(env, w, v, cut)
    else if w.line.isLineSpoken then RunArmed(w)
    else w
  }

  function OnBargeIn(env: Env, w: World, v: View, cut: Cut): World {
    TakeCut(env, WithdrawGoodbye(w, cut), v, cut)
  }
}
