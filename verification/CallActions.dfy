/** callActions itself: each method is proved to make the step of EndingSteps. */
module CallActions {
  import opened Util
  import opened ClosingLine
  import opened EndingSteps

  /** callActions. Methods run under its mutex, one at a time. The clock is the field
      now; an armed action is its serial number; ran, disarmed, live and trace are what
      the armed actions, the timers, the model and the session saw. */
  class CallActions {
    const env: Env
    var now: int

    var armed: Option<nat>
    var armings: nat
    var isArmedTransfer: bool
    var armedInTurn: int
    var line: Line
    var cuts: Cuts
    var armedGeneration: nat
    var capDue: int
    var isEndingLocked: bool

    ghost var ran: seq<nat>
    ghost var disarmed: seq<nat>
    ghost var live: set<Timer>
    ghost var trace: Trace

    ghost function State(): World
      reads this
    {
      World(Action(armed, armings, ran, disarmed), isArmedTransfer, armedInTurn,
            Cap(armedGeneration, capDue, live), line, cuts, isEndingLocked, now, trace)
    }

    constructor (env: Env, now: int)
      ensures State() == Initial(now) && this.env == env
    {
      this.env := env;
      this.now := now;
      armed, armings, isArmedTransfer, armedInTurn := None, 0, false, 0;
      line := NO_LINE;
      cuts := Cuts(false, 0, false, 0, 0, false);
      armedGeneration, capDue, isEndingLocked := 0, 0, false;
      ran, disarmed, live, trace := [], [], {}, Initial(now).t;
    }

    method StartCapLocked(after: int)
      modifies this`armedGeneration, this`capDue, this`live
      ensures State() == StartCap(old(State()), after)
    {
      if cuts.interruptions >= 2 {
        return;
      }
      armedGeneration := armedGeneration + 1;
      capDue := now + after;
      live := live + {Timer(armedGeneration, capDue, armed)};
    }

    method Reset(turn: int, isTransfer: bool)
      modifies this
      ensures State() == FreshArming(old(State()), turn, isTransfer)
    {
      armed, armings := Some(armings), armings + 1;
      isArmedTransfer, armedInTurn := isTransfer, turn;
      ClearFlags();
    }

    /** What the last arming left. */
    method ClearFlags()
      modifies this`line, this`cuts, this`trace
      ensures line == NO_LINE && cuts == Cuts(false, 0, false, 0, old(cuts).audioTurnsAtInterrupt, false)
      ensures trace == old(trace).(requests := 0, refusals := 0, judged := [], finished := {}, missed := [])
    {
      line := NO_LINE;
      cuts := Cuts(false, 0, false, 0, cuts.audioTurnsAtInterrupt, false);
      trace := trace.(requests := 0, refusals := 0, judged := [], finished := {}, missed := []);
    }

    method ArmAs(v: View, isTransfer: bool)
      modifies this
      ensures State() == EndingSteps.ArmAs(env, old(State()), v, isTransfer)
    {
      if isEndingLocked {
        return;
      }
      if armed.Some? {
        return;
      }
      Reset(v.turn, isTransfer);
      var graceCap := env.graceCap;
      if graceCap <= 0 {
        graceCap := ACTION_GRACE_CAP;
      }
      StartCapLocked(graceCap);
    }

    /** Taking what is armed and running it. */
    method TakeArmed()
      requires armed.Some?
      modifies this`armed, this`ran
      ensures State() == RunArmed(old(State()))
    {
      ran := ran + [armed.value];
      armed := None;
    }

    method RunAtCap(ghost timer: Timer, generation: nat)
      requires generation == timer.generation
      modifies this
      ensures State() == EndingSteps.RunAtCap(old(State()), timer)
    {
      live := live - {timer};
      var isStillArmed := armed.Some? && armedGeneration == generation;
      if !isStillArmed {
        return;
      }
      TakeArmed();
    }

    method RunArmedNow()
      modifies this
      ensures State() == RunArmed(old(State()))
    {
      if armed.Some? {
        TakeArmed();
      }
    }

    method RefuseBareHangup(v: View) returns (isRefused: bool)
      modifies this
      ensures isRefused == RefusesBareHangup(old(State()), v)
      ensures State() == if isRefused then BareHangupRefused(env, old(State())) else old(State())
    {
      var finished, isSpeaking := v.audioTurns, v.isSpeaking;
      if armed.None? || !cuts.isInterrupted || cuts.isHangupRefused || isSpeaking ||
         finished > cuts.audioTurnsAtInterrupt {
        return false;
      }
      cuts := cuts.(isHangupRefused := true);
      trace := trace.(refusals := trace.refusals + 1);
      StartCapLocked(Grace(env));
      return true;
    }

    method RefuseHangupWhileLineOwed(v: View) returns (isRefused: bool)
      modifies this
      ensures isRefused == RefusesHangupWhileLineOwed(old(State()), v)
      ensures State() == if isRefused then HangupRefusedForLine(env, old(State())) else old(State())
    {
      var hasSpoken, isSpeaking := v.lastAudioTurn > armedInTurn, v.isSpeaking;
      if armed.None? || !line.isLineOwed || line.isLineRefused || cuts.isInterrupted || isSpeaking || hasSpoken {
        return false;
      }
      line := line.(isLineRefused := true);
      trace := trace.(refusals := trace.refusals + 1);
      StartCapLocked(Grace(env));
      return true;
    }

    method InsistedOnHangup()
      modifies this
      ensures State() == InsistOnHangup(old(State()))
    {
      if armed.None? || !line.isLineOwed || !line.isLineRefused {
        return;
      }
      line := line.(isLineOwed := false);
    }

    method SayGoodbyeOnHangup(v: View)
      modifies this
      ensures State() == SayGoodbye(old(State()), v)
    {
      if armed.None? || isArmedTransfer || !cuts.isLineSaidByRule || cuts.goodbyeTurn != 0 || !v.isSpeaking {
        return;
      }
      var turn := v.turn;
      if turn <= armedInTurn {
        return;
      }
      cuts := cuts.(goodbyeTurn := turn);
      trace := trace.(isNextTurnMuted := true);
    }

    method Hangup(v: View) returns (answer: Answer)
      modifies this
      ensures State() == EndingSteps.Hangup(env, old(State()), v)
      ensures answer == HangupAnswer(old(State()), v)
    {
      if isEndingLocked {
        return Succeeded;
      }
      if armed.Some? {
        if isArmedTransfer {
          return BeingTransferred;
        }
        var isRefused := RefuseBareHangup(v);
        if isRefused {
          return AnswerTheCaller;
        }
        isRefused := RefuseHangupWhileLineOwed(v);
        if isRefused {
          return SayTheLine;
        }
        InsistedOnHangup();
        SayGoodbyeOnHangup(v);
        return Succeeded;
      }
      ArmAs(v, false);
      return Succeeded;
    }

    method ExpectClosingLine(text: string)
      modifies this
      ensures State() == EndingSteps.ExpectClosingLine(old(State()), text)
    {
      if armed.None? || isArmedTransfer || isEndingLocked || line.isLineSpoken {
        return;
      }
      line := line.(isLineOwed := true, closingLine := text);
      trace := trace.(judged := [], finished := {});
    }

    method OnBotSaid(turn: int, text: string)
      modifies this
      ensures State() == EndingSteps.OnBotSaid(env, old(State()), turn, text)
    {
      if armed.None? || !line.isLineOwed || line.closingLine == "" || turn <= armedInTurn ||
         turn <= line.notLineThrough || text == "" {
        return;
      }
      var before := if turn in line.said then line.said[turn] else "";
      line := line.(said := line.said[turn := TrimSpace(env.classes, before + " " + text)]);
    }

    method LockEnding()
      modifies this
      ensures State() == EndingSteps.LockEnding(old(State()))
    {
      isEndingLocked := true;
      line := line.(isLineOwed := false);
    }

    method Disarm()
      modifies this
      ensures State() == EndingSteps.Disarm(old(State()))
    {
      if armed.Some? {
        disarmed := disarmed + [armed.value];
      }
      armed := None;
      armedGeneration := armedGeneration + 1;
    }

    method OnPlaybackDone(turn: int, hasAudio: bool)
      modifies this
      ensures State() == EndingSteps.OnPlaybackDone(old(State()), turn, hasAudio)
    {
      var isAfterGoodbye := cuts.goodbyeTurn != 0 && turn > cuts.goodbyeTurn;
      if armed.None? || turn <= armedInTurn || (cuts.isInterrupted && !hasAudio && !isAfterGoodbye) ||
         (line.isLineOwed && !line.isLineSpoken && !hasAudio) || turn <= line.notLineThrough {
        return;
      }
      TakeArmed();
    }

    /** The line counts as spoken, and the cap moves out to cover its playing. */
    method MarkLineSpoken(v: View)
      modifies this
      ensures State() == LineSpoken(old(State()), v)
    {
      line := line.(isLineSpoken := true);
      var playout := v.queuedPlayout + LINE_DRAIN_MARGIN;
      if now + playout > capDue {
        StartCapLocked(playout);
      }
    }

    /** The turn was not the line: it is asked for again, unless a later turn is being made. */
    method MarkLineMissed(v: View, turn: int)
      modifies this
      ensures State() == LineMissed(env, old(State()), v, turn)
    {
      line := line.(notLineThrough := turn);
      trace := trace.(missed := trace.missed + [turn]);
      StartCapLocked(Grace(env) + v.queuedPlayout);
      if v.isTurnGenerating {
        return;
      }
      line := line.(isLineAskedAgain := true);
      trace := trace.(requests := trace.requests + 1);
    }

    method OnTurnDone(v: View, turn: int, isInterrupted: bool, hasAudio: bool)
      modifies this
      ensures State() == EndingSteps.OnTurnDone(env, old(State()), v, turn, isInterrupted, hasAudio)
    {
      if armed.None? || turn <= armedInTurn || isInterrupted || (line.isLineOwed && !hasAudio) {
        return;
      }
      if line.isLineOwed {
        var words := if turn in line.said then line.said[turn] else "";
        trace := trace.(judged := trace.judged + [Judged(turn, Judge(env, line, turn))]);
        var said := ForgetThrough(line.said, turn);
        line := line.(said := said);
        if line.closingLine != "" && words != "" {
          var coverage, isSaid := SaysTheClosingLine(env.classes, line.closingLine, words);
          if !isSaid && !line.isLineAskedAgain {
            MarkLineMissed(v, turn);
            return;
          }
        }
      }
      MarkLineSpoken(v);
    }

    method InterruptLocked(v: View) returns (count: nat)
      modifies this
      ensures State() == Interrupt(env, old(State()), v)
      ensures count == old(cuts.interruptions) + 1
    {
      line := line.(isLineSpoken := false);
      count := cuts.interruptions + 1;
      cuts := cuts.(isInterrupted := true, audioTurnsAtInterrupt := v.audioTurns, interruptions := count);
      if count >= 2 {
        line := line.(isLineOwed := false);
        cuts := cuts.(isLineSaidByRule := true);
      } else {
        StartCapLocked(Grace(env));
      }
    }

    method WithdrawGoodbyeOn(cut: Cut)
      modifies this`cuts, this`trace
      ensures State() == WithdrawGoodbye(old(State()), cut)
    {
      if armed.Some? && cuts.goodbyeTurn != 0 && cut.unplayed > CLOSING_TAIL_ACK {
        cuts := cuts.(goodbyeTurn := 0);
        trace := trace.(isNextTurnMuted := false);
      }
    }

    method OnBargeIn(v: View, cut: Cut)
      modifies this
      ensures State() == EndingSteps.OnBargeIn(env, old(State()), v, cut)
    {
      WithdrawGoodbyeOn(cut);
      var unplayed, played := cut.unplayed, cut.played;
      if armed.None? {
        return;
      }
      if !line.isLineSpoken {
        if !cut.isGenerating || cut.turn <= armedInTurn || (unplayed <= 0 && played <= 0) {
          return;
        }
        var count := InterruptLocked(v);
        return;
      }
      if unplayed > CLOSING_TAIL_ACK {
        var count := InterruptLocked(v);
        if count == 1 && line.closingLine != "" {
          if CutInFinalSentence(env.classes, line.closingLine, played, unplayed) {
            line := line.(isLineOwed := false);
            cuts := cuts.(isLineSaidByRule := true);
          }
        }
        return;
      }
      TakeArmed();
    }
  }

  /** Drops the words of a turn and of those before it. */
  method ForgetThrough(said: map<int, string>, turn: int) returns (kept: map<int, string>)
    ensures kept == After(said, turn)
  {
    kept := said;
    var turns: set<int> := said.Keys;
    while turns != {}
      invariant turns <= said.Keys
      invariant kept == map k | k in said && (k in turns || k > turn) :: said[k]
      decreases turns
    {
      var judged := Pick(turns);
      turns := turns - {judged};
      if judged <= turn {
        kept := kept - {judged};
      }
    }
  }
}
