/** What each event does to an armed ending, and when: the armed action, its cap, what the
    model is told and asked, in terms of the event and of what came before it. */
module EndingLaws {
  import opened Util
  import opened ClosingLine
  import opened EndingSteps
  import opened EndingRuns

  //
  // Turns judged a first miss.
  //

  ghost predicate MissInv(w: World) {
    w.a.armed.Some? ==>
      && w.line.notLineThrough == (if w.t.missed == [] then 0 else w.t.missed[|w.t.missed| - 1])
      && (forall i :: 0 <= i < |w.t.missed| ==> w.t.missed[i] <= w.line.notLineThrough)
      && (w.t.missed != [] ==> w.line.notLineThrough <= w.t.lastDone)
  }

  /** The turn, or a later one, was judged a first miss. */
  ghost predicate IsMissedFrom(w: World, turn: int) {
    exists i :: 0 <= i < |w.t.missed| && turn <= w.t.missed[i]
  }

  lemma TurnDoneKeepsMisses(env: Env, w: World, v: View, turn: int, isInterrupted: bool, hasAudio: bool)
    requires MissInv(w) && turn >= w.t.lastDone
    ensures MissInv(Step(env, w, TurnDone(v, turn, isInterrupted, hasAudio)))
  {
    LineSpokenFrame(w, v);
    LineSpokenFrame(WithVerdict(env, w, turn), v);
    LineMissedFrame(env, WithVerdict(env, w, turn), v, turn);
  }

  lemma StepKeepsMisses(env: Env, w: World, event: Event)
    requires MissInv(w) && Enabled(w, event)
    ensures MissInv(Step(env, w, event))
  {
    match event {
      case TurnDone(v, turn, isInterrupted, hasAudio) =>
        TurnDoneKeepsMisses(env, w, v, turn, isInterrupted, hasAudio);
      case BargeIn(v, cut) => CutKeepsMisses(env, w, v, cut);
      case _ =>
    }
  }

  lemma CutKeepsMisses(env: Env, w: World, v: View, cut: Cut)
    requires MissInv(w)
    ensures MissInv(OnBargeIn(env, w, v, cut))
  {
    CutLineFrame(env, WithdrawGoodbye(w, cut), v, cut);
  }

  lemma {:induction false} RunKeepsMisses(env: Env, start: int, events: seq<Event>)
    requires Legal(env, Initial(start), events)
    ensures MissInv(Run(env, Initial(start), events))
    decreases |events|
  {
    if events != [] {
      RunKeepsMisses(env, start, events[..|events| - 1]);
      StepKeepsMisses(env, Run(env, Initial(start), events[..|events| - 1]), events[|events| - 1]);
    }
  }

  //
  // The action runs.
  //

  /** A playback runs exactly the armed action, and leaves nothing armed, if and only if it
      is of a turn after the arming one, neither it nor a later turn was judged a first
      miss, and it had audio; without audio, if no cut is unanswered, but for a turn after
      the goodbye the hangup was given for, and no owed line is unspoken. Otherwise it
      changes nothing. */
  lemma PlaybackRunsTheAction(env: Env, start: int, events: seq<Event>, turn: int, hasAudio: bool)
    requires Legal(env, Initial(start), events) && turn > 0
    ensures var w := Run(env, Initial(start), events);
            var w' := Step(env, w, PlaybackDone(turn, hasAudio));
            var isSaid := || hasAudio
                          || (&& (w.cuts.isInterrupted ==> w.cuts.goodbyeTurn != 0 && turn > w.cuts.goodbyeTurn)
                              && (w.line.isLineOwed ==> w.line.isLineSpoken));
            if w.a.armed.Some? && turn > w.armedInTurn && !IsMissedFrom(w, turn) && isSaid then
              w'.a.ran == w.a.ran + [w.a.armed.value] && w'.a.armed.None?
            else w' == w
  {
    RunKeepsMisses(env, start, events);
    var w := Run(env, Initial(start), events);
    if w.a.armed.Some? && w.t.missed != [] {
      assert turn <= w.line.notLineThrough ==> turn <= w.t.missed[|w.t.missed| - 1];
    }
  }

  /** So what is armed runs at the first later turn with audio, if no line is owed and no
      turn was missed. */
  lemma LaterAudioEndsTheCall(env: Env, start: int, events: seq<Event>, turn: int)
    requires Legal(env, Initial(start), events) && turn > 0
    requires var w := Run(env, Initial(start), events);
             w.a.armed.Some? && turn > w.armedInTurn && w.t.missed == []
    ensures var w := Run(env, Initial(start), events);
            var w' := Step(env, w, PlaybackDone(turn, true));
            w'.a.ran == w.a.ran + [w.a.armed.value] && w'.a.armed.None?
  {
    PlaybackRunsTheAction(env, start, events, turn, true);
  }

  /** By force, or at the end of the call. */
  lemma ForceRunsAndTheEndDrops(env: Env, w: World)
    ensures var k := w.a.armed;
            && Step(env, w, RunNow).a ==
               (if k.None? then w.a else w.a.(armed := None, ran := w.a.ran + [k.value]))
            && Step(env, w, CallEnds).a ==
               (if k.None? then w.a else w.a.(armed := None, disarmed := w.a.disarmed + [k.value]))
            && Step(env, w, CallEnds).cap.generation > w.cap.generation
  {
  }

  /** The cut interrupts: more than 1.5 s of a line that finished was left, or anything of a
      later turn still being made was audible. */
  predicate IsInterruption(w: World, cut: Cut) {
    if w.line.isLineSpoken then cut.unplayed > 1500 * MILLISECOND
    else cut.isGenerating && cut.turn > w.armedInTurn && (cut.unplayed > 0 || cut.played > 0)
  }

  /** A cut that interrupts an armed ending leaves it armed, with its line unspoken, and
      counts; one over the last 1.5 s of a line that finished ends the call; any other
      changes nothing of the line, the cap or the action. */
  lemma CutsInterruptOrEndTheCall(env: Env, w: World, v: View, cut: Cut)
    requires w.a.armed.Some?
    ensures var w' := Step(env, w, BargeIn(v, cut));
            if IsInterruption(w, cut) then
              && w'.a == w.a && w'.cuts.isInterrupted && !w'.line.isLineSpoken
              && w'.cuts.interruptions == w.cuts.interruptions + 1 && w'.cuts.audioTurnsAtInterrupt == v.audioTurns
            else
              && w'.cuts.interruptions == w.cuts.interruptions && w'.line == w.line && w'.cap == w.cap
              && w'.a == (if w.line.isLineSpoken then w.a.(armed := None, ran := w.a.ran + [w.a.armed.value]) else w.a)
  {
    if IsInterruption(w, cut) {
      CutLineFrame(env, WithdrawGoodbye(w, cut), v, cut);
      InterruptedBy(env, WithdrawGoodbye(w, cut), v, cut);
    }
  }

  lemma InterruptedBy(env: Env, w: World, v: View, cut: Cut)
    ensures var w' := CutLine(env, w, v, cut);
            w'.cuts.isInterrupted && w'.cuts.audioTurnsAtInterrupt == v.audioTurns
            && w'.cuts.goodbyeTurn == w.cuts.goodbyeTurn
  {
  }

  /** More than a tail left withdraws the goodbye, and with it the muting of the next turn. */
  lemma LongCutsWithdrawTheGoodbye(env: Env, w: World, v: View, cut: Cut)
    requires w.a.armed.Some?
    ensures var w' := Step(env, w, BargeIn(v, cut));
            var isLong := cut.unplayed > 1500 * MILLISECOND;
            && w'.cuts.goodbyeTurn == (if isLong then 0 else w.cuts.goodbyeTurn)
            && w'.t.isNextTurnMuted == (w.t.isNextTurnMuted && !(isLong && w.cuts.goodbyeTurn != 0))
  {
    CutLineFrame(env, WithdrawGoodbye(w, cut), v, cut);
    InterruptedBy(env, WithdrawGoodbye(w, cut), v, cut);
  }

  /** The first cut that interrupts starts the cap over, and no later one does. */
  lemma FirstInterruptionMovesTheCap(env: Env, w: World, v: View, cut: Cut)
    requires var w' := Step(env, w, BargeIn(v, cut)); w'.cuts.interruptions > w.cuts.interruptions
    ensures var w' := Step(env, w, BargeIn(v, cut));
            if w.cuts.interruptions == 0 then w'.cap.due == w.now + Grace(env) && w'.cap.generation > w.cap.generation
            else w'.cap == w.cap
  {
  }

  //
  // Arming, and hangups that are refused.
  //

  /** Everything an arming starts with. */
  ghost predicate IsFresh(w: World, turn: int, isTransfer: bool, due: int) {
    && w.isArmedTransfer == isTransfer && w.armedInTurn == turn && w.cap.due == due
    && !w.line.isLineOwed && !w.line.isLineSpoken && !w.line.isLineRefused && !w.line.isLineAskedAgain
    && !w.cuts.isInterrupted && w.cuts.interruptions == 0 && !w.cuts.isHangupRefused && w.cuts.goodbyeTurn == 0
    && w.t.requests == 0 && w.t.refusals == 0 && w.t.missed == []
  }

  /** A transfer or a hangup is armed if and only if nothing is and the ending is not locked:
      then with everything cleared and a cap of one grace. */
  lemma ArmsExactlyWhen(env: Env, w: World, v: View, isTransfer: bool)
    ensures var w' := Step(env, w, Arm(v, isTransfer));
            if w.isEndingLocked || w.a.armed.Some? then w' == w
            else
              && w'.a == w.a.(armed := Some(w.a.armings), armings := w.a.armings + 1)
              && var cap := if env.graceCap <= 0 then 10_000 * MILLISECOND else env.graceCap;
                 IsFresh(w', v.turn, isTransfer, w.now + cap)
  {
  }

  /** A hangup arms as well; over an armed one it is refused to a bot that was cut off and
      said nothing since, or that owes a line and said nothing since it armed, each once per
      arming and with a cap of one grace more; over an armed transfer it does nothing. */
  lemma HangupsDo(env: Env, w: World, v: View)
    ensures var w' := Step(env, w, HangupCalled(v));
            var wasCutOff := w.cuts.isInterrupted && v.audioTurns <= w.cuts.audioTurnsAtInterrupt;
            var owesLine := w.line.isLineOwed && !w.cuts.isInterrupted && v.lastAudioTurn <= w.armedInTurn;
            var answer := HangupAnswer(w, v);
            if w.isEndingLocked then w' == w && answer == Succeeded
            else if w.a.armed.None? then w' == Step(env, w, Arm(v, false)) && answer == Succeeded
            else if w.isArmedTransfer then w' == w && answer == BeingTransferred
            else if wasCutOff && !v.isSpeaking && !w.cuts.isHangupRefused then
              && answer == AnswerTheCaller && w'.cuts == w.cuts.(isHangupRefused := true)
              && w'.t.refusals == w.t.refusals + 1 && RestartsCap(w, w', w.now + Grace(env))
            else if owesLine && !v.isSpeaking && !w.line.isLineRefused then
              && answer == SayTheLine && w'.line == w.line.(isLineRefused := true)
              && w'.t.refusals == w.t.refusals + 1 && RestartsCap(w, w', w.now + Grace(env))
            else answer == Succeeded && w'.t.refusals == w.t.refusals && w'.a == w.a && w'.cap == w.cap
  {
  }

  /** The action waits, and its cap is due anew unless it is frozen. */
  ghost predicate RestartsCap(w: World, w': World, due: int) {
    && w'.a == w.a
    && (if w.cuts.interruptions >= 2 then w'.cap == w.cap
        else w'.cap.due == due && w'.cap.generation > w.cap.generation)
  }

  /** A hangup that is accepted while the bot speaks after a line taken as said is the
      goodbye, once: the turn it is given for is noted and the next one muted. */
  lemma GoodbyesAreMutedExactlyWhen(env: Env, w: World, v: View)
    requires !w.isEndingLocked && w.a.armed.Some? && !w.isArmedTransfer
    ensures var w' := Step(env, w, HangupCalled(v));
            w'.cuts.goodbyeTurn != w.cuts.goodbyeTurn ==>
              && w.cuts.isLineSaidByRule && w.cuts.goodbyeTurn == 0 && v.isSpeaking && v.turn > w.armedInTurn
              && w'.cuts.goodbyeTurn == v.turn && w'.t.isNextTurnMuted
    ensures var w' := Step(env, w, HangupCalled(v));
            (v.isSpeaking && v.turn > w.armedInTurn && w.cuts.isLineSaidByRule && w.cuts.goodbyeTurn == 0 ==>
               w'.cuts.goodbyeTurn == v.turn)
  {
  }

  //
  // The line.
  //

  /** A line is newly owed if and only if a hangup is armed, not locked, and its line not yet
      spoken; the ending then waits for that line. */
  lemma LineIsOwedExactlyWhen(env: Env, w: World, line: string)
    ensures var w' := Step(env, w, LineExpected(line));
            if w.a.armed.Some? && !w.isArmedTransfer && !w.isEndingLocked && !w.line.isLineSpoken then
              w'.line == w.line.(isLineOwed := true, closingLine := line) && w'.a == w.a && w'.cap == w.cap
            else w' == w
  {
  }

  /** The words held against an owed line are those of turns after the arming one and after
      the last miss, piece after piece, with nothing at either end to trim. */
  lemma WordsAreWhatWasSaid(env: Env, w: World, turn: int, text: string, other: int)
    ensures var w' := Step(env, w, BotSaid(turn, text));
            var counts := && w.a.armed.Some? && w.line.isLineOwed && w.line.closingLine != "" && text != ""
                          && turn > w.armedInTurn && turn > w.line.notLineThrough;
            && (other != turn ==> Words(w'.line, other) == Words(w.line, other))
            && Words(w'.line, turn) ==
               (if counts then TrimSpace(env.classes, Words(w.line, turn) + " " + text) else Words(w.line, turn))
            && w'.a == w.a && w'.cap == w.cap
  {
  }

  /** What a turn finished whole after the arming one does: with no line owed, or one it
      said, the line is spoken and the cap covers its playing and two seconds; with a first
      miss the cap is started over by a grace and what still plays. Others change nothing
      armed. */
  lemma FinishedTurnsDo(env: Env, w: World, v: View, turn: int, isInterrupted: bool, hasAudio: bool)
    ensures var w' := Step(env, w, TurnDone(v, turn, isInterrupted, hasAudio));
            var counts := w.a.armed.Some? && turn > w.armedInTurn && !isInterrupted && (w.line.isLineOwed ==> hasAudio);
            var covers := w.now + v.queuedPlayout + 2000 * MILLISECOND;
            && w'.a == w.a
            && (!counts ==> w'.line == w.line && w'.cap == w.cap)
            && (counts && !w.line.isLineOwed ==> w'.line.isLineSpoken)
            && (counts && w'.line.isLineSpoken && w.cuts.interruptions < 2 && |w'.t.missed| == |w.t.missed| ==>
                  w'.cap.due == Max(w.cap.due, covers))
            && (|w'.t.missed| != |w.t.missed| ==>
                  && w'.t.missed == w.t.missed + [turn]
                  && RestartsCap(w, w', w.now + Grace(env) + v.queuedPlayout))
            && (w.cuts.interruptions >= 2 ==> w'.cap == w.cap)
  {
    if w.a.armed.Some? && turn > w.armedInTurn && !isInterrupted {
      if !w.line.isLineOwed {
        LineSpokenFrame(w, v);
      } else if hasAudio {
        LineSpokenFrame(WithVerdict(env, w, turn), v);
        LineMissedFrame(env, WithVerdict(env, w, turn), v, turn);
      }
    }
  }

  /** The words of a turn that counts while the line is owed are taken, and with them those of
      every turn before; words already heard of later turns stay. */
  lemma JudgedWordsAreTaken(env: Env, w: World, v: View, turn: int, hasAudio: bool, other: int)
    requires w.a.armed.Some? && turn > w.armedInTurn && w.line.isLineOwed
    ensures var w' := Step(env, w, TurnDone(v, turn, false, hasAudio));
            Words(w'.line, other) == if hasAudio && other <= turn then "" else Words(w.line, other)
  {
    var judged := WithVerdict(env, w, turn);
    LineSpokenFrame(judged, v);
    LineMissedFrame(env, judged, v, turn);
  }
}
