/** Runs of the armed-ending protocol: what holds of every sequence of handlers,
    timers and clock steps. */
module EndingRuns {
  import opened Util
  import opened ClosingLine
  import opened EndingSteps

  datatype Event =
    | Arm(v: View, isTransfer: bool)
    | HangupCalled(v: View)
    | LineExpected(line: string)
    | BotSaid(turn: int, text: string)
    | TurnDone(v: View, turn: int, isInterrupted: bool, hasAudio: bool)
    | PlaybackDone(turn: int, hasAudio: bool)
    | BargeIn(v: View, cut: Cut)
    | LimitLocks
    | HandoverHolds
    | HandoverFailed
    | RunNow
    | CallEnds
    | CapFires(timer: Timer)
    | Tick(to: int)

  function Step(env: Env, w: World, event: Event): World {
    match event
    case Arm(v, isTransfer) => ArmAs(env, w, v, isTransfer)
    case HangupCalled(v) => Hangup(env, w, v)
    case LineExpected(line) => ExpectClosingLine(w, line)
    case BotSaid(turn, text) => OnBotSaid(env, w, turn, text)
    case TurnDone(v, turn, isInterrupted, hasAudio) =>
      var w' := OnTurnDone(env, w, v, turn, isInterrupted, hasAudio);
      w'.(t := w'.t.(lastDone := turn,
                     finished := if !isInterrupted && hasAudio then w'.t.finished + {turn} else w'.t.finished))
    case PlaybackDone(turn, hasAudio) => OnPlaybackDone(w, turn, hasAudio)
    case BargeIn(v, cut) => OnBargeIn(env, w, v, cut)
    case LimitLocks => LockEnding(w)
    case HandoverHolds => w.(isEndingLocked := true)
    case HandoverFailed => w.(isEndingLocked := false)
    case RunNow => RunArmed(w)
    case CallEnds => Disarm(w)
    case CapFires(timer) => RunAtCap(w, timer)
    case Tick(to) => w.(now := to)
  }

  /** What the surroundings guarantee: a timer fires when due and time does not pass a
      timer that has yet to fire; turns finish in order; a turn's TURN_DONE is handled
      before its PLAYBACK_DONE, no line being newly owed in between. */
  predicate Enabled(w: World, event: Event) {
    match event
    case CapFires(timer) => timer in w.cap.live && w.now >= timer.due
    case Tick(to) => w.now <= to && forall timer :: timer in w.cap.live ==> to <= timer.due
    case TurnDone(_, turn, _, _) => turn >= w.t.lastDone
    case PlaybackDone(turn, hasAudio) =>
      w.line.isLineOwed && hasAudio && turn > w.armedInTurn ==> turn in w.t.finished
    case _ => true
  }

  function Run(env: Env, w: World, events: seq<Event>): World
    decreases |events|
  {
    if events == [] then w else Step(env, Run(env, w, events[..|events| - 1]), events[|events| - 1])
  }

  predicate Legal(env: Env, w: World, events: seq<Event>)
    decreases |events|
  {
    events == [] ||
    (var before := events[..|events| - 1];
     Legal(env, w, before) && Enabled(Run(env, w, before), events[|events| - 1]))
  }

  //
  // What a step does to the armed action and its cap.
  //

  /** The part of the world that says what is armed and which caps run. */
  datatype Core = Core(a: Action, cap: Cap, now: int)

  function CoreOf(w: World): Core { Core(w.a, w.cap, w.now) }

  function CapStarted(c: Core, due: int): Core {
    c.(cap := Cap(c.cap.generation + 1, due, c.cap.live + {Timer(c.cap.generation + 1, due, c.a.armed)}))
  }

  function Ran(c: Core): Core {
    match c.a.armed case None => c case Some(k) => c.(a := c.a.(armed := None, ran := c.a.ran + [k]))
  }

  function Dropped(c: Core): Core {
    var cap := c.cap.(generation := c.cap.generation + 1);
    match c.a.armed
    case None => c.(cap := cap)
    case Some(k) => c.(a := c.a.(armed := None, disarmed := c.a.disarmed + [k]), cap := cap)
  }

  function Armed(c: Core, due: int): Core {
    CapStarted(c.(a := c.a.(armed := Some(c.a.armings), armings := c.a.armings + 1)), due)
  }

  function Fired(c: Core, timer: Timer): Core {
    var fired := c.(cap := c.cap.(live := c.cap.live - {timer}));
    if c.a.armed.Some? && c.cap.generation == timer.generation then Ran(fired) else fired
  }

  /** The moves a step can be, seen from the armed action and its cap. */
  ghost predicate Move(c: Core, c': Core, event: Event) {
    || c' == c
    || (c.a.armed.Some? && c'.cap.due >= c.now && c' == CapStarted(c, c'.cap.due))
    || (c.a.armed.None? && c'.cap.due >= c.now && c' == Armed(c, c'.cap.due))
    || (c.a.armed.Some? && !event.CapFires? && c' == Ran(c))
    || (event.CallEnds? && c' == Dropped(c))
    || (event.Tick? && c' == c.(now := event.to) && c.now <= event.to &&
        forall timer :: timer in c.cap.live ==> event.to <= timer.due)
    || (event.CapFires? && c' == Fired(c, event.timer))
  }

  //
  // What the parts of a handler leave alone.
  //

  lemma CutLineFrame(env: Env, w: World, v: View, cut: Cut)
    ensures var w' := CutLine(env, w, v, cut);
            && w'.a == w.a && w'.t == w.t && w'.cuts.interruptions == w.cuts.interruptions + 1
            && w'.cuts.isHangupRefused == w.cuts.isHangupRefused
            && w'.line == w.line.(isLineSpoken := false, isLineOwed := w'.line.isLineOwed)
            && (w'.line.isLineOwed <==>
                (w.line.isLineOwed && w.cuts.interruptions == 0 &&
                 !(w.line.isLineSpoken && IsFirstCutInFinalSentence(env, w, cut))))
            && w'.isArmedTransfer == w.isArmedTransfer && w'.armedInTurn == w.armedInTurn
            && w'.now == w.now
            && (if w.cuts.interruptions >= 1 then w'.cap == w.cap
                else CoreOf(w') == CapStarted(CoreOf(w), w.now + Grace(env)))
  {
  }

  /** The cap is as it was or started over, due no earlier than now. */
  ghost predicate CapOnly(w: World, w': World) {
    && w'.a == w.a && w'.now == w.now
    && (w'.cap == w.cap || (w'.cap.due >= w.now && CoreOf(w') == CapStarted(CoreOf(w), w'.cap.due)))
  }

  lemma LineSpokenFrame(w: World, v: View)
    ensures var w' := LineSpoken(w, v);
            && CapOnly(w, w') && w' == w.(line := w.line.(isLineSpoken := true), cap := w'.cap)
  {
  }

  lemma LineMissedFrame(env: Env, w: World, v: View, turn: int)
    ensures var w', isAsked := LineMissed(env, w, v, turn), !v.isTurnGenerating;
            && CapOnly(w, w')
            && w' == w.(line := w.line.(notLineThrough := turn, isLineAskedAgain := w.line.isLineAskedAgain || isAsked),
                        cap := w'.cap,
                        t := w.t.(requests := w.t.requests + (if isAsked then 1 else 0), missed := w.t.missed + [turn]))
  {
  }

  lemma TurnDoneFrame(env: Env, w: World, v: View, turn: int, isInterrupted: bool, hasAudio: bool)
    ensures var w' := OnTurnDone(env, w, v, turn, isInterrupted, hasAudio);
            && CapOnly(w, w') && (w' == w || w.a.armed.Some?)
            && w'.cuts == w.cuts && w'.isEndingLocked == w.isEndingLocked
            && w'.line.isLineOwed == w.line.isLineOwed && w'.line.isLineRefused == w.line.isLineRefused
            && w'.t.refusals == w.t.refusals
            && (if w'.t.requests == w.t.requests then w'.line.isLineAskedAgain == w.line.isLineAskedAgain
                else !w.line.isLineAskedAgain && w'.line.isLineAskedAgain && w'.t.requests == w.t.requests + 1)
  {
    LineSpokenFrame(w, v);
    LineSpokenFrame(WithVerdict(env, w, turn), v);
    LineMissedFrame(env, WithVerdict(env, w, turn), v, turn);
  }

  lemma HangupMoves(env: Env, w: World, v: View)
    ensures Move(CoreOf(w), CoreOf(Hangup(env, w, v)), HangupCalled(v))
  {
  }

  lemma BargeInMoves(env: Env, w: World, v: View, cut: Cut)
    ensures Move(CoreOf(w), CoreOf(OnBargeIn(env, w, v, cut)), BargeIn(v, cut))
  {
    CutLineFrame(env, WithdrawGoodbye(w, cut), v, cut);
  }

  lemma TurnDoneMoves(env: Env, w: World, v: View, turn: int, isInterrupted: bool, hasAudio: bool)
    ensures Move(CoreOf(w), CoreOf(Step(env, w, TurnDone(v, turn, isInterrupted, hasAudio))),
                 TurnDone(v, turn, isInterrupted, hasAudio))
  {
    TurnDoneFrame(env, w, v, turn, isInterrupted, hasAudio);
  }

  lemma StepMoves(env: Env, w: World, event: Event)
    requires Enabled(w, event)
    ensures Move(CoreOf(w), CoreOf(Step(env, w, event)), event)
  {
    match event {
      case HangupCalled(v) => HangupMoves(env, w, v);
      case TurnDone(v, turn, isInterrupted, hasAudio) =>
        TurnDoneMoves(env, w, v, turn, isInterrupted, hasAudio);
      case BargeIn(v, cut) => BargeInMoves(env, w, v, cut);
      case _ =>
    }
  }

  //
  // Invariants.
  //

  /** Every armed action is exactly one of waiting, run and dropped with the call. */
  ghost predicate Accounted(c: Core) {
    && Distinct(c.a.ran) && Distinct(c.a.disarmed)
    && (forall k :: k in c.a.ran ==> k < c.a.armings && k !in c.a.disarmed && c.a.armed != Some(k))
    && (forall k :: k in c.a.disarmed ==> k < c.a.armings && c.a.armed != Some(k))
    && (forall k :: 0 <= k < c.a.armings ==> k in c.a.ran || k in c.a.disarmed || c.a.armed == Some(k))
    && (c.a.armed.Some? ==> c.a.armed.value + 1 == c.a.armings)
  }

  /** The cap of what is armed is running, and no other timer has its generation. */
  ghost predicate CapRuns(c: Core) {
    && (forall timer :: timer in c.cap.live ==> timer.generation <= c.cap.generation && c.now <= timer.due)
    && (c.a.armed.Some? ==>
          && Timer(c.cap.generation, c.cap.due, c.a.armed) in c.cap.live
          && forall timer :: timer in c.cap.live && timer.generation == c.cap.generation ==> timer.arming == c.a.armed)
  }

  /** One request for the line, one refusal of each kind. */
  ghost predicate Spent(w: World) {
    && w.t.requests == (if w.line.isLineAskedAgain then 1 else 0)
    && w.t.refusals == (if w.cuts.isHangupRefused then 1 else 0) + (if w.line.isLineRefused then 1 else 0)
  }

  ghost predicate HasHeardTurn(w: World) {
    exists i :: 0 <= i < |w.t.judged| && w.t.judged[i].verdict != FirstMiss
  }

  ghost predicate HasJudged(w: World, turn: int) {
    exists i :: 0 <= i < |w.t.judged| && w.t.judged[i].turn == turn
  }

  /** What the verdicts say while the line is owed. */
  ghost predicate Owing(w: World) {
    w.a.armed.Some? && w.line.isLineOwed ==>
      && !w.isArmedTransfer
      && (w.line.isLineSpoken ==> HasHeardTurn(w))
      && (forall turn :: turn in w.t.finished && turn > w.armedInTurn ==> HasJudged(w, turn))
      && (forall i :: 0 <= i < |w.t.judged| ==>
            && w.armedInTurn < w.t.judged[i].turn <= w.t.lastDone
            && (w.t.judged[i].verdict == FirstMiss ==> w.t.judged[i].turn <= w.line.notLineThrough)
            && (w.t.judged[i].verdict == SecondMiss ==> w.t.requests == 1))
  }

  ghost predicate Inv(w: World) { Accounted(CoreOf(w)) && CapRuns(CoreOf(w)) && Spent(w) && Owing(w) }

  lemma MoveKeepsAccounted(c: Core, c': Core, event: Event)
    requires Accounted(c) && Move(c, c', event)
    ensures Accounted(c')
  {
  }

  lemma MoveKeepsCapRuns(c: Core, c': Core, event: Event)
    requires CapRuns(c) && Move(c, c', event)
    ensures CapRuns(c')
  {
  }

  lemma HangupKeepsSpent(env: Env, w: World, v: View)
    requires Spent(w)
    ensures Spent(Hangup(env, w, v))
  {
  }

  lemma TurnDoneKeepsSpent(env: Env, w: World, v: View, turn: int, isInterrupted: bool, hasAudio: bool)
    requires Spent(w)
    ensures Spent(OnTurnDone(env, w, v, turn, isInterrupted, hasAudio))
  {
    TurnDoneFrame(env, w, v, turn, isInterrupted, hasAudio);
  }

  /** What a cut leaves of the requests and refusals, and of the owed line. */
  ghost predicate CutFrame(w: World, w': World) {
    && w'.t.requests == w.t.requests && w'.t.refusals == w.t.refusals
    && w'.line.isLineAskedAgain == w.line.isLineAskedAgain
    && w'.cuts.isHangupRefused == w.cuts.isHangupRefused && w'.line.isLineRefused == w.line.isLineRefused
    && w'.cuts.interruptions >= w.cuts.interruptions
    && (w'.line.isLineOwed ==> w.line.isLineOwed)
    && (w.cuts.interruptions >= 2 ==> w'.cap == w.cap)
    && (w'.cuts.interruptions > w.cuts.interruptions >= 1 ==>
          !w'.line.isLineOwed && w'.cap == w.cap && w'.a == w.a)
  }

  lemma TakeCutFrame(env: Env, w: World, v: View, cut: Cut)
    ensures CutFrame(w, TakeCut(env, w, v, cut))
  {
    CutLineFrame(env, w, v, cut);
  }

  lemma BargeInFrame(env: Env, w: World, v: View, cut: Cut)
    ensures CutFrame(w, OnBargeIn(env, w, v, cut))
  {
    var w1 := WithdrawGoodbye(w, cut);
    assert w1.line == w.line && w1.cap == w.cap && w1.a == w.a;
    TakeCutFrame(env, w1, v, cut);
  }

  lemma StepKeepsSpent(env: Env, w: World, event: Event)
    requires Spent(w)
    ensures Spent(Step(env, w, event))
  {
    match event {
      case HangupCalled(v) => HangupKeepsSpent(env, w, v);
      case TurnDone(v, turn, isInterrupted, hasAudio) =>
        TurnDoneKeepsSpent(env, w, v, turn, isInterrupted, hasAudio);
      case BargeIn(v, cut) => BargeInFrame(env, w, v, cut);
      case _ =>
    }
  }

  /** Judging one more turn. */
  lemma VerdictKeepsOwing(env: Env, w: World, turn: int)
    requires Owing(w) && Spent(w) && turn >= w.t.lastDone
    requires w.a.armed.Some? && w.line.isLineOwed && turn > w.armedInTurn
    ensures var w' := WithVerdict(env, w, turn);
            HasJudged(w', turn) && (w.line.isLineSpoken || Judge(env, w.line, turn) != FirstMiss ==> HasHeardTurn(w'))
    ensures var w' := WithVerdict(env, w, turn);
            forall t :: t in w.t.finished && t > w.armedInTurn ==> HasJudged(w', t)
  {
    var w' := WithVerdict(env, w, turn);
    assert w'.t.judged[|w.t.judged|] == Judged(turn, Judge(env, w.line, turn));
    forall t | t in w.t.finished && t > w.armedInTurn ensures HasJudged(w', t) {
      assert HasJudged(w, t);
      var i :| 0 <= i < |w.t.judged| && w.t.judged[i].turn == t;
      assert w'.t.judged[i].turn == t;
    }
    if w.line.isLineSpoken {
      var i :| 0 <= i < |w.t.judged| && w.t.judged[i].verdict != FirstMiss;
      assert w'.t.judged[i].verdict != FirstMiss;
    }
  }

  /** The turn is held against the owed line. */
  predicate IsJudged(w: World, turn: int, isInterrupted: bool, hasAudio: bool) {
    w.a.armed.Some? && w.line.isLineOwed && turn > w.armedInTurn && !isInterrupted && hasAudio
  }

  lemma JudgedTurnKeepsOwing(env: Env, w: World, v: View, turn: int)
    requires Owing(w) && Spent(w) && turn >= w.t.lastDone && IsJudged(w, turn, false, true)
    ensures Owing(Step(env, w, TurnDone(v, turn, false, true)))
  {
    LineSpokenFrame(WithVerdict(env, w, turn), v);
    LineMissedFrame(env, WithVerdict(env, w, turn), v, turn);
    VerdictKeepsOwing(env, w, turn);
    var judged := WithVerdict(env, w, turn);
    var w' := Step(env, w, TurnDone(v, turn, false, true));
    assert w'.t.judged == judged.t.judged;
    assert HasJudged(w', turn) by { assert HasJudged(judged, turn); }
    forall t | t in w'.t.finished && t > w'.armedInTurn ensures HasJudged(w', t) {
      if t != turn { assert HasJudged(judged, t); }
    }
  }

  lemma TurnDoneKeepsOwing(env: Env, w: World, v: View, turn: int, isInterrupted: bool, hasAudio: bool)
    requires Owing(w) && Spent(w) && turn >= w.t.lastDone
    ensures Owing(Step(env, w, TurnDone(v, turn, isInterrupted, hasAudio)))
  {
    if IsJudged(w, turn, isInterrupted, hasAudio) {
      JudgedTurnKeepsOwing(env, w, v, turn);
    } else if w.a.armed.Some? && w.line.isLineOwed {
      assert OnTurnDone(env, w, v, turn, isInterrupted, hasAudio) == w;
    } else {
      TurnDoneFrame(env, w, v, turn, isInterrupted, hasAudio);
    }
  }

  lemma HangupKeepsOwing(env: Env, w: World, v: View)
    requires Owing(w)
    ensures Owing(Hangup(env, w, v))
  {
  }

  lemma BargeInKeepsOwing(env: Env, w: World, v: View, cut: Cut)
    requires Owing(w)
    ensures Owing(OnBargeIn(env, w, v, cut))
  {
    CutLineFrame(env, WithdrawGoodbye(w, cut), v, cut);
  }

  lemma StepKeepsOwing(env: Env, w: World, event: Event)
    requires Owing(w) && Spent(w) && Enabled(w, event)
    ensures Owing(Step(env, w, event))
  {
    match event {
      case TurnDone(v, turn, isInterrupted, hasAudio) =>
        TurnDoneKeepsOwing(env, w, v, turn, isInterrupted, hasAudio);
      case HangupCalled(v) => HangupKeepsOwing(env, w, v);
      case BargeIn(v, cut) => BargeInKeepsOwing(env, w, v, cut);
      case _ =>
    }
  }

  lemma StepKeepsInv(env: Env, w: World, event: Event)
    requires Inv(w) && Enabled(w, event)
    ensures Inv(Step(env, w, event))
  {
    StepMoves(env, w, event);
    MoveKeepsAccounted(CoreOf(w), CoreOf(Step(env, w, event)), event);
    MoveKeepsCapRuns(CoreOf(w), CoreOf(Step(env, w, event)), event);
    StepKeepsSpent(env, w, event);
    StepKeepsOwing(env, w, event);
  }

  lemma {:induction false} RunKeepsInv(env: Env, w: World, events: seq<Event>)
    requires Inv(w) && Legal(env, w, events)
    ensures Inv(Run(env, w, events))
    decreases |events|
  {
    if events != [] {
      RunKeepsInv(env, w, events[..|events| - 1]);
      StepKeepsInv(env, Run(env, w, events[..|events| - 1]), events[|events| - 1]);
    }
  }

  //
  // The promises of the protocol, over every run of a call.
  //

  /** Every armed action runs at most once, and unless the call ends first is still
      waiting or has run: none is lost and none replaced. */
  lemma ActionsRunAtMostOnce(env: Env, start: int, events: seq<Event>)
    requires Legal(env, Initial(start), events)
    ensures var a := Run(env, Initial(start), events).a;
            && Distinct(a.ran)
            && (forall k :: k in a.ran ==> 0 <= k < a.armings && a.armed != Some(k) && k !in a.disarmed)
            && (forall k :: 0 <= k < a.armings ==> k in a.ran || a.armed == Some(k) || k in a.disarmed)
  {
    RunKeepsInv(env, Initial(start), events);
  }

  /** A cap timer runs only the action it was started for. */
  lemma StaleTimersRunNothing(env: Env, start: int, events: seq<Event>, timer: Timer)
    requires Legal(env, Initial(start), events + [CapFires(timer)])
    ensures var w := Run(env, Initial(start), events);
            var w' := Run(env, Initial(start), events + [CapFires(timer)]);
            || w'.a.ran == w.a.ran
            || (timer.arming.Some? && w.a.armed == timer.arming && w'.a.ran == w.a.ran + [timer.arming.value])
  {
    var all := events + [CapFires(timer)];
    assert all[..|all| - 1] == events;
    RunKeepsInv(env, Initial(start), events);
  }

  /** While an action is armed its cap has not passed, a timer for it is waiting, and
      that timer runs it. */
  lemma ArmedIsAlwaysCapped(env: Env, start: int, events: seq<Event>)
    requires Legal(env, Initial(start), events)
    ensures var w := Run(env, Initial(start), events);
            var timer := Timer(w.cap.generation, w.cap.due, w.a.armed);
            w.a.armed.Some? ==>
              && timer in w.cap.live && w.now <= w.cap.due
              && RunAtCap(w, timer).a.ran == w.a.ran + [w.a.armed.value]
  {
    RunKeepsInv(env, Initial(start), events);
  }

  /** The line is requested once and a hangup refused twice at most, per arming. */
  lemma RequestsAndRefusalsAreBounded(env: Env, start: int, events: seq<Event>)
    requires Legal(env, Initial(start), events)
    ensures var w := Run(env, Initial(start), events); w.t.requests <= 1 && w.t.refusals <= 2
  {
    RunKeepsInv(env, Initial(start), events);
  }

  /** What is armed after a step and was armed before some step was armed before this one. */
  lemma ArmedLasts(c: Core, c': Core, event: Event, k: nat)
    requires Move(c, c', event) && k < c.a.armings
    ensures c'.a.armed == Some(k) ==> c.a.armed == Some(k)
    ensures c'.a.armings >= c.a.armings
  {
  }

  /** From the second interruption on, a step that leaves the action armed moves neither
      its cap nor, if the line is not newly owed, its request. */
  lemma FrozenStep(env: Env, w: World, event: Event)
    requires w.a.armed.Some? && w.cuts.interruptions >= 2
    ensures var w' := Step(env, w, event);
            w'.a.armed == w.a.armed ==>
              && w'.cuts.interruptions >= 2 && w'.cap.due == w.cap.due
              && (!w.line.isLineOwed && !event.LineExpected? ==> !w'.line.isLineOwed && w'.t.requests == w.t.requests)
  {
    match event {
      case BargeIn(v, cut) => BargeInFrame(env, w, v, cut);
      case _ =>
    }
  }

  /** Only a cut adds to the interruptions. */
  lemma OnlyCutsInterrupt(env: Env, w: World, event: Event)
    requires !event.BargeIn?
    ensures Step(env, w, event).cuts.interruptions in {w.cuts.interruptions, 0}
  {
    match event {
      case TurnDone(v, turn, isInterrupted, hasAudio) => TurnDoneFrame(env, w, v, turn, isInterrupted, hasAudio);
      case _ =>
    }
  }

  /** The second interruption leaves the line not owed and the cap where it was. */
  lemma SecondInterruptionFreezes(env: Env, w: World, event: Event)
    requires w.cuts.interruptions == 1 && Step(env, w, event).cuts.interruptions == 2
    ensures event.BargeIn?
    ensures var w' := Step(env, w, event); !w'.line.isLineOwed && w'.cap == w.cap && w'.a == w.a
  {
    if event.BargeIn? {
      BargeInFrame(env, w, event.v, event.cut);
    } else {
      OnlyCutsInterrupt(env, w, event);
    }
  }

  /** From the second interruption on the cap is frozen for as long as the action waits,
      whatever happens, so the action runs by then; and the line is not requested again
      unless one is newly expected. */
  lemma {:induction false} CapIsFrozen(env: Env, w: World, events: seq<Event>)
    requires Inv(w) && Legal(env, w, events)
    requires w.a.armed.Some? && w.cuts.interruptions >= 2
    ensures var w' := Run(env, w, events);
            && w'.a.armings >= w.a.armings
            && (w'.a.armed == w.a.armed ==>
                  w'.cuts.interruptions >= 2 && w'.cap.due == w.cap.due && w'.now <= w.cap.due)
            && (w'.a.armed == w.a.armed && !w.line.isLineOwed
                && (forall i :: 0 <= i < |events| ==> !events[i].LineExpected?)
                ==> !w'.line.isLineOwed && w'.t.requests == w.t.requests)
    decreases |events|
  {
    if events != [] {
      var before, event := events[..|events| - 1], events[|events| - 1];
      CapIsFrozen(env, w, before);
      RunKeepsInv(env, w, events);
      RunKeepsInv(env, w, before);
      var w1 := Run(env, w, before);
      StepMoves(env, w1, event);
      ArmedLasts(CoreOf(w1), CoreOf(Step(env, w1, event)), event, w.a.armed.value);
      if w1.a.armed == w.a.armed {
        FrozenStep(env, w1, event);
      }
    }
  }

  ghost predicate IsHeard(w: World, judged: Judged) {
    judged.turn > w.armedInTurn &&
    (judged.verdict == Covered || judged.verdict == NothingToCompare ||
     (judged.verdict == SecondMiss && w.t.requests == 1))
  }

  lemma LineIsHeardBeforeTheEnd(env: Env, w: World, event: Event)
    requires Owing(w) && Enabled(w, event) && (event.PlaybackDone? || event.BargeIn?)
    requires w.a.armed.Some? && w.line.isLineOwed && Step(env, w, event).a.armed.None?
    ensures exists i :: 0 <= i < |w.t.judged| && IsHeard(w, w.t.judged[i])
  {
    if w.line.isLineSpoken {
      assert HasHeardTurn(w);
      var i :| 0 <= i < |w.t.judged| && w.t.judged[i].verdict != FirstMiss;
      assert IsHeard(w, w.t.judged[i]);
    } else {
      if event.BargeIn? {
        CutLineFrame(env, WithdrawGoodbye(w, event.cut), event.v, event.cut);
      }
      assert HasJudged(w, event.turn);
      var i :| 0 <= i < |w.t.judged| && w.t.judged[i].turn == event.turn;
      assert IsHeard(w, w.t.judged[i]);
    }
  }

  /** While the line is owed, a playback or the caller's "bye" ends the call only after
      a turn later than the arming one finished uninterrupted with audio and was judged
      as having said the line, as having nothing to compare, or as the second miss
      after exactly one request. */
  lemma OwedLineIsHeardBeforeTheEnd(env: Env, start: int, events: seq<Event>, event: Event)
    requires Legal(env, Initial(start), events) && Enabled(Run(env, Initial(start), events), event)
    requires event.PlaybackDone? || event.BargeIn?
    requires var w := Run(env, Initial(start), events);
             w.a.armed.Some? && w.line.isLineOwed && Step(env, w, event).a.armed.None?
    ensures var w := Run(env, Initial(start), events);
            exists i :: 0 <= i < |w.t.judged| && IsHeard(w, w.t.judged[i])
  {
    RunKeepsInv(env, Initial(start), events);
    LineIsHeardBeforeTheEnd(env, Run(env, Initial(start), events), event);
  }

  /** The owed line is let go exactly when the model insists on hangup after the one
      refusal, when the first interruption falls in the final sentence of a line that
      had finished, at the second interruption, or at the time limit. */
  predicate LetsLineGo(env: Env, w: World, event: Event) {
    match event
    case HangupCalled(v) => !w.isEndingLocked && !RefusesBareHangup(w, v) && w.line.isLineRefused
    case BargeIn(v, cut) =>
      Interrupts(w, cut) &&
      (w.cuts.interruptions >= 1 || (w.line.isLineSpoken && IsFirstCutInFinalSentence(env, w, cut)))
    case LimitLocks => true
    case _ => false
  }

  lemma BargeInLetsGo(env: Env, w: World, v: View, cut: Cut)
    requires Owing(w) && w.a.armed.Some? && w.line.isLineOwed && OnBargeIn(env, w, v, cut).a.armed == w.a.armed
    ensures !OnBargeIn(env, w, v, cut).line.isLineOwed <==> LetsLineGo(env, w, BargeIn(v, cut))
  {
    CutLineFrame(env, WithdrawGoodbye(w, cut), v, cut);
  }

  lemma HangupLetsGo(env: Env, w: World, v: View)
    requires Owing(w) && w.a.armed.Some? && w.line.isLineOwed
    ensures !Hangup(env, w, v).line.isLineOwed <==> LetsLineGo(env, w, HangupCalled(v))
  {
  }

  lemma LineIsLetGoExactlyWhen(env: Env, w: World, event: Event)
    requires Owing(w) && w.a.armed.Some? && w.line.isLineOwed && Step(env, w, event).a.armed == w.a.armed
    ensures !Step(env, w, event).line.isLineOwed <==> LetsLineGo(env, w, event)
  {
    match event {
      case BargeIn(v, cut) => BargeInLetsGo(env, w, v, cut);
      case HangupCalled(v) => HangupLetsGo(env, w, v);
      case TurnDone(v, turn, isInterrupted, hasAudio) => TurnDoneFrame(env, w, v, turn, isInterrupted, hasAudio);
      case _ =>
    }
  }

  lemma OwedLineIsLetGoExactlyWhen(env: Env, start: int, events: seq<Event>, event: Event)
    requires Legal(env, Initial(start), events)
    requires var w := Run(env, Initial(start), events);
             w.a.armed.Some? && w.line.isLineOwed && Step(env, w, event).a.armed == w.a.armed
    ensures var w := Run(env, Initial(start), events);
            !Step(env, w, event).line.isLineOwed <==> LetsLineGo(env, w, event)
  {
    RunKeepsInv(env, Initial(start), events);
    LineIsLetGoExactlyWhen(env, Run(env, Initial(start), events), event);
  }

  /** A verdict is earned: only a turn after the arming one that finished whole with audio
      while the line was owed is judged, by its own words; and only a first miss asks for
      the line again, unless a later turn is already being made. */
  lemma VerdictsAreEarned(env: Env, w: World, event: Event)
    requires |Step(env, w, event).t.judged| > |w.t.judged|
    ensures event.TurnDone? && IsJudged(w, event.turn, event.isInterrupted, event.hasAudio)
    ensures var w', line, words := Step(env, w, event), w.line.closingLine, Words(w.line, event.turn);
            exists verdict ::
              && w'.t.judged == w.t.judged + [Judged(event.turn, verdict)]
              && (verdict == NothingToCompare <==> line == "" || words == "")
              && (verdict == Covered <==> line != "" && words != "" && Says(env.classes, line, words))
              && (verdict == SecondMiss ==> w.line.isLineAskedAgain)
              && (verdict == FirstMiss ==> !w.line.isLineAskedAgain && w'.line.isLineSpoken == w.line.isLineSpoken)
              && (verdict != FirstMiss ==> w'.line.isLineSpoken)
              && w'.t.requests == w.t.requests + (if verdict == FirstMiss && !event.v.isTurnGenerating then 1 else 0)
  {
    match event {
      case TurnDone(v, turn, isInterrupted, hasAudio) =>
        JudgedByTurnDone(env, w, v, turn, isInterrupted, hasAudio);
      case BargeIn(v, cut) =>
        CutLineFrame(env, WithdrawGoodbye(w, cut), v, cut);
        assert false;
      case _ => assert false;
    }
  }

  lemma JudgedByTurnDone(env: Env, w: World, v: View, turn: int, isInterrupted: bool, hasAudio: bool)
    ensures var w' := OnTurnDone(env, w, v, turn, isInterrupted, hasAudio);
            var verdict := Judge(env, w.line, turn);
            if !IsJudged(w, turn, isInterrupted, hasAudio) then w'.t.judged == w.t.judged
            else
              && w'.t.judged == w.t.judged + [Judged(turn, verdict)]
              && w'.line.isLineSpoken == (w.line.isLineSpoken || verdict != FirstMiss)
              && w'.t.requests == w.t.requests + if verdict == FirstMiss && !v.isTurnGenerating then 1 else 0
  {
    LineSpokenFrame(w, v);
    LineSpokenFrame(WithVerdict(env, w, turn), v);
    LineMissedFrame(env, WithVerdict(env, w, turn), v, turn);
  }

  /** Words only add: taking one more piece of a turn never lowers what the turn's words
      cover of a line nor un-says it, and the words taken cover what the piece does. */
  lemma WordsOnlyAdd(env: Env, w: World, turn: int, text: string, line: string)
    requires SpacesSeparate(env.classes) && IsSeparator(env.classes, ' ')
    ensures var words, words' := Words(w.line, turn), Words(OnBotSaid(env, w, turn, text).line, turn);
            && Coverage(env.classes, line, words) <= Coverage(env.classes, line, words')
            && (Says(env.classes, line, words) ==> Says(env.classes, line, words'))
            && (OnBotSaid(env, w, turn, text) != w ==>
                  Coverage(env.classes, line, text) <= Coverage(env.classes, line, words'))
  {
    TrimmedWordsCoverMore(env.classes, line, Words(w.line, turn), text);
  }
}
