/** What holds in every run of the goodbye watches: what the call was left on. */
module FarewellRuns {
  import opened Util
  import opened FarewellSteps
  import opened FarewellHistory

  //
  // What claimWatch knows is what happened.
  //

  ghost predicate PendingInv(events: seq<Event>, pending: map<nat, string>, lastDoneTurn: nat) {
    forall turn :: turn in pending ==>
      (turn > lastDoneTurn || lastDoneTurn == 0) && IsTail(pending[turn], Pieces(events, turn))
  }

  /** The latest turn done. */
  ghost predicate DoneInv(done: Done, c: Claims) {
    && (done.NoneDone? ==> c.lastDoneTurn == 0 && !c.isFarewellUnhung && !c.isToolReplyNext)
    && (done.Done? ==>
          && c.lastDoneTurn == done.turn && c.isLastDoneBacked == IsBacked(done) && c.isToolReplyNext == done.isToolCall
          && (done.isInterrupted || done.isCutSince ==> c.isLastDoneCut)
          && (c.isFarewellUnhung ==> !done.isInterrupted && !IsBacked(done) && !done.isToolSince))
  }

  /** Its words. */
  ghost predicate WordsInv(d: Detector, pieces: seq<string>, c: Claims) {
    && (c.lastDoneTurn != 0 && !c.isLastDoneBacked ==> EndsTheTurn(d, c.lastDoneText, pieces))
    && (c.isFarewellUnhung ==> SaysGoodbye(d, pieces) && DoesNotAsk(d, pieces))
  }

  ghost predicate PlayedInv(events: seq<Event>, c: Claims) {
    c.playedInFullTurn != 0 ==> Played(events, c.playedInFullTurn)
  }

  ghost predicate ClaimsInv(d: Detector, events: seq<Event>, c: Claims) {
    && DoneInv(LatestDone(events), c)
    && WordsInv(d, Pieces(events, c.lastDoneTurn), c)
    && PlayedInv(events, c)
    && PendingInv(events, c.pending, c.lastDoneTurn)
  }

  /** So the goodbye it reports played in full was heard. */
  lemma PlayedInFullIsHeard(d: Detector, events: seq<Event>, c: Claims)
    requires ClaimsInv(d, events, c) && FarewellPlayedInFull(c) != 0
    ensures GoodbyeHeard(d, events, FarewellPlayedInFull(c))
  {
  }

  lemma PlayedInvStill(before: seq<Event>, event: Event, c: Claims)
    requires PlayedInv(before, c)
    ensures PlayedInv(before + [event], c)
  {
    if c.playedInFullTurn != 0 {
      PlayedStill(before, event, c.playedInFullTurn);
    }
  }

  /** Events that say nothing and finish no turn; taking a goodbye back is always right. */
  lemma QuietKeepsClaims(d: Detector, before: seq<Event>, event: Event, c: Claims, c': Claims)
    requires ClaimsInv(d, before, c) && !IsHeard(event) && !event.TurnDone?
    requires c' == c || c' == c.(isFarewellUnhung := false) || c' == ClaimsInterrupted(c)
    requires event.ToolCall? ==> !c'.isFarewellUnhung
    requires event.BargeIn? ==> c' == ClaimsBargeIn(c, event.turn) && event.turn != 0
    ensures ClaimsInv(d, before + [event], c')
  {
    assert Init(before + [event]) == before;
    PiecesGrow(before, event);
    PlayedInvStill(before, event, c);
  }

  /** A cut of no turn cuts none. */
  lemma NoTurnIsCut(d: Detector, before: seq<Event>, c: Claims)
    requires ClaimsInv(d, before, c) && Ordered(before)
    ensures ClaimsInv(d, before + [BargeIn(0)], c)
  {
    NumbersSinceDone(before);
    assert Init(before + [BargeIn(0)]) == before;
    PiecesGrow(before, BargeIn(0));
    PlayedInvStill(before, BargeIn(0), c);
  }

  /** A line for the turn that just finished is judged at once. */
  lemma LateLineKeepsClaims(d: Detector, before: seq<Event>, event: Event, c: Claims)
    requires ClaimsInv(d, before, c) && IsHeard(event) && Ordered(before + [event])
    requires c.lastDoneTurn != 0 && event.turn <= c.lastDoneTurn
    ensures ClaimsInv(d, before + [event], ClaimsBotSaid(d, c, event.turn, event.text).0)
  {
    var pieces, done := Pieces(before, event.turn), LatestDone(before);
    OrderedInit(before, event);
    NumbersSinceDone(before);
    assert event.turn == c.lastDoneTurn && (done.isToolSince ==> done.isInterrupted);
    assert Init(before + [event]) == before;
    PiecesGrow(before, event);
    PlayedInvStill(before, event, c);
    if !c.isLastDoneBacked {
      EndGrows(d, c.lastDoneText, pieces, event.text);
      LateWords(d, pieces, event.text, c);
    }
  }

  lemma LateWords(d: Detector, pieces: seq<string>, text: string, c: Claims)
    requires WordsInv(d, pieces, c) && c.lastDoneTurn != 0 && !c.isLastDoneBacked && text != ""
    ensures WordsInv(d, pieces + [text], ClaimsBotSaid(d, c, c.lastDoneTurn, text).0)
  {
    EndGrows(d, c.lastDoneText, pieces, text);
    if c.isFarewellUnhung {
      SaysGoodbyeStill(d, pieces, [text]);
    }
    if d.hasFarewell(text) {
      LastPieceSaysGoodbye(d, pieces, text);
    }
  }

  /** A line for a turn to come is kept. */
  lemma PendingLineKeepsClaims(d: Detector, before: seq<Event>, event: Event, c: Claims)
    requires ClaimsInv(d, before, c) && IsHeard(event) && Ordered(before)
    requires c.lastDoneTurn == 0 || event.turn > c.lastDoneTurn
    ensures ClaimsInv(d, before + [event], ClaimsBotSaid(d, c, event.turn, event.text).0)
  {
    var c' := ClaimsBotSaid(d, c, event.turn, event.text).0;
    NumbersSinceDone(before);
    assert c.lastDoneTurn == 0 ==> !c.isFarewellUnhung;
    assert PendingInv(before + [event], c'.pending, c.lastDoneTurn) by {
      PendingGrows(before, event, c.pending, c.lastDoneTurn, c'.pending);
    }
    assert Init(before + [event]) == before;
    PiecesGrow(before, event);
    PlayedInvStill(before, event, c);
  }

  lemma PendingGrows(before: seq<Event>, event: Event, pending: map<nat, string>, lastDoneTurn: nat,
                     pending': map<nat, string>)
    requires PendingInv(before, pending, lastDoneTurn) && IsHeard(event)
    requires lastDoneTurn == 0 || event.turn > lastDoneTurn
    requires pending' == pending[event.turn :=
               if event.turn in pending && pending[event.turn] != "" then pending[event.turn] + " " + event.text
               else event.text]
    ensures PendingInv(before + [event], pending', lastDoneTurn)
  {
    PiecesGrow(before, event);
    var pieces := Pieces(before, event.turn);
    TailBegins(pieces, event.text);
    if event.turn in pending {
      TailGrows(pending[event.turn], pieces, event.text);
    }
  }

  /** The turn's words judged as it finishes. */
  lemma TurnDoneKeepsClaims(d: Detector, before: seq<Event>, event: Event, c: Claims, isToolCall: bool)
    requires ClaimsInv(d, before, c) && event.TurnDone? && isToolCall == (LatestTool(before) == Some(event.turn))
    ensures var done := ClaimsTurnDone(d, c, event.turn, isToolCall, event.isArmed);
            ClaimsInv(d, before + [event], if event.isInterrupted then ClaimsInterrupted(done) else done)
  {
    assert Init(before + [event]) == before;
    PiecesGrow(before, event);
    PlayedInvStill(before, event, c);
    NothingEndsTheTurn(d, Pieces(before, event.turn));
    if event.turn in c.pending {
      TailIsWhatWasSaid(d, c.pending[event.turn], Pieces(before, event.turn));
    }
  }

  /** Audio played to its end. */
  lemma PlaybackKeepsClaims(d: Detector, before: seq<Event>, event: Event, c: Claims)
    requires ClaimsInv(d, before, c) && event.PlaybackDone?
    ensures ClaimsInv(d, before + [event], if event.hasAudio then ClaimsAudioPlayed(c, event.turn) else c)
  {
    QuietKeepsClaims(d, before, event, c, c);
    assert event.hasAudio ==> IsPlayback((before + [event])[|before|], event.turn);
  }

  //
  // The streak and the grace.
  //

  /** A step up to its check. */
  function Unchecked(d: Detector, call: Call, event: Event): Call {
    match event
    case BotSaid(turn, text, isMuted, _, _) =>
      if isMuted then call
      else
        var (claims, isFarewell) := ClaimsBotSaid(d, call.claims, turn, text);
        call.(claims := claims, watch := WatchBotSaid(call.watch, turn, isFarewell))
    case PlaybackDone(turn, hasAudio, _, _) =>
      if hasAudio then
        call.(claims := ClaimsAudioPlayed(call.claims, turn), watch := call.watch.(isCallerHeard := false))
      else call
    case GraceDue(_) => call
    case _ => Step(d, call, event)
  }

  /** The events from k on: no tool call, and every turn that finished whole said goodbye,
      or is the one still undecided. */
  ghost predicate OnlyGoodbyes(d: Detector, events: seq<Event>, k: nat, undecided: nat) {
    forall m :: k <= m < |events| ==>
      && !events[m].ToolCall?
      && (events[m].TurnDone? && !events[m].isInterrupted ==>
            SaysGoodbye(d, Pieces(events, events[m].turn)) || (undecided != 0 && events[m].turn == undecided))
  }

  /** The caller, the model and the tools were quiet from k on. */
  ghost predicate Quiet(events: seq<Event>, k: nat) {
    forall m :: k <= m < |events| ==>
      !events[m].CallerSpoke? && !events[m].BargeIn? && !events[m].ToolCall? && !events[m].TurnDone?
  }

  ghost predicate Counted(d: Detector, events: seq<Event>, k: nat, turn: nat) {
    k <= |events| && GoodbyeHeard(d, events[..k], turn)
  }

  ghost predicate WatchInv(d: Detector, events: seq<Event>, call: Call) {
    && (call.watch.undecided != 0 ==> call.watch.undecided == call.claims.lastDoneTurn)
    && StreakInv(d, events, call.watch)
    && GraceInv(d, events, call.watch)
  }

  lemma CountedStill(d: Detector, before: seq<Event>, event: Event, k: nat, turn: nat)
    requires Counted(d, before, k, turn)
    ensures Counted(d, before + [event], k, turn)
  {
    assert (before + [event])[..k] == before[..k];
  }

  lemma QuietStill(before: seq<Event>, event: Event, k: nat)
    requires Quiet(before, k) && k <= |before|
    requires !event.CallerSpoke? && !event.BargeIn? && !event.ToolCall? && !event.TurnDone?
    ensures Quiet(before + [event], k)
  {
  }

  /** One more event keeps the stretch of goodbyes, if it is none of what ends it. */
  lemma OnlyGoodbyesStill(d: Detector, before: seq<Event>, event: Event, k: nat, undecided: nat, undecided': nat)
    requires OnlyGoodbyes(d, before, k, undecided) && k <= |before| && !event.ToolCall?
    requires undecided == undecided' || undecided == 0 || SaysGoodbye(d, Pieces(before + [event], undecided))
    requires event.TurnDone? && !event.isInterrupted ==>
               SaysGoodbye(d, Pieces(before + [event], event.turn)) || (undecided' != 0 && event.turn == undecided')
    ensures OnlyGoodbyes(d, before + [event], k, undecided')
  {
    var events := before + [event];
    forall m | k <= m < |events| && events[m].TurnDone? && !events[m].isInterrupted
      ensures SaysGoodbye(d, Pieces(events, events[m].turn)) || (undecided' != 0 && events[m].turn == undecided')
    {
      if m < |before| && SaysGoodbye(d, Pieces(before, before[m].turn)) {
        GoodbyesStay(d, before, event, before[m].turn);
      }
    }
  }

  lemma BotSaidKeepsClaims(d: Detector, before: seq<Event>, event: Event, c: Claims)
    requires ClaimsInv(d, before, c) && Ordered(before + [event]) && event.BotSaid?
    ensures ClaimsInv(d, before + [event],
                      if event.isMuted then c else ClaimsBotSaid(d, c, event.turn, event.text).0)
  {
    OrderedInit(before, event);
    if !IsHeard(event) {
      QuietKeepsClaims(d, before, event, c, c);
    } else if c.lastDoneTurn != 0 && event.turn <= c.lastDoneTurn {
      LateLineKeepsClaims(d, before, event, c);
    } else {
      PendingLineKeepsClaims(d, before, event, c);
    }
  }

  lemma BargeInKeepsClaims(d: Detector, before: seq<Event>, turn: nat, c: Claims)
    requires ClaimsInv(d, before, c) && Ordered(before)
    ensures ClaimsInv(d, before + [BargeIn(turn)], ClaimsBargeIn(c, turn))
  {
    if turn == 0 {
      NoTurnIsCut(d, before, c);
    } else {
      QuietKeepsClaims(d, before, BargeIn(turn), c, ClaimsBargeIn(c, turn));
    }
  }

  lemma UncheckedKeepsClaims(d: Detector, before: seq<Event>, call: Call, event: Event)
    requires ClaimsInv(d, before, call.claims) && call.toolCallTurn == LatestTool(before) && call.ended.None?
    requires Ordered(before + [event])
    ensures ClaimsInv(d, before + [event], Unchecked(d, call, event).claims)
  {
    OrderedInit(before, event);
    match event {
      case BotSaid(_, _, _, _, _) => BotSaidKeepsClaims(d, before, event, call.claims);
      case TurnDone(turn, _, _) =>
        TurnDoneKeepsClaims(d, before, event, call.claims, call.toolCallTurn == Some(turn));
      case BargeIn(turn) => BargeInKeepsClaims(d, before, turn, call.claims);
      case PlaybackDone(_, _, _, _) => PlaybackKeepsClaims(d, before, event, call.claims);
      case _ => QuietKeepsClaims(d, before, event, call.claims, Unchecked(d, call, event).claims);
    }
  }

  lemma UncheckedKeepsTool(d: Detector, before: seq<Event>, call: Call, event: Event)
    requires call.toolCallTurn == LatestTool(before) && call.ended.None?
    ensures Unchecked(d, call, event).toolCallTurn == LatestTool(before + [event])
  {
    assert Init(before + [event]) == before;
  }

  /** A late transcript settles the undecided turn only with words that are a goodbye. */
  lemma SettlingSaysGoodbye(d: Detector, before: seq<Event>, call: Call, event: Event)
    requires call.ended.None? && call.watch.undecided != 0
    requires event.BotSaid? && Unchecked(d, call, event).watch.undecided == 0
    ensures SaysGoodbye(d, Pieces(before + [event], call.watch.undecided))
  {
    PiecesGrow(before, event);
    LastPieceSaysGoodbye(d, Pieces(before, event.turn), event.text);
  }

  /** Some count started the streak, and only goodbyes came since. */
  ghost predicate StreakInv(d: Detector, events: seq<Event>, w: Watch) {
    w.streak > 0 ==> exists k: nat :: Counted(d, events, k, w.countedTurn) && OnlyGoodbyes(d, events, k, w.undecided)
  }

  ghost predicate GraceInv(d: Detector, events: seq<Event>, w: Watch) {
    w.isGraceRunning ==> exists k: nat :: Counted(d, events, k, w.graceTurn) && Quiet(events, k)
  }

  lemma UncheckedKeepsStreak(d: Detector, before: seq<Event>, call: Call, event: Event)
    requires ClaimsInv(d, before, call.claims) && call.toolCallTurn == LatestTool(before)
    requires StreakInv(d, before, call.watch) && call.ended.None? && Ordered(before + [event])
    ensures StreakInv(d, before + [event], Unchecked(d, call, event).watch)
  {
    var w, w' := call.watch, Unchecked(d, call, event).watch;
    OrderedInit(before, event);
    if w'.streak > 0 {
      var k: nat :| Counted(d, before, k, w.countedTurn) && OnlyGoodbyes(d, before, k, w.undecided);
      CountedStill(d, before, event, k, w.countedTurn);
      UncheckedKeepsClaims(d, before, call, event);
      if event.BotSaid? && w.undecided != w'.undecided {
        SettlingSaysGoodbye(d, before, call, event);
      }
      OnlyGoodbyesStill(d, before, event, k, w.undecided, w'.undecided);
    }
  }

  lemma UncheckedKeepsGrace(d: Detector, before: seq<Event>, call: Call, event: Event)
    requires GraceInv(d, before, call.watch) && call.ended.None?
    ensures GraceInv(d, before + [event], Unchecked(d, call, event).watch)
  {
    if Unchecked(d, call, event).watch.isGraceRunning {
      var k: nat :| Counted(d, before, k, call.watch.graceTurn) && Quiet(before, k);
      CountedStill(d, before, event, k, call.watch.graceTurn);
      QuietStill(before, event, k);
    }
  }

  lemma UncheckedKeepsUndecided(d: Detector, call: Call, event: Event)
    requires call.ended.None? && (call.watch.undecided != 0 ==> call.watch.undecided == call.claims.lastDoneTurn)
    ensures var call' := Unchecked(d, call, event);
            call'.watch.undecided != 0 ==> call'.watch.undecided == call'.claims.lastDoneTurn
  {
  }

  lemma UncheckedKeepsWatch(d: Detector, before: seq<Event>, call: Call, event: Event)
    requires ClaimsInv(d, before, call.claims) && call.toolCallTurn == LatestTool(before)
    requires WatchInv(d, before, call) && call.ended.None? && Ordered(before + [event])
    ensures WatchInv(d, before + [event], Unchecked(d, call, event))
  {
    UncheckedKeepsStreak(d, before, call, event);
    UncheckedKeepsGrace(d, before, call, event);
    UncheckedKeepsUndecided(d, call, event);
  }

  lemma CheckKeepsWatch(d: Detector, events: seq<Event>, call: Call, isHeld: bool, isOwed: bool)
    requires ClaimsInv(d, events, call.claims) && WatchInv(d, events, call)
    ensures WatchInv(d, events, Checked(call, isHeld, isOwed))
  {
    var turn := FarewellPlayedInFull(call.claims);
    if turn != 0 && turn != call.watch.countedTurn {
      PlayedInFullIsHeard(d, events, call.claims);
      assert events[..|events|] == events;
      assert Counted(d, events, |events|, turn) && Quiet(events, |events|);
      assert OnlyGoodbyes(d, events, |events|, call.watch.undecided);
    }
  }

  ghost predicate Inv(d: Detector, events: seq<Event>, call: Call) {
    call.ended.None? ==>
      ClaimsInv(d, events, call.claims) && call.toolCallTurn == LatestTool(events) && WatchInv(d, events, call)
  }

  lemma StepKeepsInv(d: Detector, before: seq<Event>, call: Call, event: Event)
    requires Inv(d, before, call) && Ordered(before + [event])
    ensures Inv(d, before + [event], Step(d, call, event))
  {
    if call.ended.None? {
      var unchecked := Unchecked(d, call, event);
      UncheckedKeepsClaims(d, before, call, event);
      UncheckedKeepsTool(d, before, call, event);
      UncheckedKeepsWatch(d, before, call, event);
      match event {
        case BotSaid(_, _, _, isHeld, isOwed) => CheckKeepsWatch(d, before + [event], unchecked, isHeld, isOwed);
        case PlaybackDone(_, _, isHeld, isOwed) => CheckKeepsWatch(d, before + [event], unchecked, isHeld, isOwed);
        case _ =>
      }
    }
  }

  lemma {:induction false} RunKeepsInv(d: Detector, events: seq<Event>)
    requires Ordered(events)
    ensures Inv(d, events, Run(d, events))
    decreases |events|
  {
    if events != [] {
      RunKeepsInv(d, Init(events));
      StepKeepsInv(d, Init(events), Run(d, Init(events)), Last(events));
      assert Init(events) + [Last(events)] == events;
    }
  }

  //
  // The theorems, over the runs whose turn numbers are the session's.
  //

  /** Two goodbyes heard one after the other, in two turns: the first turn ended at j and
      was counted when k events had come; the second is counted now. No tool was called
      since the first turn's end, and every turn that finished whole after the first count
      said goodbye. */
  ghost predicate TwoGoodbyesHeard(d: Detector, events: seq<Event>, j: nat, k: nat, first: nat, second: nat) {
    && first != second && j < k && Counted(d, events, k, first) && GoodbyeHeard(d, events, second)
    && events[j] == TurnDone(first, false, false)
    && (forall m :: j <= m < |events| ==> !events[m].ToolCall?)
    && OnlyGoodbyes(d, events, k, 0)
  }

  /** The two-goodbye hangup comes only after two turns each finished with an unhung goodbye
      and were heard to the end uncut, with no tool call since the first one's end and
      nothing but goodbyes between. */
  lemma TwoGoodbyesEndTheCall(d: Detector, before: seq<Event>, event: Event)
    requires Ordered(before + [event]) && Run(d, before).ended.None?
    ensures Step(d, Run(d, before), event).ended == Some(TwoGoodbyes) ==>
              exists j: nat, k: nat, first: nat, second: nat ::
                TwoGoodbyesHeard(d, before + [event], j, k, first, second)
  {
    if Step(d, Run(d, before), event).ended == Some(TwoGoodbyes) {
      OrderedInit(before, event);
      RunKeepsInv(d, before);
      UncheckedKeepsBoth(d, before, Run(d, before), event);
      EndsAtItsCheck(d, Run(d, before), event);
      SecondGoodbye(d, before + [event], Unchecked(d, Run(d, before), event));
    }
  }

  lemma UncheckedKeepsBoth(d: Detector, before: seq<Event>, call: Call, event: Event)
    requires Inv(d, before, call) && call.ended.None? && Ordered(before + [event])
    ensures ClaimsInv(d, before + [event], Unchecked(d, call, event).claims)
    ensures WatchInv(d, before + [event], Unchecked(d, call, event))
  {
    UncheckedKeepsClaims(d, before, call, event);
    UncheckedKeepsWatch(d, before, call, event);
  }

  /** The call ends on two goodbyes only where a goodbye is counted on top of another. */
  lemma EndsAtItsCheck(d: Detector, call: Call, event: Event)
    requires call.ended.None? && Step(d, call, event).ended == Some(TwoGoodbyes)
    ensures var unchecked := Unchecked(d, call, event);
            && unchecked.watch.streak > 0
            && FarewellPlayedInFull(unchecked.claims) != 0
            && FarewellPlayedInFull(unchecked.claims) != unchecked.watch.countedTurn
  {
  }

  lemma SecondGoodbye(d: Detector, events: seq<Event>, call: Call)
    requires ClaimsInv(d, events, call.claims) && WatchInv(d, events, call) && call.watch.streak > 0
    requires FarewellPlayedInFull(call.claims) != 0 && FarewellPlayedInFull(call.claims) != call.watch.countedTurn
    ensures exists j: nat, k: nat, first: nat, second: nat :: TwoGoodbyesHeard(d, events, j, k, first, second)
  {
    var first, second := call.watch.countedTurn, FarewellPlayedInFull(call.claims);
    PlayedInFullIsHeard(d, events, call.claims);
    var k: nat :| Counted(d, events, k, first) && OnlyGoodbyes(d, events, k, call.watch.undecided);
    var j := LatestDone(events[..k]).at;
    DoneIsAnEvent(events[..k]);
    assert forall m :: j <= m < k ==> events[m] == events[..k][m];
    assert TwoGoodbyesHeard(d, events, j, k, first, second);
  }

  /** The grace ends the call only if, since the goodbye it was started for was heard, the
      caller, the model and the tools stayed quiet; and an unhung goodbye still stands. */
  lemma GraceEndsAQuietCall(d: Detector, before: seq<Event>, isHeld: bool)
    requires Ordered(before) && Run(d, before).ended.None?
    ensures Step(d, Run(d, before), GraceDue(isHeld)).ended == Some(Grace) ==>
              && !isHeld
              && exists k: nat, turn: nat ::
                   Counted(d, before, k, turn) && Quiet(before, k) && GoodbyeHeard(d, before, turn)
  {
    RunKeepsInv(d, before);
    var call := Run(d, before);
    if call.watch.isGraceRunning && FarewellPlayedInFull(call.claims) == call.watch.graceTurn {
      PlayedInFullIsHeard(d, before, call.claims);
    }
  }

  //
  // A tool call takes the goodbye back.
  //

  /** Nothing is unhung, counted or on grace. */
  predicate TakenBack(call: Call) {
    !call.claims.isFarewellUnhung && call.watch.streak == 0 && !call.watch.isGraceRunning && call.ended.None?
  }

  /** No goodbye can stand: the latest turn done is not the one lines are heard of. */
  predicate IsToolSince(events: seq<Event>) { LatestDone(events).Done? ==> LatestDone(events).isToolSince }

  lemma ToolCallKeepsItBack(d: Detector, events: seq<Event>)
    requires events != [] && Ordered(events) && !Last(events).TurnDone?
    requires TakenBack(Run(d, Init(events))) && IsToolSince(Init(events))
    ensures TakenBack(Run(d, events)) && IsToolSince(events)
  {
    NumbersSinceDone(Init(events));
    RunKeepsInv(d, Init(events));
  }

  /** After a tool call, the k-th event, no goodbye stands until a turn finishes, whatever
      lines are heard: they are of the turn in progress. */
  lemma {:induction false} ToolCallTakesTheGoodbyeBack(d: Detector, events: seq<Event>, k: nat)
    requires Ordered(events) && k < |events| && events[k].ToolCall? && Run(d, events[..k]).ended.None?
    requires forall i :: k < i < |events| ==> !events[i].TurnDone?
    ensures TakenBack(Run(d, events)) && IsToolSince(events)
    decreases |events|
  {
    if k < |events| - 1 {
      assert Init(events)[..k] == events[..k];
      ToolCallTakesTheGoodbyeBack(d, Init(events), k);
      ToolCallKeepsItBack(d, events);
    }
  }

  //
  // Each goodbye counts once, whichever comes first.
  //

  /** Whichever of a goodbye's transcript and its playback comes first, it is counted the
      same. */
  lemma OrderDoesNotMatter(d: Detector, call: Call, turn: nat, text: string, isHeld: bool, isOwed: bool)
    requires call.ended.None? && turn != 0 && text != "" && call.claims.lastDoneTurn == turn
    requires !call.claims.isFarewellUnhung && call.claims.playedInFullTurn < turn && call.watch.countedTurn < turn
    ensures var said, played := BotSaid(turn, text, false, isHeld, isOwed), PlaybackDone(turn, true, isHeld, isOwed);
            Step(d, Step(d, call, said), played) == Step(d, Step(d, call, played), said)
  {
  }

  ghost predicate TurnsAreInOrder(events: seq<Event>) {
    forall i, j ::
      0 <= i < j < |events| && events[i].TurnDone? && events[j].TurnDone? ==> events[i].turn <= events[j].turn
  }

  /** Each goodbye is counted once: the streak grows only by a turn later than every turn
      counted before. */
  lemma EachGoodbyeCountsOnce(d: Detector, before: seq<Event>, event: Event)
    requires TurnsAreInOrder(before + [event])
    ensures var call, call' := Run(d, before), Step(d, Run(d, before), event);
            && call.watch.countedTurn <= call'.watch.countedTurn
            && (call'.watch.streak > call.watch.streak ==>
                  call'.watch.streak == call.watch.streak + 1 && call'.watch.countedTurn > call.watch.countedTurn)
  {
    assert TurnsAreInOrder(before) by {
      assert forall i :: 0 <= i < |before| ==> before[i] == (before + [event])[i];
    }
    CountedIsDone(d, before);
    LastDoneWasDone(d, before, event);
    StepCounts(d, Run(d, before), event);
  }

  lemma StepCounts(d: Detector, call: Call, event: Event)
    requires call.watch.countedTurn <= call.claims.lastDoneTurn
    requires event.TurnDone? ==> call.claims.lastDoneTurn <= event.turn
    ensures var call' := Step(d, call, event);
            && call'.watch.countedTurn <= call'.claims.lastDoneTurn
            && call.watch.countedTurn <= call'.watch.countedTurn
            && (call'.watch.streak > call.watch.streak ==>
                  call'.watch.streak == call.watch.streak + 1 && call'.watch.countedTurn > call.watch.countedTurn)
  {
    if call.ended.None? {
      UncheckedCounts(d, call, event);
      match event {
        case BotSaid(_, _, isMuted, isHeld, isOwed) => CheckCounts(Unchecked(d, call, event), isHeld, isOwed);
        case PlaybackDone(_, _, isHeld, isOwed) => CheckCounts(Unchecked(d, call, event), isHeld, isOwed);
        case _ =>
      }
    }
  }

  lemma UncheckedCounts(d: Detector, call: Call, event: Event)
    requires call.ended.None? && (event.TurnDone? ==> call.claims.lastDoneTurn <= event.turn)
    ensures var call' := Unchecked(d, call, event);
            && call'.watch.streak <= call.watch.streak && call'.watch.countedTurn == call.watch.countedTurn
            && call.claims.lastDoneTurn <= call'.claims.lastDoneTurn
  {
  }

  lemma CheckCounts(call: Call, isHeld: bool, isOwed: bool)
    requires call.watch.countedTurn <= call.claims.lastDoneTurn
    ensures var call' := Checked(call, isHeld, isOwed);
            && call'.claims == call.claims
            && call.watch.countedTurn <= call'.watch.countedTurn <= call'.claims.lastDoneTurn
            && (if call'.watch.countedTurn > call.watch.countedTurn then call'.watch.streak == call.watch.streak + 1
                else call'.watch == call.watch)
  {
  }

  lemma {:induction false} CountedIsDone(d: Detector, events: seq<Event>)
    requires TurnsAreInOrder(events)
    ensures Run(d, events).watch.countedTurn <= Run(d, events).claims.lastDoneTurn
    decreases |events|
  {
    if events != [] {
      assert events == Init(events) + [Last(events)];
      CountedIsDone(d, Init(events));
      LastDoneWasDone(d, Init(events), Last(events));
      StepCounts(d, Run(d, Init(events)), Last(events));
    }
  }

  lemma InOrderWithout(init: seq<Event>, last: Event, event: Event)
    requires TurnsAreInOrder(init + [last] + [event])
    ensures TurnsAreInOrder(init + [event])
  {
    var all, fewer := init + [last] + [event], init + [event];
    assert forall i :: 0 <= i < |fewer| ==> fewer[i] == all[if i < |init| then i else i + 1];
  }

  /** The turn last done, until the call ends, is the one of the latest TURN_DONE. */
  lemma {:induction false} LastDoneWasDone(d: Detector, before: seq<Event>, event: Event)
    requires TurnsAreInOrder(before + [event])
    ensures event.TurnDone? ==> Run(d, before).claims.lastDoneTurn <= event.turn
    decreases |before|
  {
    if before != [] && event.TurnDone? {
      var events, init, last := before + [event], Init(before), Last(before);
      assert events == init + [last] + [event];
      InOrderWithout(init, last, event);
      LastDoneWasDone(d, init, event);
      assert events[|init|] == last && events[|before|] == event;
      OnlyTurnsEnd(d, Run(d, init), last);
    }
  }

  lemma OnlyTurnsEnd(d: Detector, call: Call, event: Event)
    ensures Step(d, call, event).claims.lastDoneTurn == call.claims.lastDoneTurn
            || (event.TurnDone? && Step(d, call, event).claims.lastDoneTurn == event.turn)
  {
  }
}
