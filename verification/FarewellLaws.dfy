/** Exactly when goodbyes are counted and the call is left on them, told from the events. */
module FarewellLaws {
  import opened Util
  import opened FarewellSteps
  import opened FarewellHistory
  import opened FarewellRuns

  //
  // The goodbye that stands.
  //

  predicate IsCut(done: Done) { done.Done? && (done.isInterrupted || done.isCutSince) }

  /** What was heard of a turn before it ended; nothing if the latest turn done already bore
      its number. */
  function EarlyText(before: seq<Event>, turn: nat): string {
    if LatestDone(before).Done? && LatestDone(before).turn == turn then "" else Join(Pieces(before, turn))
  }

  /** A line heard late: of the latest turn done, backed by nothing. */
  predicate IsLate(before: seq<Event>, event: Event) {
    IsHeard(event) && LatestDone(before).Done? && event.turn == LatestDone(before).turn && !IsBacked(LatestDone(before))
  }

  /** All that was heard of the latest turn done, if nothing backed it. */
  function Text(d: Detector, events: seq<Event>): string
    decreases |events|
  {
    if events == [] then ""
    else
      var before, event := Init(events), Last(events);
      if event.TurnDone? then (if IsBacked(LatestDone(events)) then "" else EarlyText(before, event.turn))
      else if IsLate(before, event) then d.trim(Text(d, before) + " " + event.text)
      else Text(d, before)
  }

  /** A late line that is a goodbye, the turn not ending on a question. */
  predicate IsLateGoodbye(d: Detector, before: seq<Event>, event: Event) {
    IsLate(before, event) && d.hasFarewell(event.text) && !d.endsInQuestion(Text(d, before + [event]))
  }

  /** The latest turn done said goodbye with nothing behind it, did not end on a question, was
      not cut, and no tool was called nor dead air reported since. */
  predicate Stands(d: Detector, events: seq<Event>)
    decreases |events|
  {
    events != [] &&
    (var before, event := Init(events), Last(events);
     match event
     case TurnDone(turn, isInterrupted, _) =>
       var text := EarlyText(before, turn);
       !isInterrupted && !IsBacked(LatestDone(events)) && text != "" && d.hasFarewell(text) && !d.endsInQuestion(text)
     case BotSaid(_, text, _, _, _) =>
       if !IsLate(before, event) then Stands(d, before)
       else
         !d.endsInQuestion(Text(d, events))
         && (Stands(d, before) || (d.hasFarewell(text) && !IsCut(LatestDone(before))))
     case ToolCall(_) => false
     case NoInput => false
     case BargeIn(turn) => Stands(d, before) && !(LatestDone(before).Done? && turn == LatestDone(before).turn)
     case _ => Stands(d, before))
  }

  /** The latest turn whose audio was heard to its end. */
  function LatestPlayed(events: seq<Event>): nat
    decreases |events|
  {
    if events == [] then 0
    else
      var before := LatestPlayed(Init(events));
      match Last(events)
      case PlaybackDone(turn, hasAudio, _, _) => if hasAudio then Max(turn, before) else before
      case _ => before
  }

  /** The turn of the goodbye that stands and was heard to its end; 0 for none. */
  function Heard(d: Detector, events: seq<Event>): nat {
    if Stands(d, events) && LatestDone(events).Done? && LatestPlayed(events) == LatestDone(events).turn
    then LatestPlayed(events) else 0
  }

  //
  // The goodbyes in a row.
  //

  /** The latest turn that finished whole and is not known to be a goodbye. */
  function Undecided(d: Detector, events: seq<Event>): nat
    decreases |events|
  {
    if events == [] then 0
    else
      var before, event := Init(events), Last(events);
      match event
      case TurnDone(turn, isInterrupted, _) => if isInterrupted || Stands(d, events) then 0 else turn
      case BotSaid(turn, _, _, _, _) => if IsLateGoodbye(d, before, event) then 0 else Undecided(d, before)
      case ToolCall(_) => 0
      case _ => Undecided(d, before)
  }

  /** Lines heard and playbacks are looked at for a goodbye. */
  predicate IsLook(event: Event) { (event.BotSaid? && !event.isMuted) || event.PlaybackDone? }

  /** How many goodbyes came in a row, and the turn of the last one counted. */
  datatype Row = Row(length: nat, turn: nat)

  /** A goodbye newly heard is one more. A tool call ends the row, and so does the next turn
      done after one that was none. */
  function InARow(d: Detector, events: seq<Event>): Row
    decreases |events|
  {
    if events == [] then Row(0, 0)
    else
      var row, event := InARow(d, Init(events)), Last(events);
      if event.ToolCall? || (event.TurnDone? && Undecided(d, Init(events)) != 0) then Row(0, row.turn)
      else if IsLook(event) && Heard(d, events) != 0 && Heard(d, events) != row.turn then
        Row(row.length + 1, Heard(d, events))
      else row
  }

  /** The event is the one at which a goodbye is counted. */
  predicate Counts(d: Detector, before: seq<Event>, event: Event) {
    IsLook(event) && InARow(d, before + [event]).turn != InARow(d, before).turn
  }

  /** The caller spoke since the last playback or turn's end. */
  predicate IsCallerHeard(events: seq<Event>)
    decreases |events|
  {
    events != [] &&
    match Last(events)
    case CallerSpoke => true
    case TurnDone(_, _, _) => false
    case PlaybackDone(_, hasAudio, _, _) => !hasAudio && IsCallerHeard(Init(events))
    case _ => IsCallerHeard(Init(events))
  }

  //
  // What the watches know is exactly that.
  //

  function Lookup(pending: map<nat, string>, turn: nat): string { if turn in pending then pending[turn] else "" }

  ghost predicate PendingIsExact(events: seq<Event>, c: Claims) {
    && (forall turn: nat :: turn > c.lastDoneTurn ==> Lookup(c.pending, turn) == Join(Pieces(events, turn)))
    && (forall turn :: turn in c.pending ==> turn > c.lastDoneTurn || c.lastDoneTurn == 0)
  }

  ghost predicate ExactClaims(d: Detector, events: seq<Event>, call: Call) {
    var c, done := call.claims, LatestDone(events);
    && call.toolCallTurn == LatestTool(events)
    && (done.NoneDone? ==> c.lastDoneTurn == 0 && !c.isToolReplyNext)
    && (done.Done? ==>
          && c.lastDoneTurn == done.turn != 0 && c.isLastDoneBacked == IsBacked(done)
          && c.isToolReplyNext == done.isToolCall && c.isLastDoneCut == IsCut(done)
          && (!IsBacked(done) ==> c.lastDoneText == Text(d, events)))
    && c.isFarewellUnhung == Stands(d, events)
    && c.playedInFullTurn == LatestPlayed(events)
    && PendingIsExact(events, c)
  }

  lemma {:induction false} PiecesJoinToWords(events: seq<Event>, turn: nat)
    ensures Pieces(events, turn) != [] ==> Join(Pieces(events, turn)) != ""
    ensures forall i :: 0 <= i < |Pieces(events, turn)| ==> Pieces(events, turn)[i] != ""
    decreases |events|
  {
    if events != [] {
      PiecesJoinToWords(Init(events), turn);
    }
  }

  lemma HeardKeepsPending(d: Detector, before: seq<Event>, event: Event, c: Claims)
    requires PendingIsExact(before, c) && IsHeard(event)
    ensures PendingIsExact(before + [event], ClaimsBotSaid(d, c, event.turn, event.text).0)
  {
    var c' := ClaimsBotSaid(d, c, event.turn, event.text).0;
    forall turn: nat | turn > c'.lastDoneTurn
      ensures Lookup(c'.pending, turn) == Join(Pieces(before + [event], turn))
    {
      LookupGrows(d, before, event, c, turn);
    }
  }

  lemma LookupGrows(d: Detector, before: seq<Event>, event: Event, c: Claims, turn: nat)
    requires PendingIsExact(before, c) && IsHeard(event) && turn > c.lastDoneTurn
    ensures Lookup(ClaimsBotSaid(d, c, event.turn, event.text).0.pending, turn) == Join(Pieces(before + [event], turn))
  {
    PiecesGrow(before, event);
    assert Lookup(c.pending, turn) == Join(Pieces(before, turn));
    if turn == event.turn {
      JoinOneMore(before, turn, event.text);
    }
  }

  lemma JoinOneMore(before: seq<Event>, turn: nat, text: string)
    ensures var prior := Join(Pieces(before, turn));
            Join(Pieces(before, turn) + [text]) == if prior != "" then prior + " " + text else text
  {
    var pieces := Pieces(before, turn);
    PiecesJoinToWords(before, turn);
    assert (pieces + [text])[..|pieces|] == pieces;
  }

  lemma QuietKeepsPending(before: seq<Event>, event: Event, c: Claims, c': Claims)
    requires PendingIsExact(before, c) && !IsHeard(event) && !event.TurnDone?
    requires c'.pending == c.pending && c'.lastDoneTurn == c.lastDoneTurn
    ensures PendingIsExact(before + [event], c')
  {
    PiecesGrow(before, event);
  }

  lemma DoneKeepsPending(d: Detector, before: seq<Event>, event: Event, c: Claims, isToolCall: bool)
    requires PendingIsExact(before, c) && event.TurnDone? && event.turn >= c.lastDoneTurn
    ensures PendingIsExact(before + [event], ClaimsTurnDone(d, c, event.turn, isToolCall, event.isArmed))
    ensures event.turn > c.lastDoneTurn ==> Lookup(c.pending, event.turn) == Join(Pieces(before, event.turn))
    ensures event.turn == c.lastDoneTurn != 0 ==> Lookup(c.pending, event.turn) == ""
  {
    PiecesGrow(before, event);
  }

  lemma SaidIsExact(d: Detector, before: seq<Event>, call: Call, event: Event)
    requires ExactClaims(d, before, call) && call.ended.None? && IsHeard(event) && CarriesOn(before, event)
    requires Ordered(before)
    ensures ExactClaims(d, before + [event], Unchecked(d, call, event))
    ensures ClaimsBotSaid(d, call.claims, event.turn, event.text).1 == IsLateGoodbye(d, before, event)
  {
    NumbersSinceDone(before);
    assert Init(before + [event]) == before;
    HeardKeepsPending(d, before, event, call.claims);
  }

  lemma DoneIsExact(d: Detector, before: seq<Event>, call: Call, event: Event)
    requires ExactClaims(d, before, call) && call.ended.None? && event.TurnDone? && CarriesOn(before, event)
    requires Ordered(before)
    ensures ExactClaims(d, before + [event], Unchecked(d, call, event))
  {
    NumbersSinceDone(before);
    assert Init(before + [event]) == before;
    DoneKeepsPending(d, before, event, call.claims, call.toolCallTurn == Some(event.turn));
  }

  /** An event that is no line heard and no turn's end changes little of what was. */
  lemma QuietEvents(d: Detector, before: seq<Event>, event: Event)
    requires !IsHeard(event) && !event.TurnDone?
    ensures var done, events := LatestDone(before), before + [event];
            && Text(d, events) == Text(d, before)
            && LatestTool(events) == (if event.ToolCall? then Some(event.turn) else LatestTool(before))
            && LatestPlayed(events) ==
               (if event.PlaybackDone? && event.hasAudio then Max(event.turn, LatestPlayed(before))
                else LatestPlayed(before))
            && LatestDone(events) ==
               (if event.ToolCall? && done.Done? then done.(isToolSince := true)
                else if event.BargeIn? && done.Done? && done.turn == event.turn then done.(isCutSince := true)
                else done)
            && (Stands(d, events) <==>
                  && Stands(d, before) && !event.ToolCall? && !event.NoInput?
                  && !(event.BargeIn? && done.Done? && done.turn == event.turn))
  {
    assert Init(before + [event]) == before;
  }

  lemma QuietIsExact(d: Detector, before: seq<Event>, call: Call, event: Event)
    requires ExactClaims(d, before, call) && call.ended.None? && !IsHeard(event) && !event.TurnDone?
    ensures ExactClaims(d, before + [event], Unchecked(d, call, event))
  {
    QuietEvents(d, before, event);
    QuietKeepsPending(before, event, call.claims, Unchecked(d, call, event).claims);
  }

  lemma UncheckedIsExact(d: Detector, before: seq<Event>, call: Call, event: Event)
    requires ExactClaims(d, before, call) && call.ended.None? && Ordered(before + [event])
    ensures ExactClaims(d, before + [event], Unchecked(d, call, event))
  {
    OrderedInit(before, event);
    if IsHeard(event) {
      SaidIsExact(d, before, call, event);
    } else if event.TurnDone? {
      DoneIsExact(d, before, call, event);
    } else {
      QuietIsExact(d, before, call, event);
    }
  }

  /** A goodbye is heard to its end, by the events, exactly when claimWatch reports its turn. */
  lemma HeardIsReported(d: Detector, events: seq<Event>, call: Call)
    requires ExactClaims(d, events, call)
    ensures FarewellPlayedInFull(call.claims) == Heard(d, events)
  {
    if Stands(d, events) {
      StandsIsUncut(d, events);
    }
  }

  lemma {:induction false} StandsIsUncut(d: Detector, events: seq<Event>)
    requires Stands(d, events)
    ensures LatestDone(events).Done? && !IsCut(LatestDone(events))
    decreases |events|
  {
    if Stands(d, Init(events)) {
      StandsIsUncut(d, Init(events));
    }
  }

  ghost predicate ExactWatch(d: Detector, events: seq<Event>, w: Watch) {
    && w.streak == InARow(d, events).length && w.countedTurn == InARow(d, events).turn
    && w.undecided == Undecided(d, events) && w.isCallerHeard == IsCallerHeard(events)
    && w.isGraceRunning == OnGrace(d, events).Some?
    && (w.isGraceRunning ==> w.graceTurn == OnGrace(d, events).value)
  }

  /** The goodbye the call is about to be left on: one newly counted, the first in a row, with
      nothing held or owed and the caller silent since it played; until a turn, a tool call
      or the caller, or the grace runs out. */
  function OnGrace(d: Detector, events: seq<Event>): Option<nat>
    decreases |events|
  {
    if events == [] then None
    else
      var before, event := Init(events), Last(events);
      match event
      case TurnDone(_, _, _) => None
      case ToolCall(_) => None
      case CallerSpoke => None
      case BargeIn(_) => None
      case GraceDue(_) => None
      case _ =>
        if !Counts(d, before, event) then OnGrace(d, before)
        else if event.isHeld || event.isOwed then None
        else if InARow(d, events).length >= 2 || IsCallerHeard(events) then OnGrace(d, before)
        else Some(InARow(d, events).turn)
  }

  lemma {:induction false} UndecidedIsDone(d: Detector, events: seq<Event>)
    ensures Undecided(d, events) != 0 ==>
              LatestDone(events).Done? && Undecided(d, events) == LatestDone(events).turn
    decreases |events|
  {
    if events != [] {
      UndecidedIsDone(d, Init(events));
    }
  }

  /** What an event does to the row before it is looked at for a goodbye. */
  function RowBefore(d: Detector, before: seq<Event>, event: Event): Row {
    var row := InARow(d, before);
    if event.ToolCall? || (event.TurnDone? && Undecided(d, before) != 0) then Row(0, row.turn) else row
  }

  lemma UncheckedRow(d: Detector, before: seq<Event>, call: Call, event: Event)
    requires ExactClaims(d, before, call) && ExactWatch(d, before, call.watch) && call.ended.None?
    requires Ordered(before + [event])
    ensures var w := Unchecked(d, call, event).watch;
            Row(w.streak, w.countedTurn) == RowBefore(d, before, event) && w.undecided == Undecided(d, before + [event])
  {
    OrderedInit(before, event);
    UndecidedIsDone(d, before);
    assert Init(before + [event]) == before;
    UncheckedIsExact(d, before, call, event);
    if IsHeard(event) {
      SaidIsExact(d, before, call, event);
    }
  }

  lemma UncheckedCaller(d: Detector, before: seq<Event>, call: Call, event: Event)
    requires ExactWatch(d, before, call.watch) && call.ended.None?
    ensures Unchecked(d, call, event).watch.isCallerHeard == IsCallerHeard(before + [event])
  {
    assert Init(before + [event]) == before;
  }

  /** What a look at a row does when the goodbye heard is turn's. */
  function Looked(row: Row, turn: nat): Row {
    if turn != 0 && turn != row.turn then Row(row.length + 1, turn) else row
  }

  lemma CheckDoes(call: Call, isHeld: bool, isOwed: bool, row: Row, turn: nat)
    requires row == Row(call.watch.streak, call.watch.countedTurn) && turn == FarewellPlayedInFull(call.claims)
    requires call.ended.None?
    ensures var call', row' := Checked(call, isHeld, isOwed), Looked(row, turn);
            var isFree := row' != row && !isHeld && !isOwed;
            && Row(call'.watch.streak, call'.watch.countedTurn) == row' && call'.claims == call.claims
            && call'.watch.undecided == call.watch.undecided && call'.watch.isCallerHeard == call.watch.isCallerHeard
            && call'.ended == (if isFree && row'.length >= 2 then Some(TwoGoodbyes) else None)
            && (isFree && row'.length < 2 && !call.watch.isCallerHeard ==>
                  call'.watch.isGraceRunning && call'.watch.graceTurn == turn)
            && (row' != row && (isHeld || isOwed) ==> !call'.watch.isGraceRunning)
            && (row' == row || (isFree && call.watch.isCallerHeard) ==>
                  && call'.watch.isGraceRunning == call.watch.isGraceRunning
                  && call'.watch.graceTurn == call.watch.graceTurn)
  {
  }

  /** Until a look, nothing but the row and who was heard changes the grace. */
  lemma UncheckedGrace(d: Detector, call: Call, event: Event)
    requires IsLook(event) && call.ended.None?
    ensures var w := Unchecked(d, call, event).watch;
            w.isGraceRunning == call.watch.isGraceRunning && w.graceTurn == call.watch.graceTurn
    ensures Step(d, call, event) == Checked(Unchecked(d, call, event), event.isHeld, event.isOwed)
  {
  }

  /** A look counts a goodbye newly heard, and what it then does. */
  lemma LookIsExact(d: Detector, before: seq<Event>, call: Call, event: Event)
    requires ExactClaims(d, before, call) && ExactWatch(d, before, call.watch) && call.ended.None?
    requires Ordered(before + [event]) && IsLook(event)
    ensures var events, call' := before + [event], Step(d, call, event);
            && (call'.ended == Some(TwoGoodbyes) <==>
                  Counts(d, before, event) && !event.isHeld && !event.isOwed && InARow(d, events).length >= 2)
            && call'.ended != Some(Grace)
            && (call'.ended.None? ==> ExactWatch(d, events, call'.watch))
  {
    var events, unchecked := before + [event], Unchecked(d, call, event);
    assert Init(events) == before;
    UncheckedRow(d, before, call, event);
    UncheckedCaller(d, before, call, event);
    UncheckedIsExact(d, before, call, event);
    HeardIsReported(d, events, unchecked);
    UncheckedGrace(d, call, event);
    CheckDoes(unchecked, event.isHeld, event.isOwed, InARow(d, before), Heard(d, events));
    assert InARow(d, events) == Looked(InARow(d, before), Heard(d, events));
  }

  lemma OtherIsExact(d: Detector, before: seq<Event>, call: Call, event: Event)
    requires ExactClaims(d, before, call) && ExactWatch(d, before, call.watch) && call.ended.None?
    requires Ordered(before + [event]) && !IsLook(event)
    ensures var events, call' := before + [event], Step(d, call, event);
            && call'.ended != Some(TwoGoodbyes)
            && (call'.ended.None? ==> ExactWatch(d, events, call'.watch))
            && (call'.ended == Some(Grace) <==>
                  event.GraceDue? && !event.isHeld && OnGrace(d, before).Some?
                  && Heard(d, before) == OnGrace(d, before).value)
  {
    assert Init(before + [event]) == before;
    UncheckedRow(d, before, call, event);
    UncheckedCaller(d, before, call, event);
    HeardIsReported(d, before, call);
  }

  lemma {:induction false} RunIsExact(d: Detector, events: seq<Event>)
    requires Ordered(events)
    ensures var call := Run(d, events);
            call.ended.None? ==> ExactClaims(d, events, call) && ExactWatch(d, events, call.watch)
    decreases |events|
  {
    if events != [] {
      var before, event := Init(events), Last(events);
      RunIsExact(d, before);
      assert before + [event] == events;
      if Run(d, before).ended.None? {
        StepIsExact(d, before, Run(d, before), event);
      }
    }
  }

  lemma StepIsExact(d: Detector, before: seq<Event>, call: Call, event: Event)
    requires ExactClaims(d, before, call) && ExactWatch(d, before, call.watch) && call.ended.None?
    requires Ordered(before + [event])
    ensures var events, call' := before + [event], Step(d, call, event);
            call'.ended.None? ==> ExactClaims(d, events, call') && ExactWatch(d, events, call'.watch)
  {
    UncheckedIsExact(d, before, call, event);
    if IsLook(event) {
      LookIsExact(d, before, call, event);
    } else {
      OtherIsExact(d, before, call, event);
    }
  }

  //
  // The theorems, over the runs whose turn numbers are the session's.
  //

  /** Two goodbyes end the call, and nothing else does by that rule: the event at which a
      goodbye is counted on top of one in the row, with nothing held and nothing owed. */
  lemma TwoGoodbyesEndTheCallExactlyWhen(d: Detector, before: seq<Event>, event: Event)
    requires Ordered(before + [event]) && Run(d, before).ended.None?
    ensures Step(d, Run(d, before), event).ended == Some(TwoGoodbyes) <==>
              Counts(d, before, event) && !event.isHeld && !event.isOwed && InARow(d, before + [event]).length >= 2
  {
    OrderedInit(before, event);
    RunIsExact(d, before);
    if IsLook(event) {
      LookIsExact(d, before, Run(d, before), event);
    } else {
      OtherIsExact(d, before, Run(d, before), event);
    }
  }

  /** The grace ends the call exactly when it runs out on a goodbye that still stands, with
      nothing held. */
  lemma GraceEndsTheCallExactlyWhen(d: Detector, before: seq<Event>, isHeld: bool)
    requires Ordered(before) && Run(d, before).ended.None?
    ensures Step(d, Run(d, before), GraceDue(isHeld)).ended == Some(Grace) <==>
              !isHeld && OnGrace(d, before).Some? && Heard(d, before) == OnGrace(d, before).value
  {
    RunIsExact(d, before);
    assert Init(before + [GraceDue(isHeld)]) == before;
    OtherIsExact(d, before, Run(d, before), GraceDue(isHeld));
  }

  /** A single goodbye left quiet ends the call: counted as the first in a row, with nothing
      held or owed and the caller silent since it played, it starts the grace that does. */
  lemma AGoodbyeLeftQuietEndsTheCall(d: Detector, before: seq<Event>, event: Event)
    requires Ordered(before + [event]) && Run(d, before).ended.None?
    requires Counts(d, before, event) && !event.isHeld && !event.isOwed
    requires InARow(d, before + [event]).length == 1 && !IsCallerHeard(before + [event])
    ensures Step(d, Step(d, Run(d, before), event), GraceDue(false)).ended == Some(Grace)
  {
    var events := before + [event];
    assert Init(events) == before;
    OrderedInit(before, event);
    RunIsExact(d, before);
    LookIsExact(d, before, Run(d, before), event);
    StepIsExact(d, before, Run(d, before), event);
    var call := Step(d, Run(d, before), event);
    assert Init(events + [GraceDue(false)]) == events;
    OtherIsExact(d, events, call, GraceDue(false));
  }

  /** A plain goodbye: a turn says it, ends and is heard to its end. */
  function Goodbye(turn: nat, text: string): seq<Event> {
    [BotSaid(turn, text, false, false, false), TurnDone(turn, false, false), PlaybackDone(turn, true, false, false)]
  }

  /** Said once and answered by silence it ends the call, and so does saying it again. */
  lemma PlainGoodbyesEndTheCall(d: Detector, text: string)
    requires text != "" && d.hasFarewell(text) && !d.endsInQuestion(text)
    ensures Run(d, Goodbye(1, text)).ended.None?
    ensures Run(d, Goodbye(1, text) + [GraceDue(false)]).ended == Some(Grace)
    ensures Run(d, Goodbye(1, text) + Goodbye(2, text)).ended == Some(TwoGoodbyes)
  {
    OnePlainGoodbye(d, INITIAL, [], 1, text);
    var once := Goodbye(1, text);
    assert [] + once == once;
    RunOneMore(d, once, GraceDue(false));
    OnePlainGoodbye(d, Run(d, once), once, 2, text);
  }

  lemma RunOneMore(d: Detector, before: seq<Event>, event: Event)
    ensures Run(d, before + [event]) == Step(d, Run(d, before), event)
  {
    assert Init(before + [event]) == before;
  }

  lemma OnePlainGoodbye(d: Detector, call: Call, before: seq<Event>, turn: nat, text: string)
    requires text != "" && d.hasFarewell(text) && !d.endsInQuestion(text) && call == Run(d, before) && call.ended.None?
    requires turn > call.claims.lastDoneTurn && turn > call.claims.playedInFullTurn && turn > call.watch.countedTurn
    requires turn !in call.claims.pending && !call.claims.isToolReplyNext && call.toolCallTurn.None?
    requires call.watch.undecided == 0
    requires call.claims.isFarewellUnhung ==> call.watch.countedTurn == call.claims.lastDoneTurn
    ensures var call' := Run(d, before + Goodbye(turn, text));
            && call'.watch.streak == call.watch.streak + 1
            && call'.claims.lastDoneTurn == call'.claims.playedInFullTurn == call'.watch.countedTurn == turn
            && call'.claims.isFarewellUnhung && !call'.claims.isLastDoneCut
            && call'.claims.pending.Keys <= call.claims.pending.Keys
            && !call'.claims.isToolReplyNext && call'.toolCallTurn.None? && call'.watch.undecided == 0
            && call'.ended == (if call.watch.streak >= 1 then Some(TwoGoodbyes) else None)
            && (call'.ended.None? ==> call'.watch.isGraceRunning && call'.watch.graceTurn == turn)
  {
    var said := before + [Goodbye(turn, text)[0]];
    var done := said + [Goodbye(turn, text)[1]];
    RunOneMore(d, before, Goodbye(turn, text)[0]);
    RunOneMore(d, said, Goodbye(turn, text)[1]);
    RunOneMore(d, done, Goodbye(turn, text)[2]);
    assert before + Goodbye(turn, text) == done + [Goodbye(turn, text)[2]];
  }

  /** A goodbye heard in this sense is one in every particular. */
  lemma HeardIsAGoodbye(d: Detector, events: seq<Event>)
    requires Ordered(events) && Run(d, events).ended.None? && Heard(d, events) != 0
    ensures GoodbyeHeard(d, events, Heard(d, events))
  {
    RunIsExact(d, events);
    RunKeepsInv(d, events);
    HeardIsReported(d, events, Run(d, events));
    PlayedInFullIsHeard(d, events, Run(d, events).claims);
  }
}
