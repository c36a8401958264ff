/** What happened in a call with the bot's goodbyes, told from the events alone. */
module FarewellHistory {
  import opened Util
  import opened FarewellSteps

  function Init(events: seq<Event>): seq<Event>
    requires events != []
  {
    events[..|events| - 1]
  }

  function Last(events: seq<Event>): Event
    requires events != []
  {
    events[|events| - 1]
  }

  //
  // Turns.
  //

  /** The turn of the latest tool call. */
  function LatestTool(events: seq<Event>): Option<nat>
    decreases |events|
  {
    if events == [] then None
    else if Last(events).ToolCall? then Some(Last(events).turn)
    else LatestTool(Init(events))
  }

  /** The latest turn done: where in the events it ended and how, whether it called a tool
      or replied to one, and whether it was cut or a tool called since. */
  datatype Done = NoneDone
                | Done(at: nat, turn: nat, isInterrupted: bool, isArmed: bool, isToolCall: bool, isReply: bool,
                       isCutSince: bool, isToolSince: bool)

  function LatestDone(events: seq<Event>): Done
    decreases |events|
  {
    if events == [] then NoneDone
    else
      var before := LatestDone(Init(events));
      match Last(events)
      case TurnDone(turn, isInterrupted, isArmed) =>
        Done(|events| - 1, turn, isInterrupted, isArmed, LatestTool(Init(events)) == Some(turn),
             before.Done? && before.isToolCall, false, false)
      case ToolCall(_) => if before.Done? then before.(isToolSince := true) else before
      case BargeIn(turn) => if before.Done? && turn == before.turn then before.(isCutSince := true) else before
      case _ => before
  }

  /** Something other than words backs what the turn said: its own tool call, the one it
      replies to, or an armed ending. */
  predicate IsBacked(done: Done) { done.Done? && (done.isToolCall || done.isReply || done.isArmed) }

  /** The record is of an event, and what it says of tool calls since is so. */
  lemma {:induction false} DoneIsAnEvent(events: seq<Event>)
    ensures var done := LatestDone(events);
            done.Done? ==>
              && done.at < |events| && events[done.at] == TurnDone(done.turn, done.isInterrupted, done.isArmed)
              && (!done.isToolSince ==> forall m :: done.at <= m < |events| ==> !events[m].ToolCall?)
    decreases |events|
  {
    if events != [] {
      DoneIsAnEvent(Init(events));
    }
  }

  //
  // The order events come in.
  //

  /** The highest turn number a line, a tool call or a turn's end has carried. */
  function LatestNumber(events: seq<Event>): nat
    decreases |events|
  {
    if events == [] then 0
    else
      var before := LatestNumber(Init(events));
      match Last(events)
      case BotSaid(turn, _, _, _, _) => Max(turn, before)
      case ToolCall(turn) => Max(turn, before)
      case TurnDone(turn, _, _) => Max(turn, before)
      case _ => before
  }

  /** One pump numbers lines, tool calls and turns' ends by the turn in progress, which only
      grows; a tool call comes before the end of its turn, unless what ended under its
      number was cut short. */
  predicate CarriesOn(before: seq<Event>, event: Event) {
    match event
    case BotSaid(turn, _, _, _, _) => turn >= LatestNumber(before)
    case ToolCall(turn) =>
      && turn >= LatestNumber(before)
      && (LatestDone(before).Done? && !LatestDone(before).isInterrupted ==> turn > LatestDone(before).turn)
    case TurnDone(turn, _, _) => turn != 0 && turn >= LatestNumber(before)
    case _ => true
  }

  predicate Ordered(events: seq<Event>)
    decreases |events|
  {
    events == [] || (Ordered(Init(events)) && CarriesOn(Init(events), Last(events)))
  }

  lemma OrderedInit(before: seq<Event>, event: Event)
    requires Ordered(before + [event])
    ensures Ordered(before) && CarriesOn(before, event)
  {
    assert Init(before + [event]) == before;
  }

  /** No number is behind the latest turn done; and a tool call since a turn that finished
      whole is of a later one. */
  lemma {:induction false} NumbersSinceDone(events: seq<Event>)
    requires Ordered(events)
    ensures var done := LatestDone(events);
            done.Done? ==>
              && 0 < done.turn <= LatestNumber(events)
              && (done.isToolSince && !done.isInterrupted ==> done.turn < LatestNumber(events))
    decreases |events|
  {
    if events != [] {
      NumbersSinceDone(Init(events));
    }
  }

  //
  // Words.
  //

  /** The words the caller heard in the turn, piece by piece. */
  function Pieces(events: seq<Event>, turn: nat): seq<string>
    decreases |events|
  {
    if events == [] then []
    else
      var before := Pieces(Init(events), turn);
      if IsHeard(Last(events)) && Last(events).turn == turn then before + [Last(events).text] else before
  }

  predicate IsHeard(event: Event) { event.BotSaid? && !event.isMuted && event.text != "" }

  function Join(pieces: seq<string>): string
    decreases |pieces|
  {
    if pieces == [] then ""
    else if |pieces| == 1 then pieces[0]
    else Join(pieces[..|pieces| - 1]) + " " + pieces[|pieces| - 1]
  }

  /** The pieces as one text, those after the first n trimmed as they were added. */
  function Spoken(d: Detector, pieces: seq<string>, n: nat): string
    decreases |pieces|
  {
    if |pieces| <= n then Join(pieces)
    else d.trim(Spoken(d, pieces[..|pieces| - 1], n) + " " + pieces[|pieces| - 1])
  }

  ghost predicate SaysGoodbye(d: Detector, pieces: seq<string>) {
    exists i, j :: 0 <= i < j <= |pieces| && d.hasFarewell(Join(pieces[i..j]))
  }

  /** text is the last pieces, from some piece on, none if the text is empty. */
  ghost predicate IsEnd(d: Detector, text: string, pieces: seq<string>, i: int, n: nat) {
    0 <= i <= |pieces| && n <= |pieces| - i && text == Spoken(d, pieces[i..], n)
  }

  ghost predicate EndsTheTurn(d: Detector, text: string, pieces: seq<string>) {
    exists i: int, n: nat :: IsEnd(d, text, pieces, i, n)
  }

  /** The turn's last words do not ask. */
  ghost predicate DoesNotAsk(d: Detector, pieces: seq<string>) {
    exists text, i: int, n: nat :: IsEnd(d, text, pieces, i, n) && i < |pieces| && !d.endsInQuestion(text)
  }

  lemma PiecesGrow(before: seq<Event>, event: Event)
    ensures forall turn: nat :: Pieces(before + [event], turn) ==
              if IsHeard(event) && event.turn == turn then Pieces(before, turn) + [event.text] else Pieces(before, turn)
  {
    assert Init(before + [event]) == before;
  }

  lemma SaysGoodbyeStill(d: Detector, pieces: seq<string>, more: seq<string>)
    requires SaysGoodbye(d, pieces)
    ensures SaysGoodbye(d, pieces + more)
  {
    var i, j :| 0 <= i < j <= |pieces| && d.hasFarewell(Join(pieces[i..j]));
    assert (pieces + more)[i..j] == pieces[i..j];
  }

  lemma GoodbyesStay(d: Detector, before: seq<Event>, event: Event, turn: nat)
    requires SaysGoodbye(d, Pieces(before, turn))
    ensures SaysGoodbye(d, Pieces(before + [event], turn))
  {
    PiecesGrow(before, event);
    if event.BotSaid? {
      SaysGoodbyeStill(d, Pieces(before, turn), [event.text]);
    }
  }

  /** A late piece added to the text that ends the turn. */
  lemma EndGrows(d: Detector, text: string, pieces: seq<string>, more: string)
    requires EndsTheTurn(d, text, pieces)
    ensures var text' := d.trim(text + " " + more);
            && EndsTheTurn(d, text', pieces + [more])
            && (!d.endsInQuestion(text') ==> DoesNotAsk(d, pieces + [more]))
  {
    var i: int, n: nat :| IsEnd(d, text, pieces, i, n);
    var end := (pieces + [more])[i..];
    assert end == pieces[i..] + [more] && end[..|end| - 1] == pieces[i..];
    assert IsEnd(d, d.trim(text + " " + more), pieces + [more], i, n);
  }

  lemma NothingEndsTheTurn(d: Detector, pieces: seq<string>)
    ensures EndsTheTurn(d, "", pieces)
  {
    assert pieces[|pieces|..] == [];
    assert IsEnd(d, "", pieces, |pieces|, 0);
  }

  /** text joins the last pieces, from some piece on. */
  ghost predicate IsTail(text: string, pieces: seq<string>) {
    text != "" && exists i :: 0 <= i < |pieces| && text == Join(pieces[i..])
  }

  lemma TailGrows(text: string, pieces: seq<string>, more: string)
    requires IsTail(text, pieces)
    ensures IsTail(text + " " + more, pieces + [more])
  {
    var i :| 0 <= i < |pieces| && text == Join(pieces[i..]);
    var tail := (pieces + [more])[i..];
    assert tail == pieces[i..] + [more] && tail[..|tail| - 1] == pieces[i..];
  }

  lemma TailBegins(pieces: seq<string>, more: string)
    requires more != ""
    ensures IsTail(more, pieces + [more])
  {
    assert (pieces + [more])[|pieces|..] == [more];
  }

  /** What is judged when a turn ends. */
  lemma TailIsWhatWasSaid(d: Detector, text: string, pieces: seq<string>)
    requires IsTail(text, pieces)
    ensures EndsTheTurn(d, text, pieces)
    ensures d.hasFarewell(text) ==> SaysGoodbye(d, pieces)
    ensures !d.endsInQuestion(text) ==> DoesNotAsk(d, pieces)
  {
    var i :| 0 <= i < |pieces| && text == Join(pieces[i..]);
    assert pieces[i..|pieces|] == pieces[i..];
    assert IsEnd(d, text, pieces, i, |pieces| - i);
  }

  lemma LastPieceSaysGoodbye(d: Detector, pieces: seq<string>, text: string)
    requires d.hasFarewell(text)
    ensures SaysGoodbye(d, pieces + [text])
  {
    var all := pieces + [text];
    assert all[|pieces|..|pieces| + 1] == [text];
    assert d.hasFarewell(Join(all[|pieces|..|pieces| + 1]));
  }

  //
  // Playback, and the goodbye heard.
  //

  predicate IsPlayback(event: Event, turn: nat) { event.PlaybackDone? && event.turn == turn && event.hasAudio }

  /** The caller heard audio of the turn to its end. */
  ghost predicate Played(events: seq<Event>, turn: nat) {
    exists k :: 0 <= k < |events| && IsPlayback(events[k], turn)
  }

  lemma PlayedStill(before: seq<Event>, event: Event, turn: nat)
    requires Played(before, turn)
    ensures Played(before + [event], turn)
  {
    var k :| 0 <= k < |before| && IsPlayback(before[k], turn);
    assert IsPlayback((before + [event])[k], turn);
  }

  /** The latest turn done, backed by nothing, finished whole, said goodbye without ending
      on a question and was heard to its end; it was not cut, and no tool was called since. */
  ghost predicate GoodbyeHeard(d: Detector, events: seq<Event>, turn: nat) {
    var done := LatestDone(events);
    && turn != 0 && done.Done? && done.turn == turn && !done.isInterrupted && !IsBacked(done)
    && !done.isCutSince && !done.isToolSince
    && Played(events, turn)
    && SaysGoodbye(d, Pieces(events, turn)) && DoesNotAsk(d, Pieces(events, turn))
  }
}
