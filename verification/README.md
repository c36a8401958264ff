# A verified model of the AI call, campaign and agent cores

The call centre answers and places calls with an AI voice agent, dials campaigns and
keeps human agents' presence. This project models the parts of it where state or
arithmetic carries promises across several functions, and proves those promises over
every input, every run or every interleaving.

- **The armed ending of a call** (`EndingSteps`, `CallActions`, `EndingRuns`,
  `EndingLaws`, `ClosingLine`, `Subsequences`). A hangup or transfer is armed and runs
  later: on a playback, on the caller's "bye", at a cap timer or by force. `EndingSteps`
  says what each handler does to the flags, the cap and the owed closing line; the class
  `CallActions` has the fields of the original and each of its methods is proved to make
  that step; `EndingRuns` proves what holds of every sequence of handlers, timer firings
  and clock steps. `ClosingLine` is the tokeniser and the one-row dynamic programme that
  hold a turn's words against the line.
- **Turn and playback accounting** (`PlaybackSteps`, `Playback`, `PlaybackRuns`,
  `PlaybackLaws`, `Framer`, `UplinkSteps`, `Uplink`). The send queue shared by successive
  turns, the two generation counters, the fence, the playback watcher, the re-framer and
  the uplink ring.
- **The model's own goodbyes** (`FarewellSteps`, `Farewell`, `FarewellHistory`,
  `FarewellRuns`, `FarewellLaws`). Which goodbyes were heard, told from the events alone,
  and exactly when the two rules end a call on them.
- **The calling calendar and settlement** (`Intervals`, `WallClock`, `Schedule`,
  `ScheduleLaws`, `Outcomes`, `Retry`, `Settlement`, `SettlementLaws`). Interval algebra
  over local days, wall-clock times as instants across transitions, and the retry state
  machine.
- **Admission statistics** (`RateWindows`, `Capacity`, `CapacityLaws`, `Wilson`). The
  order-independent window of the 200 samples dialled last, the ring of answers with
  in-place correction, the overflow mode and the Wilson bound.
- **Small concurrent services** (`ReporterSteps`, `Reporter`, `ReporterRuns`,
  `ReporterLaws`, `AgentSteps`, `Agents`, `AgentRuns`, `AgentLaws`, `Sequence`). Coalesced
  campaign reports, agent presence over device signals, and block-allocated event ids.

Code that updates fields is a class whose methods are each proved against a step function
of a `…Steps` module; the theorems are about runs of those steps. The `…Laws` modules say,
in terms of what can be seen from outside, exactly when each decision falls which way.
Pure code is functions and lemmas. Times are integers (nanoseconds where the source's
durations are), so nothing wraps; `Retry.Wait` states where int64 would be left. Clocks,
the switch, the store, the model and the send queue's consumer appear as events in any
order, or as parameters.

Where a promise fails, a lemma gives the run and another says exactly when it holds:

- `WallClock.LongGapsNeedRoom`: for a skipped wall time the code may return an earlier
  edge than the jump; `GapGivesTheJump` says when it does not. The zone is hypothetical:
  it skips a day 34 hours after an earlier edge.
- `ReporterRuns.AFailedReadAtCloseLosesTheChange`: a read that fails while the reporter
  closes is not tried again. `ReportIsCurrentExactlyWhen` says when the last report is
  current.
- `PlaybackRuns.LateAudioIsToldAgain`: a cut the provider reports first raises no fence,
  so if audio of the cancelled turn still arrives it can be cut, and told, again
  (`internal/aicall/session.go:1000-1003` takes the flush to be enough).
- `AgentRuns.AnOldPhoneCanStandIn`: an agent bound to another phone while signed out
  keeps the old phone's registration until the switch speaks of the new one;
  `ReadyIsRegisteredIfKnown` says when READY means registered.
- `Sequences.FallbackIdsMayRepeat`: only ids reported as durable are unique;
  `DurableUnlessReservationsFail` says which those are.

Two groups of theorems take the order of events from the code around them:

- `EndingRuns.Enabled`: a timer fires when due and time does not pass one that has yet to
  fire; turns finish in order (`PlaybackRuns.TurnsNeverFall`); a turn's TURN_DONE is
  handled before its PLAYBACK_DONE, no line being newly owed in between. The turn's end
  comes first in every run (`PlaybackRuns.PlaybackFollowsTheTurnsEnd`); that the two
  events then leave their two goroutines in that order is assumed.
- `FarewellHistory.Ordered`: lines, tool calls and turns' ends carry the number of the
  turn in progress, read as one pump emits them
  (`internal/aicall/session.go:1028-1040`), and that number only grows
  (`internal/aicall/session.go:1316`); a tool call comes before the end of its turn
  (`internal/provider/realtime.go:1625-1636`,
  `internal/provider/doubao/events.go:315-324`), unless what ended under its number was
  cut short.

## Model

| member | source | states |
|---|---|---|
| `EndingRuns.ActionsRunAtMostOnce` | internal/aicall/actions.go:455-541 | In every run each armed action runs at most once and never after it was dropped; none is lost or replaced: it has run, is still armed, or was dropped with the call |
| `EndingRuns.StaleTimersRunNothing` | internal/aicall/actions.go:516-541 | A cap timer that fires runs nothing, or the very action it was started for |
| `EndingRuns.ArmedIsAlwaysCapped` | internal/aicall/actions.go:496-504 | While an action is armed a timer of the current generation is waiting, due at capDue and not passed, and firing it runs that action |
| `EndingRuns.RequestsAndRefusalsAreBounded` | internal/aicall/actions.go:585-677 | Per arming the closing line is requested at most once and a hangup refused at most twice |
| `EndingRuns.SecondInterruptionFreezes` | internal/aicall/actions.go:1094-1111 | Only a cut makes the second interruption; it drops the owed line and leaves the action and its cap alone |
| `EndingRuns.CapIsFrozen` | internal/aicall/actions.go:496-514 | From the second interruption on, through any events, capDue does not change while the action waits and has not passed, so the action runs by then; the line is not requested again if none is newly expected |
| `EndingRuns.OwedLineIsHeardBeforeTheEnd` | internal/aicall/actions.go:828-935 | While a line is owed, a playback or a cut over the tail ends the call only after a later turn was judged to have covered the line, to have nothing to compare, or to be the second miss after exactly one request |
| `EndingRuns.VerdictsAreEarned` | internal/aicall/actions.go:878-935 | Only a turn after the arming one that finished whole with audio is judged, by its own words; covered means the words say the line; only a first miss asks again, unless a turn is already being made, and leaves the line unspoken |
| `EndingRuns.OwedLineIsLetGoExactlyWhen` | internal/aicall/actions.go:585-760 | The owed line is dropped if and only if the model insists after the one refusal, the first cut falls in the final sentence of a finished line, a second cut interrupts, or the time limit locks the ending |
| `CallActions.CallActions.ArmAs` | internal/aicall/actions.go:455-487 | First action wins: a fresh arming with every flag of the last one cleared and a cap started, or nothing |
| `CallActions.CallActions.StartCapLocked` | internal/aicall/actions.go:496-504 | A new generation, due time and timer; nothing from the second interruption on |
| `CallActions.CallActions.RunAtCap` | internal/aicall/actions.go:516-541 | Runs the armed action only if the generation is still the timer's |
| `CallActions.CallActions.RefuseBareHangup` | internal/aicall/actions.go:585-600 | Refuses exactly once, only after an interruption nothing was said since, and restarts the cap |
| `CallActions.CallActions.RefuseHangupWhileLineOwed` | internal/aicall/actions.go:657-677 | Refuses exactly once, only while the line is owed, uninterrupted and nothing was said after the arming turn |
| `CallActions.CallActions.InsistedOnHangup` | internal/aicall/actions.go:683-692 | A hangup after the refusal takes the owed line back |
| `CallActions.CallActions.SayGoodbyeOnHangup` | internal/aicall/actions.go:709-724 | The goodbye's turn is recorded and the next turn muted, once |
| `CallActions.CallActions.Hangup` | internal/aicall/actions.go:403-440 | The whole hangup: arm, refuse or accept, and what the model is told in each case |
| `CallActions.CallActions.ExpectClosingLine` | internal/aicall/actions.go:623-631 | A line is owed only while a hangup is armed, unlocked and its line not yet spoken |
| `CallActions.CallActions.OnBotSaid` | internal/aicall/actions.go:637-648 | Words of turns after the arming one and after the last miss are kept per turn |
| `CallActions.CallActions.RunArmedNow` | internal/aicall/actions.go:753-761 | Runs what is armed, and it is armed no more |
| `CallActions.CallActions.OnPlaybackDone` | internal/aicall/actions.go:828-840 | Runs the armed action only for the playback of a turn that counts as its line |
| `CallActions.CallActions.OnTurnDone` | internal/aicall/actions.go:878-935 | The verdict on a finished turn, the cap it moves and the request it makes |
| `CallActions.CallActions.InterruptLocked` | internal/aicall/actions.go:1094-1111 | Counts the interruption; the first restarts the cap, the second takes the line as said |
| `CallActions.CallActions.OnBargeIn` | internal/aicall/actions.go:1020-1082 | A cut withdraws a goodbye, interrupts, lets the final sentence count as said, or ends the call over the tail |
| `EndingLaws.PlaybackRunsTheAction` | internal/aicall/actions.go:828-840 | In every run a playback runs exactly the armed action and leaves nothing armed if and only if its turn is after the arming one, neither it nor a later turn was judged a first miss, and it had audio; without audio, if no cut but one before the goodbye's turn is unanswered and no owed line is unspoken. Otherwise it changes nothing |
| `EndingLaws.LaterAudioEndsTheCall` | internal/aicall/actions.go:828-840 | So with no line owed and no turn missed the armed action runs at the first later turn with audio |
| `EndingLaws.ForceRunsAndTheEndDrops` | internal/aicall/actions.go:753-796 | By force what is armed runs; at the end of the call it is dropped and every timer is stale |
| `EndingLaws.CutsInterruptOrEndTheCall` | internal/aicall/actions.go:1020-1082 | A cut with more than 1.5 s left of a finished line, or heard of a later turn still being made, leaves the action armed, unspoken and counted; one over the last 1.5 s of a finished line runs it; any other changes nothing |
| `EndingLaws.LongCutsWithdrawTheGoodbye` | internal/aicall/actions.go:1020-1032 | A cut with more than a tail left withdraws the goodbye and the muting of the next turn, and no other does |
| `EndingLaws.FirstInterruptionMovesTheCap` | internal/aicall/actions.go:1094-1111 | The first interruption, and no later one, starts the cap over |
| `EndingLaws.ArmsExactlyWhen` | internal/aicall/actions.go:455-487 | An ending is armed if and only if none is and the call is not locked, with everything cleared and a cap of one grace, ten seconds if none is set |
| `EndingLaws.HangupsDo` | internal/aicall/actions.go:403-440 | Exactly when a hangup arms, is refused to a bot cut off or owing a line that said nothing since, each once with the cap started over, does nothing over a transfer, or is accepted; and what the model is told in each case |
| `EndingLaws.GoodbyesAreMutedExactlyWhen` | internal/aicall/actions.go:709-724 | The goodbye is noted and the next turn muted if and only if an accepted hangup comes while the bot speaks a later turn after a line taken as said, once |
| `EndingLaws.LineIsOwedExactlyWhen` | internal/aicall/actions.go:623-631 | A line is newly owed if and only if a hangup is armed, unlocked and its line not yet spoken |
| `EndingLaws.WordsAreWhatWasSaid` | internal/aicall/actions.go:637-648 | The words held against the line are those of turns after the arming one and the last miss, piece after piece and trimmed; other turns' are untouched |
| `EndingLaws.FinishedTurnsDo` | internal/aicall/actions.go:878-946 | A turn that counts, with no line owed or one it said, is the line spoken and the cap covers its playing and two seconds; a first miss starts the cap over by a grace and what still plays |
| `EndingLaws.JudgedWordsAreTaken` | internal/aicall/actions.go:878-920 | The words of a turn that counts while the line is owed, and of those before it, are taken; those of later turns stay |
| `ClosingLine.CommonSubsequence` | internal/aicall/closingline.go:75-90 | The one-row dynamic programme with its saved diagonal returns the recursive definition of the longest common subsequence |
| `ClosingLine.LcsIsLongest` | internal/aicall/closingline.go:75-90 | That number is the length of some common subsequence and of none longer, for all inputs |
| `ClosingLine.LcsIsFullExactlyWhenSubsequence` | internal/aicall/closingline.go:75-90 | It equals the first length if and only if the first is a subsequence of the second |
| `ClosingLine.ClosingTokens` | internal/aicall/closingline.go:44-72 | The loop over runes yields the tokens of the recursive definition |
| `ClosingLine.TokensAcrossSeparator` | internal/aicall/closingline.go:44-72 | A separator splits a text into independently tokenised halves |
| `ClosingLine.WidthDoesNotMatter` | internal/aicall/closingline.go:44-72 | Full-width ASCII tokenises as its half-width form |
| `ClosingLine.SaysTheClosingLine` | internal/aicall/closingline.go:33-41 | Coverage is the common share of the line's tokens, and said from 0.6 on |
| `ClosingLine.CoverageIsFull` | internal/aicall/closingline.go:33-41 | Coverage is between 0 and 1, and 1 if and only if the line's tokens are a subsequence of what was said |
| `ClosingLine.CoverageGrowsWithWords` | internal/aicall/closingline.go:33-41 | Adding words never lowers coverage and never un-says the line |
| `ClosingLine.TrimmingKeepsTokens` | internal/aicall/actions.go:637-648 | Trimming the words takes no token, if every space separates |
| `EndingRuns.WordsOnlyAdd` | internal/aicall/actions.go:637-648 | Taking one more piece of a turn, joined and trimmed, never lowers what the turn's words cover of a line nor un-says it, and covers what the piece does |
| `ClosingLine.LaterCutsCountToo` | internal/aicall/closingline.go:117-142 | The final sentence takes at most the whole audio, and of two cuts in one line, if the earlier falls in the final sentence so does the later |
| `ClosingLine.SaysExactlyWhen` | internal/aicall/closingline.go:33-41 | The line is said if and only if there is nothing to compare or at least three in five of its tokens come in its order among those said |
| `ClosingLine.LettersMakeOneWord` | internal/aicall/closingline.go:44-72 | Letters and digits in a row are one token in lower case |
| `ClosingLine.HanStandsAlone` | internal/aicall/closingline.go:44-72 | A Han character is a token by itself and ends the word before it |
| `ClosingLine.ApostrophesDoNotMatter` | internal/aicall/closingline.go:44-72 | An apostrophe, straight or curly, tokenises as if it were not there |
| `ClosingLine.CaseDoesNotMatter` | internal/aicall/closingline.go:44-72 | Nor does case, if lower-casing keeps a rune's class |
| `ClosingLine.FinalSentenceIsTheLast` | internal/aicall/closingline.go:103-174 | Of a line with a terminator before its last sentence, whatever marks close it, that sentence is the final one with its share of the audio by letters, and a cut counts from 400 ms before it; a point between digits ends no sentence |
| `ClosingLine.OneSentenceHasNoFinal` | internal/aicall/closingline.go:107-113 | A cut in a line of one sentence never counts as in its final one |
| `PlaybackRuns.PlayedTimeIsExact` | internal/aicall/session.go:1272-1293 | In every run the played time a flush reports is exactly how many frames of the current turn left the queue since it began or was last flushed, whatever of an earlier turn is still queued |
| `PlaybackRuns.TheModelIsToldWhatWasHeard` | internal/aicall/session.go:936-1154 | Whatever tells the model of a cut tells it once, with that time, or -1 exactly when the turn had queued nothing; the queue is then empty |
| `PlaybackRuns.DisturbancesMoveTheDrain` | internal/aicall/session.go:1289-1351 | The drain generation moves exactly on a flush, a turn start or a turn end; otherwise what is queued only moves on to the wire |
| `PlaybackRuns.DrainDecision` | internal/aicall/session.go:1409-1564 | PLAYBACK_DONE of a turn being settled is published if and only if no flush, turn start or other turn end came since its end; speech that takes no floor does not block it |
| `PlaybackRuns.DrainedTurnsAreHeardWhole` | internal/aicall/session.go:1538-1564 | And then every frame of the turn is on the wire |
| `PlaybackRuns.DeadAirDecision` | internal/aicall/session.go:1576-1603 | NO_INPUT is published if and only if no speech, flush or turn start came since the PLAYBACK_DONE its watch belongs to |
| `PlaybackRuns.CutAudioIsNeverQueued` | internal/aicall/session.go:1065-1208 | After a turn still being generated is cut or muted, nothing is queued until the next turn starts |
| `PlaybackRuns.OneCutIsToldOnce` | internal/aicall/session.go:1065-1154 | A cut the session saw first is told to the model once: nothing more is told until a turn starts, whatever the provider reports |
| `PlaybackRuns.ProviderCutIsToldOnce` | internal/aicall/session.go:958-1016 | A cut of the turn in progress the provider reported first is told once too, if every chunk of audio after it is dropped |
| `PlaybackRuns.LateAudioIsToldAgain` | internal/aicall/session.go:958-1016 | Which is needed: a chunk after it and then a keypress tell the model again if and only if the chunk was let through |
| `PlaybackRuns.TurnsNeverFall` | internal/aicall/session.go:1313-1353 | Turn numbers never fall, and rise by one |
| `PlaybackRuns.PlaybackFollowsTheTurnsEnd` | internal/aicall/session.go:1409-1507 | Every PLAYBACK_DONE is of a turn whose end came before it in the run, with the same turn and the same audio |
| `Playback.Session.QueueFrame` | internal/aicall/session.go:883-906 | A frame is queued and counted, or refused by a full queue and not counted |
| `Playback.Session.PlayAudio` | internal/aicall/session.go:848-865 | The frames of a chunk one by one; none while hushed or cut off |
| `Playback.Session.BeginTurn` | internal/aicall/session.go:1313-1353 | A new turn: counters start over, the fence falls or is raised again for a muted turn, both generations move |
| `Playback.Session.EndTurn` | internal/aicall/session.go:1409-1433 | The padded tail is queued, only the drain generation moves, and the marker is handed over unless the watcher is behind |
| `Playback.Session.StopPlaybackLocked` | internal/aicall/session.go:1272-1293 | The flush, what it reports, and what it leaves |
| `Playback.Session.BargeIn` | internal/aicall/session.go:1065-1154 | When the floor is taken, and what the model is told |
| `Playback.Session.MuteTurn` | internal/aicall/session.go:1189-1208 | Flushes and fences the current turn only, telling the model nothing |
| `Playback.Session.OnSpeechStarted` | internal/aicall/session.go:941-951 | Speech cancels the dead-air watch and then may take the floor |
| `Playback.Session.OnInterrupted` | internal/aicall/session.go:958-1016 | A provider's cancellation counts against the oldest open turn and flushes |
| `Playback.Session.TickDrain` | internal/aicall/session.go:1538-1564 | One look of the watcher: superseded, not drained, drained once, or drained and published |
| `Playback.Session.TakeMarker` | internal/aicall/session.go:1456-1470 | The watcher takes the next marker unless it is following a turn |
| `Playback.Session.TakeRearm` | internal/aicall/session.go:1494-1507 | It is honoured only after dead air and while nobody has spoken since |
| `Playback.Session.OnSilence` | internal/aicall/session.go:1576-1603 | A stale timer recognises itself; a current one reports dead air |
| `PlaybackLaws.SpeechTakesTheFloorExactlyWhen` | internal/aicall/session.go:1065-1154 | Speech outside the barge-in guard, while the bot speaks or audio of its turn is queued, empties the queue, silences the bot and tells the model once; inside the guard or over silence it leaves leg, floor and what was told as they were |
| `PlaybackLaws.KeysTakeTheFloorExactlyWhen` | internal/aicall/session.go:1065-1154 | A key outside an armed ending takes the floor if and only if audio is in play or a response is open |
| `PlaybackLaws.TakingTheFloorTellsWhatWasHeard` | internal/aicall/session.go:1065-1154 | In every run what the model is told then is the time of the turn that was heard |
| `PlaybackLaws.InterruptionsDo` | internal/aicall/session.go:958-1016 | A provider's cancellation empties the queue and tells of it if the turn queued anything; the bot stops answering unless a newer turn is open |
| `PlaybackLaws.MutingDoes` | internal/aicall/session.go:1189-1208 | Muting the turn in progress empties the queue and fences off the rest of it, untold; another turn is left alone |
| `PlaybackLaws.AudioIsQueuedExactlyWhen` | internal/aicall/session.go:848-865 | In every run audio is queued behind what waits as far as the leg has room, if and only if the call is not hushed and the turn not cut off |
| `PlaybackLaws.StartsDo` | internal/aicall/session.go:1313-1353 | A turn starts with nothing counted and no fence but one asked for, what an earlier one queued still playing |
| `PlaybackLaws.EndsDo` | internal/aicall/session.go:1409-1433 | A turn's end queues its last part of a frame, counts the turn as one with audio exactly when it queued any, and hands it over unless the watcher is eight behind |
| `PlaybackLaws.DrainedTurnsArePublished` | internal/aicall/session.go:1409-1564 | A turn whose audio left the queue is published after two looks a frame apart if nothing disturbed it, and never if something did |
| `PlaybackLaws.SilenceIsReported` | internal/aicall/session.go:1480-1606 | A caller quiet after it is reported, and again after each re-arm asked for |
| `Framer.Framer.Push` | internal/aicall/framer.go:31-53 | On the direct and the copy-down path the frames are the whole frames of pending plus input and the rest stays pending, shorter than a frame |
| `Framer.Framer.Flush` | internal/aicall/framer.go:59-70 | One frame padded with silence, or none |
| `Framer.Framer.Reset` | internal/aicall/framer.go:73 | Pending is dropped |
| `Framer.CutIsExact` | internal/aicall/framer.go:31-55 | Cutting into frames loses and adds nothing, and every frame is one frame long |
| `Framer.FramingIsExact` | internal/aicall/framer.go:31-73 | In every run of pushes, flushes and resets the frames emitted since the last flush or reset followed by pending are the bytes pushed since, and every frame is whole |
| `Framer.ChunkingDoesNotMatter` | internal/aicall/framer.go:31-55 | The frames and the rest depend only on the bytes, not on how they were chunked |
| `Framer.UtterancePlaysWhole` | internal/aicall/framer.go:31-73 | Pushed in any chunks and flushed, an utterance comes out whole with only silence added |
| `UplinkSteps.FramesAreConserved` | internal/aicall/uplink.go:25-107 | In every run received = (sent - filled) + dropped for depth + dropped hushed + queued; the queue is the newest frames and what was fed is, in order, some of the others |
| `UplinkSteps.SlotsFollowTheClock` | internal/aicall/session.go:792-826 | Until the model refuses audio the slots handled equal floor(latest time / 20 ms), however late or out of order the clock is read; a call never hushed fed exactly one frame for each |
| `Uplink.UplinkClock.Push` | internal/aicall/uplink.go:64-78 | The ring refines a drop-oldest queue of depth five |
| `Uplink.UplinkClock.Owed` | internal/aicall/uplink.go:82-90 | Slots elapsed since the last count, none if the clock went back |
| `Uplink.UplinkClock.Pop` | internal/aicall/uplink.go:94-103 | The oldest frame, or none |
| `Uplink.UplinkClock.FeedSlot` | internal/aicall/session.go:816-826 | One slot: the oldest frame, silence, or nothing while hushed, and the counters |
| `Uplink.UplinkClock.SendDueSlots` | internal/aicall/session.go:792-812 | The owed slots one by one, stopping where the model refuses audio |
| `Uplink.RingTakes` | internal/aicall/uplink.go:64-105 | Taking the frame at head leaves the others in order |
| `Uplink.RingAppends` | internal/aicall/uplink.go:64-78 | The slot after the last is the queue's end |
| `UplinkSteps.AFrameIsQueued` | internal/aicall/uplink.go:64-78 | A frame is queued behind the others, and only a sixth pushes the oldest out |
| `UplinkSteps.SlotsFeedTheOldest` | internal/aicall/session.go:816-826 | Slots not hushed feed the oldest frames one each, and silence only when none is left |
| `UplinkSteps.HushedSlotsDropTheOldest` | internal/aicall/session.go:816-826 | Hushed slots feed nothing and drop, counted, the frames they find |
| `UplinkSteps.RefusalEndsThePump` | internal/aicall/session.go:792-812 | A refusal ends the pump at that slot |
| `UplinkSteps.MaxBacklogIsTheDeepest` | internal/aicall/uplink.go:64-78 | In every run MaxBacklog is the deepest the queue ever was |
| `FarewellRuns.TwoGoodbyesEndTheCall` | internal/aicall/farewell.go:120-144 | The two-goodbye hangup comes only after two turns each finished whole with a goodbye nothing backed and no question at its end, and were heard to the end uncut, with no tool call since the first one ended and every turn finished whole after its count saying goodbye |
| `FarewellRuns.GraceEndsAQuietCall` | internal/aicall/farewell.go:148-159 | The grace ends the call only if caller, model and tools were quiet since such a goodbye was heard, and one still stands |
| `FarewellRuns.PlayedInFullIsHeard` | internal/aicall/claims.go:424-430 | What the watch reports played in full was, by the events alone, finished whole, backed by no tool call, reply or armed ending, heard to its end, uncut, and said goodbye without asking at its end |
| `FarewellRuns.ToolCallTakesTheGoodbyeBack` | internal/aicall/claims.go:390-393 | After a tool call nothing is unhung, counted or on grace until a turn finishes, whatever lines are heard |
| `FarewellRuns.OrderDoesNotMatter` | internal/aicall/farewell.go:68-144 | Transcript then playback and playback then transcript leave the same state |
| `FarewellRuns.EachGoodbyeCountsOnce` | internal/aicall/farewell.go:96-101 | With turns finishing in order the streak grows only by a turn later than every turn counted |
| `Farewell.ClaimWatch.OnBotSaid` | internal/aicall/claims.go:448-480 | A late line is judged at once with how the whole turn ended; an early one kept; one of an older turn let go |
| `Farewell.ClaimWatch.OnTurnDone` | internal/aicall/claims.go:483-516 | The turn judged, backed by its tool call, the one before it, or an armed ending; texts of older turns forgotten |
| `Farewell.ClaimWatch.OnBargeIn` | internal/aicall/claims.go:409-415 | A cut of the turn last done takes its goodbye back |
| `Farewell.ClaimWatch.FarewellPlayed` | internal/aicall/claims.go:424-430 | The turn of a goodbye heard to its end, or 0 |
| `Farewell.FarewellWatch.OnTurnDone` | internal/aicall/farewell.go:68-80 | An undecided turn before resets the streak; this one is undecided unless cut or a goodbye |
| `Farewell.FarewellWatch.CheckOwnFarewell` | internal/aicall/farewell.go:120-144 | Counts a goodbye once and ends the call, starts the grace, or neither |
| `FarewellLaws.HeardIsReported` | internal/aicall/claims.go:424-430 | The turn claimWatch reports is exactly the one the events say: its goodbye stands, uncut and unanswered by a tool or dead air, and its audio was the last heard to the end |
| `FarewellLaws.RunIsExact` | internal/aicall/farewell.go:68-170 | In every ordered run still going both watches hold exactly what the events say: the goodbyes in a row, the turn undecided, the caller heard, the grace |
| `FarewellLaws.TwoGoodbyesEndTheCallExactlyWhen` | internal/aicall/farewell.go:120-144 | An event ends the call by two goodbyes if and only if a goodbye is counted at it on top of one already in the row, with nothing held and nothing owed |
| `FarewellLaws.GraceEndsTheCallExactlyWhen` | internal/aicall/farewell.go:148-159 | The grace ends the call if and only if it runs out, by the events, on a goodbye that still stands with nothing held |
| `FarewellLaws.AGoodbyeLeftQuietEndsTheCall` | internal/aicall/farewell.go:116-170 | A goodbye counted as the first in a row, with nothing held or owed and the caller silent since it played, starts the grace, which ends the call if it is left quiet |
| `FarewellLaws.PlainGoodbyesEndTheCall` | internal/aicall/farewell.go:116-170 | A plain goodbye, said, finished and played, ends the call when the grace runs out; said again it ends the call there |
| `FarewellLaws.HeardIsAGoodbye` | internal/aicall/claims.go:424-430 | A goodbye heard in this sense was finished whole, backed by nothing, uncut, and said goodbye without asking at its end |
| `Intervals.Merge` | internal/campaign/schedule.go:197-215 | Sorted, separated spans that cover exactly the instants of the input, whatever order equal starts are sorted in |
| `Intervals.Intersect` | internal/campaign/schedule.go:218-237 | Sorted, separated spans that cover exactly the instants of both inputs |
| `Intervals.CanonicalFormIsUnique` | internal/campaign/schedule.go:193-237 | Two sorted, separated lists that cover the same instants are equal |
| `WallClock.WallTime` | internal/campaign/schedule.go:145-188 | The first or last candidate or, with none, the nearer edge; independent of the order offsets come out of the map |
| `WallClock.EveryReadingIsFound` | internal/campaign/schedule.go:150-173 | With at most one transition within a day the candidates are exactly the instants that read the wanted time |
| `WallClock.WallTimeCases` | internal/campaign/schedule.go:134-188 | The unique instant, the first or last of a fold, or the jump for a gap |
| `WallClock.GapGivesTheJump` | internal/campaign/schedule.go:175-187 | For a gap the code finds the jump if and only if no other edge is as near to the instant the library picked |
| `WallClock.RoomForTheGap` | internal/campaign/schedule.go:175-187 | Which holds when no other edge lies within twice the gap |
| `WallClock.LongGapsNeedRoom` | internal/campaign/schedule.go:175-187 | And fails for a clock that skips a day 34 hours after an earlier edge |
| `WallClock.StartIsTheFirstReading` | internal/campaign/schedule.go:134-144 | A start is the first instant at which the clock reads the time or later |
| `WallClock.EndIsTheLastReading` | internal/campaign/schedule.go:134-144 | An end is the last instant that reads it, or the jump over it; the clock reads later ever after |
| `WallClock.WallTimesAreMonotone` | internal/campaign/schedule.go:121-188 | Both are monotone in the wall time, and an end never precedes a start of the same or an earlier time |
| `Schedule.RangeSpans` | internal/campaign/schedule.go:121-132 | The range on its day as one span, or none when its end does not come after its start |
| `Schedule.Spans` | internal/campaign/schedule.go:86-118 | Sorted, separated spans covering exactly the window and the outer hours of the ten days from the day before |
| `Schedule.IsOpen` | internal/campaign/schedule.go:52-59 | Whether a span around t holds t |
| `Schedule.NextStart` | internal/campaign/schedule.go:65-72 | The first instant after t at which the schedule opens, or none |
| `Schedule.NextOpen` | internal/campaign/schedule.go:76-81 | The least instant not before t that the search sees open, or none |
| `ScheduleLaws.IsOpenMeansOpen` | internal/campaign/schedule.go:52-59 | With a fixed offset IsOpen holds if and only if what the wall clock reads lies in the window of some day and in the outer hours |
| `ScheduleLaws.NextOpenIsTheLeastOpen` | internal/campaign/schedule.go:76-81 | With a fixed offset over the scanned days a returned instant is open and no earlier one from t on is |
| `ScheduleLaws.NextOpenIsOpen` | internal/campaign/schedule.go:76-118 | And IsOpen holds when recomputed from that instant's own date |
| `ScheduleLaws.NothingFoundMeansNeverOpen` | internal/campaign/schedule.go:44-47 | The search comes back empty if and only if no wall time at all is open |
| `ScheduleLaws.TheCalendar` | internal/campaign/schedule.go:190-192 | Day 0 is a Thursday, each next day bears the next name of MON to SUN, and names come back every seven days: the one naming that does, and the one the code's arithmetic gives |
| `ScheduleLaws.WindowDays` | internal/campaign/schedule.go:103-105 | The days of a window are those the calendar names as one of its days |
| `ScheduleLaws.RangeBounds` | internal/campaign/schedule.go:121-132 | The bounds a range has in the code are the date and time of day it names, the day after if it ends before it starts |
| `Outcomes.AnsweredIsAnswered` | internal/campaign/outcome.go:132-168 | An answered outcome if and only if the customer answered or the cause is OVERFLOW, and then one that counts as reached |
| `Outcomes.FailuresOfOurOwnAreNotAttempts` | internal/campaign/outcome.go:132-203 | ORIGINATE_FAILED exactly for a placement failure without a customer-side cause; which causes cost a system retry; a customer outcome only from the cause table |
| `Outcomes.CountersAreTheTally` | internal/campaign/settle.go:17-46 | After any attempts and CDR revisions the counters are the tally by class of each attempt's latest outcome |
| `Outcomes.FloorIsNeverHit` | internal/campaign/settle.go:32-46 | Remove of a counted outcome then Add of it is the identity: the floor is never met |
| `Retry.Wait` | internal/campaign/settle.go:147-157 | The loop returns base times factor to the n-1, capped, for any backoff; within int64 for a normalised policy |
| `Retry.WaitsGrowByTheFactor` | internal/campaign/settle.go:145-156 | Each retry waits factor times as long as the one before, until the cap |
| `Retry.Normalize` | internal/campaign/retry.go:83-148 | Accepts exactly the policies within the limits, states every interval and loses duplicates, or names the first fault |
| `Retry.NormalizingTwiceIsNormalizingOnce` | internal/campaign/retry.go:83-148 | A normalised policy is accepted unchanged |
| `Settlement.Settle` | internal/campaign/settle.go:102-143 | The contact ends as decided or stays ACTIVE, due at the end of the call plus the wait or at the schedule's next opening |
| `Settlement.DialledAgainExactlyWhen` | internal/campaign/settle.go:83-137 | Dialled again if and only if no lead, an outcome retried, retryable, and its budget not spent |
| `Settlement.AnsweredIsNeverDialledAgain` | internal/campaign/settle.go:104-117 | An answered call, or one with a lead, never leaves a next attempt under any policy, lead or counters |
| `Settlement.NormalizingChangesNoDecision` | internal/campaign/retry.go:83-148 | Normalising keeps every decision, but for the wait of a backoff left out |
| `Settlement.DiallingEnds` | internal/campaign/settle.go:119-136 | However attempts go, at most (maxAttempts-1) + max(maxSystemRetries-1, 0) leave the contact ACTIVE |
| `Settlement.TheBoundIsReached` | internal/campaign/settle.go:119-136 | A contact that never answers is dialled again maxAttempts-1 times |
| `Settlement.NextAttemptIsTheLeastOpen` | internal/campaign/settle.go:138-142 | The next attempt is the least open instant at or after the end of the call plus the wait; only a schedule that never opens leaves it closed |
| `SettlementLaws.BotFailedExactlyWhen` | internal/campaign/outcome.go:173-191 | Of an answered call the bot failed if and only if its leg did, recovery, a late answer or an unconfirmed bridge ended it, the channel vanished with no bot there, or it is FAILED and did not vanish |
| `SettlementLaws.CausesMean` | internal/campaign/outcome.go:192-209 | Of an unanswered call the cause alone says silent, busy, refused or no number; a vanished channel is UNKNOWN unless nothing was placed; all else is our failure |
| `SettlementLaws.TheWaitIsStated` | internal/campaign/settle.go:119-136 | The wait is the policy's own interval or, left out, two hours, half an hour, a day and a day; after our n-th failure base times factor to the n-1, capped |
| `SettlementLaws.EveryContactEndsWhere` | internal/campaign/settle.go:104-136 | From the call's facts alone, exactly which contacts end as on the do-not-call list, done or a bad number, and what leaves one exhausted or active |
| `SettlementLaws.SkippedIsOnDnc` | internal/campaign/settle.go:104-113 | A do-not-call skip ends the contact on the list, unless a lead says done |
| `SettlementLaws.DueNoSoonerThanStated` | internal/campaign/settle.go:119-142 | An active contact is due no sooner than the stated wait after the call ended, then at the least open instant |
| `SettlementLaws.FailuresUnderTheDefaults` | internal/campaign/retry.go:64-81 | Under the default policy our failures in a row wait 5, 15, 45 and 135 minutes and the fifth is the last |
| `SettlementLaws.SilenceUnderTheDefaults` | internal/campaign/retry.go:64-81 | And a silent line is tried again two hours later, twice |
| `SettlementLaws.FirstsKeepTheOrder` | internal/campaign/retry.go:97-107 | Normalising keeps the retried outcomes in the order of their first mention |
| `SettlementLaws.AcceptableExactlyWhen` | internal/campaign/retry.go:44-148 | A policy is accepted if and only if every number it states is within the limits, given as numbers, and it retries and paces only outcomes that can be |
| `SettlementLaws.WaitsStayUnderTheCap` | internal/campaign/settle.go:145-156 | No wait passes the cap, whatever the backoff |
| `RateWindows.RangWindow.Add` | internal/campaign/capacity.go:173-192 | Binary search, insertion and eviction leave the window as specified, with the count of trues |
| `RateWindows.AllLaterSamplesAreHeld` | internal/campaign/capacity.go:144-192 | Whatever the ties, of every instant later than its oldest the window holds as many answered and unanswered attempts as were ever added |
| `RateWindows.HeldWhateverTheArrival` | internal/campaign/capacity.go:144-192 | Of attempts dialled at different instants it holds the same ones in the same order, whatever order they were added in and whatever ties that drew |
| `RateWindows.HeldAreTheLast` | internal/campaign/capacity.go:162-192 | The window holds exactly the 200 samples dialled last of everything ever added, in order |
| `Capacity.Window.Add` | internal/campaign/capacity.go:115-128 | The ring is the last 200 answers, oldest lost first, with an exact count |
| `Capacity.Window.Set` | internal/campaign/capacity.go:131-147 | Exactly one held sample of the call is turned, if one is held |
| `Capacity.WindowIsTheLastAnswers` | internal/campaign/capacity.go:107-147 | In every run the window is the last 200 of all answers, each corrected in place, if no call picks up twice |
| `Capacity.CapacityStats.OverflowRate` | internal/campaign/capacity.go:267-272 | The exact share of overflows among them |
| `Capacity.CapacityStats.Rang` | internal/campaign/capacity.go:231 | A dialled sample enters the rang window |
| `Capacity.CapacityStats.Answered` | internal/campaign/capacity.go:235-238 | An answer enters the window and the mode follows |
| `Capacity.CapacityStats.Overflowed` | internal/campaign/capacity.go:242-247 | A held sample is corrected, one that left is counted anew, and the mode follows |
| `Capacity.CapacityStats.Observe` | internal/campaign/capacity.go:252-263 | A replayed outcome feeds both windows, or neither |
| `Capacity.CapacityStats.Bound` | internal/campaign/capacity.go:284-289 | 1 when stopped, else the bound of the window |
| `Capacity.StoppedUntilUnderTheTightenRate` | internal/campaign/capacity.go:90-102 | Over any rates control is stopped if and only if one went above the stop rate and none since has been under the tighten rate without being above the stop rate |
| `Capacity.StoppedMeansNoOverdial` | internal/campaign/capacity.go:284-289 | And while it is, the bound is 1 |
| `Capacity.StricterModesPlanForMore` | internal/campaign/capacity.go:61-102 | The bound grows from normal to tightened to stopped, from the observed rate up to 1 |
| `Wilson.WilsonIsTheUpperEnd` | internal/campaign/capacity.go:46-56 | It is the larger root of (x-p)^2 = z^2 x(1-x)/n and lies in [k/n, 1], so the cut at 1 changes nothing |
| `Wilson.WilsonGrowsWithAnswers` | internal/campaign/capacity.go:46-56 | It never drops when k grows |
| `Wilson.WilsonGrowsWithZ` | internal/campaign/capacity.go:46-56 | Nor when z grows |
| `Wilson.TighteningNeverLowersTheBound` | internal/campaign/capacity.go:61-71 | So tightening never lowers the planning bound |
| `RateWindows.OrderIsByInstantThenTie` | internal/campaign/capacity.go:156-161 | Samples are ordered by instant and, within one, by tie |
| `RateWindows.TiesTellStatesApart` | internal/campaign/capacity.go:173-175 | A tie is the upper 48 bits of the state: no more than 65,536 neighbouring states share one |
| `RateWindows.StatesNeverMerge` | internal/campaign/capacity.go:173-175 | The generator is one-to-one on 64 bits, so no two runs of draws merge |
| `CapacityLaws.RingsExactlyWhen` | internal/campaign/capacity.go:40-42 | An attempt samples the answer rate if and only if the customer picked up or the cause says silent, busy or refused |
| `CapacityLaws.OverflowsAreCounted` | internal/campaign/capacity.go:107-147 | The window's count is the number of its answers that overflowed |
| `CapacityLaws.AnswersAreCounted` | internal/campaign/capacity.go:162-192 | And the other's the number of its samples answered |
| `CapacityLaws.TightenedExactlyWhen` | internal/campaign/capacity.go:90-102 | Over any rates control is tightened if and only if it is not stopped and the last rate is above the tighten rate |
| `CapacityLaws.ControlFollowsTheCalls` | internal/campaign/capacity.go:213-282 | Over every run of calls control is stopped if and only if the share of overflows among the last 200 answers rose above the stop rate and has not been under the tighten rate since; else tightened exactly while it is above the tighten rate |
| `CapacityLaws.PlannedWith` | internal/campaign/capacity.go:58-72 | The rate planned with is 1 while stopped or under 50 samples, else the upper end of the Wilson interval at z = 1.959964 or, tightened, 2.575829 |
| `ReporterRuns.NoChangeIsLost` | internal/campaign/reporter.go:116-181 | In every interleaving, once nothing is open or under way the last report is of the campaign as it stands, if every commit was touched before Close and no failed read came back to a closed reporter |
| `ReporterRuns.ReportIsCurrentExactlyWhen` | internal/campaign/reporter.go:116-181 | Whatever was touched, closed or failed, the last report of a quiet reporter is of the campaign as it stands if and only if what was last read is |
| `ReporterRuns.ReadsAreCurrent` | internal/campaign/reporter.go:157-177 | Which it is when a read came since the last commit |
| `ReporterRuns.CommitsKeepReadsCurrent` | internal/campaign/reporter.go:35-43 | And after a commit if and only if it changed nothing watched |
| `ReporterRuns.AFailedReadAtCloseLosesTheChange` | internal/campaign/reporter.go:162-175 | A read that fails while the reporter closes does lose the change |
| `ReporterRuns.ReportsFollowTheReads` | internal/campaign/reporter.go:150-181 | Reports are the reads in order with consecutive equal ones squashed; no two in a row are equal |
| `ReporterRuns.EqualMeansEqual` | internal/campaign/reporter.go:46-55 | Equal is equality |
| `ReporterRuns.ProgressShowsWhileRunning` | internal/campaign/reporter.go:35-43 | Progress is watched exactly while the campaign is running |
| `Reporters.Reporter.Touch` | internal/campaign/reporter.go:116-132 | Opens a window unless one is open or the reporter closed |
| `Reporters.Reporter.Close` | internal/campaign/reporter.go:135-151 | Stops the window still open and fires for it |
| `Reporters.Reporter.Disarm` | internal/campaign/reporter.go:151-156 | fire clears armed before it reads |
| `Reporters.Reporter.Load` | internal/campaign/reporter.go:157-160 | What a read yields |
| `Reporters.Reporter.Finish` | internal/campaign/reporter.go:160-181 | Forgets a deleted campaign, asks again after a failure, or emits a difference |
| `ReporterLaws.SnapshotsAreEqualExactlyWhen` | internal/campaign/reporter.go:33-56 | Two snapshots are equal if and only if id, status, pause reason, contacts and the progress shown are |
| `ReporterLaws.SnapshotsTellTheCampaign` | internal/campaign/reporter.go:35-43 | A snapshot carries the campaign's own status, pause reason, contacts and, while running, progress |
| `ReporterLaws.DeletedCampaignsAreForgotten` | internal/campaign/reporter.go:159-165 | A fire that finds the campaign deleted reports nothing and forgets it |
| `ReporterLaws.EveryWindowCloses` | internal/campaign/reporter.go:116-181 | From every point of every run the reporter comes to rest by its own steps, if its reads succeed |
| `ReporterLaws.TouchedChangesComeThrough` | internal/campaign/reporter.go:76-88 | So from every point of every run of an open reporter a touched change comes through to the last report |
| `ReporterLaws.ClosingReportsTheRest` | internal/campaign/reporter.go:133-148 | And from every point at which no read has just failed Close reports what still waits |
| `AgentRuns.OneAgentPerExtension` | internal/agents/service.go:234-273 | In every run at most one agent is signed in at an extension, each at the one bound to them |
| `AgentRuns.ReadyAgentsHavePhones` | internal/agents/service.go:1031-1045 | After the release pass every READY agent is registered, and stays so through anything but a quiet note of a phone |
| `AgentRuns.SignalsMoveOnlyWhoWantsCalls` | internal/agents/service.go:601-783 | Through any signals of any phones an agent READY or DEVICE_LOST ends as the last (un)registration of their phone says; everybody else keeps state and reason |
| `AgentRuns.LostAndReturned` | internal/agents/service.go:731-783 | UNREGISTERED then REGISTERED restores the state and reason of every signed-in agent not already DEVICE_LOST |
| `AgentRuns.DeviceEventsAreNews` | internal/agents/service.go:671-679 | Two DEVICE events in a row of a phone that has not changed hands tell different things |
| `AgentRuns.SwitchKnowsWhoIsAvailable` | internal/agents/service.go:1047-1200 | While synced the status last mirrored is the derived one: Available exactly for the READY with a phone that answers |
| `AgentRuns.SyncSwitchTellsAll` | internal/agents/service.go:988-1010 | SyncSwitch with the link up gets there |
| `AgentRuns.PresenceKnowsItsPhone` | internal/agents/service.go:1246-1252 | A signed-in presence says what the switch last said of a phone it has spoken of |
| `AgentRuns.ReadyIsRegisteredIfKnown` | internal/agents/service.go:1288-1293 | Without quiet notes the phone of a READY agent is registered, as the switch last said, if and only if the switch ever spoke of it |
| `AgentRuns.AnOldPhoneCanStandIn` | internal/agents/service.go:1246-1252 | Of one it has never spoken of the flags may be an earlier phone's: READY without a registration |
| `AgentLaws.OnlyTheReachableAreAvailable` | internal/agents/state.go:248-260 | In every synced run, of all agents told exactly those stand as Available who are signed in, READY and reachable; the others are On Break if signed in and Logged Out if not |
| `AgentLaws.SignOutIsTold` | internal/agents/service.go:277-287 | In every run with the link up an agent who signs out is told as Logged Out |
| `AgentLaws.RebindIsTold` | internal/agents/service.go:815-845 | Only an agent signed out is given another phone, and is then told as Logged Out; a signed-in one keeps theirs |
| `AgentLaws.ReboundPhonesAreNews` | internal/agents/service.go:815-845 | After a change of phones the next signal about either is published, whatever was told before |
| `AgentLaws.SignalsArePublishedExactlyWhen` | internal/agents/service.go:601-700 | In every run a signal publishes one DEVICE event, saying what it does, to the agent the phone is bound to, if and only if that is news to their stream |
| `AgentLaws.SignsInExactlyWhen` | internal/agents/service.go:234-273 | An agent signs in if and only if signed out and bound to a phone nobody else is signed in at: not ready, with the phone as last spoken of |
| `AgentLaws.RequestsDo` | internal/agents/state.go:147-216 | READY needs a registration, not-ready a reason; after-call work ends in READY or DEVICE_LOST; only a READY agent with a reachable phone is benched |
| `AgentLaws.ReleaseDoes` | internal/agents/service.go:1031-1044 | The release pass moves exactly the READY agents without a registration to DEVICE_LOST and tells the switch |
| `AgentLaws.CallsAreShown` | internal/agents/state.go:219-237 | An observed call shows over every state but signed out, and clears |
| `AgentLaws.WrapUpsAreNoted` | internal/agents/service.go:352-385 | The call last wrapped up is noted until the agent signs out |
| `Agents.Service.LoginAgent` | internal/agents/service.go:234-273 | Signs in at the bound extension if nobody else is there, with the phone as the switch last reported it |
| `Agents.Service.LogoutAgent` | internal/agents/service.go:277-287 | Releases the extension and forgets the last wrap-up |
| `Agents.Service.MakeAgentReady` | internal/agents/service.go:301-314 | READY needs a registration |
| `Agents.Service.MakeAgentNotReady` | internal/agents/service.go:333-337 | Out of routing with a known reason |
| `Agents.Service.BeginAfterCallWork` | internal/agents/service.go:352-385 | The call is noted and after-call work begun |
| `Agents.Service.EndAfterCallWork` | internal/agents/service.go:429-441 | Back to READY, or DEVICE_LOST without a phone; untouched outside a wrap-up |
| `Agents.Service.BenchForNoAnswer` | internal/agents/service.go:470-486 | Only a READY agent with a reachable phone is benched |
| `Agents.Service.SetAgentOnCall` | internal/agents/service.go:491-513 | The observed call, set and cleared |
| `Agents.Service.NoteDevice` | internal/agents/service.go:589-599 | The phone is learned and the switch told nothing |
| `Agents.Service.ObserveDevice` | internal/agents/service.go:601-663 | The phone, the presence, the mirror, the event, then the release or restore |
| `Agents.Service.ClaimAnnouncement` | internal/agents/service.go:671-679 | News if and only if it differs from what was last told |
| `Agents.Service.ReleaseForLostDevice` | internal/agents/service.go:731-744 | READY becomes NOT_READY(DEVICE_LOST) |
| `Agents.Service.RestoreForReturnedDevice` | internal/agents/service.go:770-783 | NOT_READY(DEVICE_LOST) becomes READY |
| `Agents.Service.ReleaseAgentsWithoutPhones` | internal/agents/service.go:1031-1044 | Every READY agent without a registration is released, in any order |
| `Agents.Service.SyncSwitch` | internal/agents/service.go:988-1010 | Every signed-in agent's status told again, in any order |
| `Agents.Service.RebindAgent` | internal/agents/service.go:815-845 | Only a signed-out agent changes phones, and then both phones' streams start afresh; the switch is told of the agent either way |
| `Agents.Service.Apply` | internal/agents/service.go:1047-1075 | A transition applied and mirrored, undone when it cannot be saved, or nothing |
| `Sequences.Sequence.Next` | internal/events/seq.go:44-66 | From the block, from a new block, or in memory when the reservation fails |
| `Sequences.DurableIdsNeverRepeat` | internal/events/seq.go:44-66 | Durable ids never repeat across processes sharing the reserver and strictly rise within each, whatever reservations fail |
| `Sequences.DurableUnlessReservationsFail` | internal/events/seq.go:44-66 | An id is not durable if and only if the block was used up and the reservation failed |
| `Sequences.FallbackIdsMayRepeat` | internal/events/seq.go:54-62 | An in-memory id may be handed out again as a durable one |
| `Sequences.OneProcessCounts` | internal/events/seq.go:44-66 | One process whose reservations succeed counts 1, 2, 3 and on, over one reservation for every 100,000 ids |
| `Sequences.DurableIdsFollow` | internal/events/seq.go:44-66 | A durable id follows the last one or, the block used up, what every block so far reached |

## Left out

- HTTP, SSE, PostgreSQL, the switch's event socket, SIP and RTP sockets, provider
  WebSockets, logs and metrics: events, parameters or ports that may refuse or fail.
- Unicode classes, case folding and the goodbye and question patterns: abstract
  predicates (`ClosingLine.Classes`, `FarewellSteps.Detector`), so nothing is said of the
  wording they recognise.
- Floating-point rounding: coverage, rates and the Wilson bound are over the reals, with
  an exact square root given as a parameter.
- The barge-in guard's clock (audibleSince, audibleUntil), turn latency measurements and
  asides: the guard is a parameter of the event, the others steer nothing modelled.
- PlaybackSteps: the lock is released between bargeIn's flush and its fence; the model
  takes both as one step. MuteNextTurn's muting is modelled, the transcript it hides is
  not.
- Capacity.Window.Set: the code's two arrays of values and ids are one array of pairs.
- Capacity.WindowIsTheLastAnswers: for runs in which no call picks up twice; a repeated
  id makes the code correct whichever of its samples comes first in the ring.
- RateWindows.HeldWhateverTheArrival: for attempts dialled at different instants. Of those
  of one instant that do not all fit, the ties, drawn as they arrive, say which are held;
  that this is a fair sample is not modelled.
- ScheduleLaws.NextOpenIsTheLeastOpen: the offset is fixed over the scanned days.
  Across a transition `WallClock` says what each edge of a range is.
- Schedule.Spans: the local calendar day at noon is taken to exist, as the code's
  comment does; a zone that skips a whole day at noon is not modelled. Ranges arrive
  parsed, or as text that does not parse.
- ClosingLine.FinalSentenceIsTheLast: for a line whose digits are no spaces, with something
  said on both sides of its last terminator.
- ClosingLine.CaseDoesNotMatter: for classes that lower-casing keeps, as Unicode's do.
- PlaybackLaws.DrainedTurnsArePublished: the look is made each time the watcher's ticker
  fires; that the two looks are a frame apart is its clock's.
- WallClock.EveryReadingIsFound: offsets are whole minutes, since the code compares
  wall clocks by the minute.
- Retry.Wait: that nothing leaves int64 is for a normalised policy, the only kind stored.
- FarewellRuns.EachGoodbyeCountsOnce: for turns that finish in order.
- AgentSteps: requests run to completion and their saves do not fail. A change that
  cannot be saved is undone (`Agents.Service.Apply`); the code does not undo a failed
  sign-in, of which nothing is promised. Restore, Roster, deletion, staffing, hold-off
  and the moment a state was entered are not modelled.
- Reporters.Reporter.Close: the fires it makes run as any others do; one campaign is
  followed, since campaigns share no state.
- Sequences.Sequence.Next: ids are unbounded integers, and nothing is promised of the
  in-memory fallback.
- CallActions: looking up the queue of a transfer, taking messages and leads, rescuing and
  handing on the caller, and the wording of what the model is told.
- The claim cue, re-ask and standing-claim half of the claim watch, the turns without a
  tool wall and the session limit's own clock: easy members, they meet the modelled parts
  only as flags of events.
- The breaker, the calling window's validation, contact import, the phone-number and
  day-range parsers, the generated scope tables and the command line.
