/** How an attempt ended and what it costs (internal/campaign/outcome.go and the
    counters of internal/campaign/settle.go). */
module Outcomes {
  import opened Util

  datatype Outcome = Answered | BotFailed | Overflow | NoAnswer | Busy | Rejected | Unknown
                   | Transient | OriginateFailed | InvalidNumber | DncSkipped

  const OVERFLOW := "OVERFLOW"
  const LATE_ANSWER := "ALLOTTED_TIMEOUT"
  const RECOVERY := "RECOVERY_ON_TIMER_EXPIRE"
  const VANISHED := "CHANNEL_VANISHED"
  const BRIDGE_UNCONFIRMED := "BOT_BRIDGE_UNCONFIRMED"
  const BOT_LEG_FAILED := "BOT_LEG_FAILED"

  const CAUSES: map<string, Outcome> := map[
    "NO_ANSWER" := NoAnswer, "NO_USER_RESPONSE" := NoAnswer, LATE_ANSWER := NoAnswer,
    "USER_BUSY" := Busy, "CALL_REJECTED" := Rejected, VANISHED := Unknown,
    "NORMAL_TEMPORARY_FAILURE" := Transient, "NETWORK_OUT_OF_ORDER" := Transient, RECOVERY := Transient,
    "SWITCH_CONGESTION" := Transient, "NORMAL_CIRCUIT_CONGESTION" := Transient,
    "UNALLOCATED_NUMBER" := InvalidNumber, "INVALID_NUMBER_FORMAT" := InvalidNumber, "NUMBER_CHANGED" := InvalidNumber]

  /** What a finished call tells about how it went. */
  datatype CallEnd = CallEnd(hangupCause: string, isAnswered: bool, isFailed: bool, hasBot: bool,
                             botReason: string, isPlacementFailure: bool)

  predicate IsCustomerSide(o: Outcome) { o in {NoAnswer, Busy, Rejected, InvalidNumber} }

  function Classify(e: CallEnd): Outcome {
    if e.hangupCause == OVERFLOW then Overflow
    else if e.isAnswered then
      if e.botReason == BOT_LEG_FAILED then BotFailed
      else if e.hangupCause in [RECOVERY, LATE_ANSWER, BRIDGE_UNCONFIRMED] then BotFailed
      else if e.hangupCause == VANISHED then (if e.hasBot then Answered else BotFailed)
      else if e.isFailed then BotFailed
      else Answered
    else
      var mapped := if e.hangupCause in CAUSES then Some(CAUSES[e.hangupCause]) else None;
      if e.isPlacementFailure then
        if mapped.Some? && IsCustomerSide(mapped.value) then mapped.value else OriginateFailed
      else if mapped.Some? then mapped.value
      else Transient
  }

  predicate IsAnsweredOutcome(o: Outcome) { o == Answered || o == BotFailed || o == Overflow }

  datatype Class = NotCounted | Reached | System

  function ClassOf(o: Outcome): Class {
    match o
    case Answered | BotFailed | Overflow | NoAnswer | Busy | Rejected | Unknown => Reached
    case Transient | OriginateFailed => System
    case InvalidNumber | DncSkipped => NotCounted
  }

  /** A call ends in an answered outcome exactly when the customer picked up, which the
      overflow cause says too; then it is never an outcome that is dialled again. */
  lemma AnsweredIsAnswered(e: CallEnd)
    ensures IsAnsweredOutcome(Classify(e)) <==> e.isAnswered || e.hangupCause == OVERFLOW
    ensures IsAnsweredOutcome(Classify(e)) ==> ClassOf(Classify(e)) == Reached
  {
    assert forall cause :: cause in CAUSES ==> !IsAnsweredOutcome(CAUSES[cause]);
  }

  /** A placement failure keeps what the cause says of the customer's line and nothing
      else; only it is ORIGINATE_FAILED. A cause about the network, or one the table
      lacks, costs a system retry and never an attempt. */
  lemma FailuresOfOurOwnAreNotAttempts(e: CallEnd)
    requires !e.isAnswered && e.hangupCause != OVERFLOW
    ensures Classify(e) == OriginateFailed <==>
              e.isPlacementFailure && !(e.hangupCause in CAUSES && IsCustomerSide(CAUSES[e.hangupCause]))
    ensures ClassOf(Classify(e)) == System <==>
              (e.hangupCause in CAUSES ==>
                 CAUSES[e.hangupCause] == Transient || (CAUSES[e.hangupCause] == Unknown && e.isPlacementFailure))
    ensures Classify(e) in {NoAnswer, Busy, Rejected, Unknown, InvalidNumber} ==>
              e.hangupCause in CAUSES && Classify(e) == CAUSES[e.hangupCause]
  {
    assert forall cause :: cause in CAUSES ==>
        CAUSES[cause] in {NoAnswer, Busy, Rejected, Unknown, Transient, InvalidNumber};
  }

  //
  // Counters.
  //

  /** A contact's two budgets, spent. */
  datatype Counters = Counters(attempts: int, systemFailures: int)

  function Add(c: Counters, o: Outcome): Counters {
    match ClassOf(o)
    case Reached => c.(attempts := c.attempts + 1)
    case System => c.(systemFailures := c.systemFailures + 1)
    case NotCounted => c
  }

  function Remove(c: Counters, o: Outcome): Counters {
    match ClassOf(o)
    case Reached => c.(attempts := Max(0, c.attempts - 1))
    case System => c.(systemFailures := Max(0, c.systemFailures - 1))
    case NotCounted => c
  }

  /** An attempt ends, or a fuller CDR replaces the outcome of an earlier one. */
  datatype Report = Ended(outcome: Outcome) | Revised(attempt: nat, outcome: Outcome)

  datatype Ledger = Ledger(outcomes: seq<Outcome>, counters: Counters)

  /** A report about an attempt nobody made changes nothing. */
  function Take(l: Ledger, report: Report): Ledger {
    match report
    case Ended(o) => Ledger(l.outcomes + [o], Add(l.counters, o))
    case Revised(i, o) =>
      if i >= |l.outcomes| then l
      else Ledger(l.outcomes[i := o], Add(Remove(l.counters, l.outcomes[i]), o))
  }

  function Account(reports: seq<Report>): Ledger
    decreases |reports|
  {
    if reports == [] then Ledger([], Counters(0, 0))
    else Take(Account(reports[..|reports| - 1]), reports[|reports| - 1])
  }

  function Tally(outcomes: seq<Outcome>, kind: Class): nat
    decreases |outcomes|
  {
    if outcomes == [] then 0
    else Tally(outcomes[..|outcomes| - 1], kind) + if ClassOf(outcomes[|outcomes| - 1]) == kind then 1 else 0
  }

  lemma {:induction false} TallyUpdate(outcomes: seq<Outcome>, i: nat, o: Outcome, kind: Class)
    requires i < |outcomes|
    ensures Tally(outcomes[i := o], kind) ==
            Tally(outcomes, kind)
            - (if ClassOf(outcomes[i]) == kind then 1 else 0) + (if ClassOf(o) == kind then 1 else 0)
    decreases |outcomes|
  {
    var last := |outcomes| - 1;
    if i == last {
      assert outcomes[i := o][..last] == outcomes[..last];
    } else {
      assert outcomes[i := o][..last] == outcomes[..last][i := o];
      TallyUpdate(outcomes[..last], i, o, kind);
    }
  }

  lemma {:induction false} TallyHas(outcomes: seq<Outcome>, i: nat)
    requires i < |outcomes|
    ensures Tally(outcomes, ClassOf(outcomes[i])) > 0
    decreases |outcomes|
  {
    if i < |outcomes| - 1 {
      TallyHas(outcomes[..|outcomes| - 1], i);
    }
  }

  /** After any attempts and revisions the counters are the tally, by class, of each
      attempt's latest outcome. */
  lemma {:induction false} CountersAreTheTally(reports: seq<Report>)
    ensures var l := Account(reports);
            l.counters == Counters(Tally(l.outcomes, Reached), Tally(l.outcomes, System))
    decreases |reports|
  {
    if reports != [] {
      var before, report := reports[..|reports| - 1], reports[|reports| - 1];
      CountersAreTheTally(before);
      var l := Account(before);
      match report {
        case Ended(o) =>
          assert (l.outcomes + [o])[..|l.outcomes|] == l.outcomes;
        case Revised(i, o) =>
          if i < |l.outcomes| {
            TallyHas(l.outcomes, i);
            TallyUpdate(l.outcomes, i, o, Reached);
            TallyUpdate(l.outcomes, i, o, System);
          }
      }
    }
  }

  /** So a revision never meets the floor: Remove gives back exactly what Add spent. */
  lemma FloorIsNeverHit(reports: seq<Report>, i: nat)
    requires i < |Account(reports).outcomes|
    ensures var l := Account(reports);
            Add(Remove(l.counters, l.outcomes[i]), l.outcomes[i]) == l.counters
  {
    CountersAreTheTally(reports);
    TallyHas(Account(reports).outcomes, i);
  }
}
