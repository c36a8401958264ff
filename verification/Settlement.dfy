/** What an ended attempt does to its contact (Settle in internal/campaign/settle.go). */
module Settlement {
  import opened Util
  import opened Outcomes
  import opened Retry
  import Schedule
  import ScheduleLaws
  import WallClock

  /** What a call concluded about the customer, if it recorded anything. */
  datatype Lead = NoLead | High | Medium | Low | Unqualified | DoNotCall

  datatype Status = Active | Done | OnDnc | BadNumber | Exhausted

  datatype Reason = LeadDoNotCall | LeadRecorded | NumberIsInvalid | SkippedByDnc | WasAnswered
                  | NotRetried | BudgetSpent | Retried

  datatype Settlement = Settlement(status: Status, reason: Reason, nextAttemptAt: Option<int>)

  /** The decision before the schedule is asked: an end, or a wait. */
  datatype Decision = End(status: Status, reason: Reason) | Again(wait: int)

  /** IntervalSec of a map without the outcome reads zero. */
  function IntervalSec(p: RetryPolicy, o: Outcome): int {
    if o in p.intervalSec then p.intervalSec[o]
    else if o in DEFAULT.intervalSec then DEFAULT.intervalSec[o]
    else 0
  }

  function Decide(p: RetryPolicy, c: Counters, o: Outcome, lead: Lead): Decision {
    if lead == DoNotCall then End(OnDnc, LeadDoNotCall)
    else if lead != NoLead then End(Done, LeadRecorded)
    else if o == InvalidNumber then End(BadNumber, NumberIsInvalid)
    else if o == DncSkipped then End(OnDnc, SkippedByDnc)
    else if IsAnsweredOutcome(o) then End(Done, WasAnswered)
    else if o !in p.retryOutcomes then End(Exhausted, NotRetried)
    else
      match ClassOf(o)
      case Reached =>
        if c.attempts >= p.maxAttempts then End(Exhausted, BudgetSpent) else Again(IntervalSec(p, o) * SECOND)
      case System =>
        if c.systemFailures >= p.maxSystemRetries then End(Exhausted, BudgetSpent)
        else Again(WaitOf(p.transientBackoff, c.systemFailures))
      case NotCounted => End(Exhausted, NotRetried)
  }

  /** Settle: the contact ends as decided, or stays ACTIVE, due at the end of the call plus
      the wait or, moved into the schedule, at its next opening. */
  method Settle(p: RetryPolicy, c: Counters, o: Outcome, lead: Lead, finishedAt: int, s: Schedule.Schedule)
      returns (r: Settlement)
    ensures match Decide(p, c, o, lead)
            case End(status, reason) => r == Settlement(status, reason, None)
            case Again(wait) =>
              && r.status == Active && r.reason == Retried && r.nextAttemptAt.Some?
              && IsDue(s, finishedAt + wait, r.nextAttemptAt.value)
  {
    if lead == DoNotCall {
      return Settlement(OnDnc, LeadDoNotCall, None);
    }
    if lead != NoLead {
      return Settlement(Done, LeadRecorded, None);
    }
    if o == InvalidNumber {
      return Settlement(BadNumber, NumberIsInvalid, None);
    }
    if o == DncSkipped {
      return Settlement(OnDnc, SkippedByDnc, None);
    }
    if IsAnsweredOutcome(o) {
      return Settlement(Done, WasAnswered, None);
    }
    if o !in p.retryOutcomes {
      return Settlement(Exhausted, NotRetried, None);
    }
    var wait: int;
    match ClassOf(o) {
      case Reached =>
        if c.attempts >= p.maxAttempts {
          return Settlement(Exhausted, BudgetSpent, None);
        }
        wait := IntervalSec(p, o) * SECOND;
      case System =>
        if c.systemFailures >= p.maxSystemRetries {
          return Settlement(Exhausted, BudgetSpent, None);
        }
        wait := Wait(p.transientBackoff, c.systemFailures);
      case NotCounted =>
        return Settlement(Exhausted, NotRetried, None);
    }
    var due := MoveIntoSchedule(s, finishedAt + wait);
    return Settlement(Active, Retried, Some(due));
  }

  /** next is due, moved to where the schedule opens if it does. */
  ghost predicate IsDue(s: Schedule.Schedule, due: int, next: int) {
    exists open :: Schedule.IsNextOpen(s, due, open) && next == if open.Some? then open.value else due
  }

  method MoveIntoSchedule(s: Schedule.Schedule, due: int) returns (next: int)
    ensures IsDue(s, due, next)
  {
    var open := Schedule.NextOpen(s, due);
    return if open.Some? then open.value else due;
  }

  /** A contact is dialled again exactly when no lead was recorded, the customer's line did
      not answer, the policy retries the outcome and its budget is not spent. */
  lemma DialledAgainExactlyWhen(p: RetryPolicy, c: Counters, o: Outcome, lead: Lead)
    ensures Decide(p, c, o, lead).Again? <==>
              && lead == NoLead && o in p.retryOutcomes && IsRetryable(o)
              && (if o in REACHED then c.attempts < p.maxAttempts else c.systemFailures < p.maxSystemRetries)
  {
    assert o in REACHED <==> ClassOf(o) == Reached && !IsAnsweredOutcome(o);
    assert o in SYSTEM <==> ClassOf(o) == System;
  }

  /** A call the customer answered never leaves a next attempt, under any policy, lead or
      counters; nor does one that recorded a lead. */
  lemma AnsweredIsNeverDialledAgain(p: RetryPolicy, c: Counters, e: CallEnd, lead: Lead)
    requires e.isAnswered || e.hangupCause == OVERFLOW || lead != NoLead
    ensures Decide(p, c, Classify(e), lead).End?
    ensures Decide(p, c, Classify(e), lead).status in {Done, OnDnc}
  {
    AnsweredIsAnswered(e);
  }

  /** Normalising a policy changes no decision, except that a backoff left out waits as the
      default does. */
  lemma NormalizingChangesNoDecision(p: RetryPolicy, c: Counters, o: Outcome, lead: Lead)
    requires IsAcceptable(p)
    ensures p.transientBackoff != Backoff(0, 0, 0) ==> Decide(Normalized(p), c, o, lead) == Decide(p, c, o, lead)
    ensures Decide(Normalized(p), c, o, lead).End? <==> Decide(p, c, o, lead).End?
    ensures Decide(p, c, o, lead).End? ==> Decide(Normalized(p), c, o, lead) == Decide(p, c, o, lead)
  {
    NormalizingKeepsOutcome(p, o);
  }

  /** What Decide reads of the policy about one outcome. */
  lemma NormalizingKeepsOutcome(p: RetryPolicy, o: Outcome)
    requires IsAcceptable(p)
    ensures o in Normalized(p).retryOutcomes <==> o in p.retryOutcomes
    ensures ClassOf(o) == Reached && !IsAnsweredOutcome(o) ==> IntervalSec(Normalized(p), o) == IntervalSec(p, o)
  {
    FirstsKeepTheOutcomes(p.retryOutcomes);
    if ClassOf(o) == Reached && !IsAnsweredOutcome(o) {
      assert o in REACHED;
      NormalizedInterval(p, o);
    }
  }

  lemma NormalizedInterval(p: RetryPolicy, o: Outcome)
    requires o in REACHED
    ensures IntervalSec(Normalized(p), o) == IntervalSec(p, o)
  {
    assert Normalized(p).intervalSec[o] == IntervalAfter(p, o);
  }

  //
  // Runs of attempts.
  //

  /** How many of the attempts, settled one after another with their counters, leave the
      contact ACTIVE by a reached outcome, or by a system one. */
  function ActiveAttempts(p: RetryPolicy, outcomes: seq<Outcome>, leads: seq<Lead>, kind: Class): nat
    requires |leads| == |outcomes|
    decreases |outcomes|
  {
    if outcomes == [] then 0
    else
      var last := |outcomes| - 1;
      ActiveAttempts(p, outcomes[..last], leads[..last], kind)
      + if ClassOf(outcomes[last]) == kind && Decide(p, CountersOf(outcomes), outcomes[last], leads[last]).Again? then 1
        else 0
  }

  function CountersOf(outcomes: seq<Outcome>): Counters
    decreases |outcomes|
  {
    if outcomes == [] then Counters(0, 0) else Add(CountersOf(outcomes[..|outcomes| - 1]), outcomes[|outcomes| - 1])
  }

  lemma {:induction false} ActiveAttemptsAreBounded(p: RetryPolicy, outcomes: seq<Outcome>, leads: seq<Lead>)
    requires |leads| == |outcomes|
    ensures var c := CountersOf(outcomes);
            && 0 <= c.attempts && 0 <= c.systemFailures
            && ActiveAttempts(p, outcomes, leads, Reached) <= Min(c.attempts, Max(p.maxAttempts - 1, 0))
            && ActiveAttempts(p, outcomes, leads, System) <= Min(c.systemFailures, Max(p.maxSystemRetries - 1, 0))
            && ActiveAttempts(p, outcomes, leads, NotCounted) == 0
    decreases |outcomes|
  {
    if outcomes != [] {
      ActiveAttemptsAreBounded(p, outcomes[..|outcomes| - 1], leads[..|leads| - 1]);
    }
  }

  /** The attempts after which the contact is dialled again. */
  function Redials(p: RetryPolicy, outcomes: seq<Outcome>, leads: seq<Lead>): nat
    requires |leads| == |outcomes|
    decreases |outcomes|
  {
    if outcomes == [] then 0
    else
      var last := |outcomes| - 1;
      Redials(p, outcomes[..last], leads[..last])
      + if Decide(p, CountersOf(outcomes), outcomes[last], leads[last]).Again? then 1 else 0
  }

  lemma {:induction false} RedialsByClass(p: RetryPolicy, outcomes: seq<Outcome>, leads: seq<Lead>)
    requires |leads| == |outcomes|
    ensures Redials(p, outcomes, leads) ==
            ActiveAttempts(p, outcomes, leads, Reached) + ActiveAttempts(p, outcomes, leads, System)
    decreases |outcomes|
  {
    if outcomes != [] {
      RedialsByClass(p, outcomes[..|outcomes| - 1], leads[..|leads| - 1]);
    }
  }

  /** Dialling ends: however attempts go, at most maxAttempts - 1 reached ones and
      maxSystemRetries - 1 system ones leave the contact ACTIVE. */
  lemma DiallingEnds(p: RetryPolicy, outcomes: seq<Outcome>, leads: seq<Lead>)
    requires |leads| == |outcomes|
    ensures Redials(p, outcomes, leads) <= Max(p.maxAttempts - 1, 0) + Max(p.maxSystemRetries - 1, 0)
  {
    ActiveAttemptsAreBounded(p, outcomes, leads);
    RedialsByClass(p, outcomes, leads);
  }

  /** The bound is reached: a contact never answered and never failed rings maxAttempts
      times. */
  lemma {:induction false} TheBoundIsReached(p: RetryPolicy, n: nat)
    requires NoAnswer in p.retryOutcomes && n < p.maxAttempts
    ensures var outcomes, leads := seq(n, i => NoAnswer), seq(n, i => NoLead);
            Redials(p, outcomes, leads) == n && CountersOf(outcomes) == Counters(n, 0)
  {
    if n > 0 {
      TheBoundIsReached(p, n - 1);
      assert seq(n, i => NoAnswer)[..n - 1] == seq(n - 1, i => NoAnswer);
      assert seq(n, i => NoLead)[..n - 1] == seq(n - 1, i => NoLead);
    }
  }

  //
  // When the next attempt is.
  //

  /** The next attempt is at the least open instant at or after the end of the call plus
      the wait; only a contact whose schedule never opens is due at once. */
  lemma NextAttemptIsTheLeastOpen(s: Schedule.Schedule, due: int, next: int, off: int)
    requires ScheduleLaws.FixedAround(s.zone, due, off) && Schedule.IsSchedule(s) && IsDue(s, due, next)
    ensures due <= next && forall y :: due + off <= y < next + off ==> !ScheduleLaws.OpenAt(s, y)
    ensures ScheduleLaws.OpenAt(s, next + off) <==> exists y :: ScheduleLaws.OpenAt(s, y)
  {
    var open :| Schedule.IsNextOpen(s, due, open) && next == if open.Some? then open.value else due;
    ScheduleLaws.NothingFoundMeansNeverOpen(s, due, open, off);
    if open.Some? {
      ScheduleLaws.NextOpenIsTheLeastOpen(s, due, next, off);
    }
  }
}
