/** What an ended call comes to, told from the facts of the call and the numbers of the
    policy (internal/campaign/outcome.go, retry.go and settle.go). */
module SettlementLaws {
  import opened Util
  import opened Subsequences
  import opened Outcomes
  import opened Retry
  import opened Settlement
  import Schedule
  import ScheduleLaws

  //
  // How a call went.
  //

  predicate DidPickUp(e: CallEnd) { e.isAnswered || e.hangupCause == "OVERFLOW" }

  /** Of a call the customer answered, the bot failed when its leg did, when recovery, a
      late answer or a bridge never confirmed ended it, when the channel vanished with no
      bot there, or when the ledger says so and the channel did not vanish. */
  lemma BotFailedExactlyWhen(e: CallEnd)
    ensures Classify(e) == BotFailed <==>
              && e.isAnswered && e.hangupCause != "OVERFLOW"
              && (|| e.botReason == "BOT_LEG_FAILED"
                  || e.hangupCause in {"RECOVERY_ON_TIMER_EXPIRE", "ALLOTTED_TIMEOUT", "BOT_BRIDGE_UNCONFIRMED"}
                  || if e.hangupCause == "CHANNEL_VANISHED" then !e.hasBot else e.isFailed)
    ensures Classify(e) == Overflow <==> e.hangupCause == "OVERFLOW"
    ensures Classify(e) == Answered ==> e.isAnswered
  {
    assert forall cause :: cause in CAUSES ==> !IsAnsweredOutcome(CAUSES[cause]);
  }

  const NOT_ANSWERED := {"NO_ANSWER", "NO_USER_RESPONSE", "ALLOTTED_TIMEOUT"}
  const BAD_NUMBER := {"UNALLOCATED_NUMBER", "INVALID_NUMBER_FORMAT", "NUMBER_CHANGED"}

  /** Of a call nobody answered, the cause alone says whether the customer's line was silent,
      busy, refused or no number, a placement failure or not; a channel that vanished left
      no trace; everything else is a failure of ours, before a channel or after. */
  lemma CausesMean(e: CallEnd)
    requires !DidPickUp(e)
    ensures Classify(e) == NoAnswer <==> e.hangupCause in NOT_ANSWERED
    ensures Classify(e) == Busy <==> e.hangupCause == "USER_BUSY"
    ensures Classify(e) == Rejected <==> e.hangupCause == "CALL_REJECTED"
    ensures Classify(e) == InvalidNumber <==> e.hangupCause in BAD_NUMBER
    ensures Classify(e) == Unknown <==> e.hangupCause == "CHANNEL_VANISHED" && !e.isPlacementFailure
    ensures Classify(e) in {NoAnswer, Busy, Rejected, InvalidNumber, Unknown, Transient, OriginateFailed}
    ensures Classify(e) == OriginateFailed ==> e.isPlacementFailure
    ensures Classify(e) == Transient ==> !e.isPlacementFailure
  {
    CausesOfTheTable(e.hangupCause);
  }

  lemma CausesOfTheTable(cause: string)
    ensures cause in CAUSES && CAUSES[cause] == NoAnswer <==> cause in NOT_ANSWERED
    ensures cause in CAUSES && CAUSES[cause] == Busy <==> cause == "USER_BUSY"
    ensures cause in CAUSES && CAUSES[cause] == Rejected <==> cause == "CALL_REJECTED"
    ensures cause in CAUSES && CAUSES[cause] == InvalidNumber <==> cause in BAD_NUMBER
    ensures cause in CAUSES && CAUSES[cause] == Unknown <==> cause == "CHANNEL_VANISHED"
    ensures cause in CAUSES ==> CAUSES[cause] in {NoAnswer, Busy, Rejected, Unknown, Transient, InvalidNumber}
  {
    assert forall cause :: cause in CAUSES ==>
        CAUSES[cause] in {NoAnswer, Busy, Rejected, Unknown, Transient, InvalidNumber};
  }

  //
  // What the call does to its contact.
  //

  /** The policy's own interval, or two hours, half an hour, a day and a day. */
  function StatedWaitSec(p: RetryPolicy, o: Outcome): int
    requires o in {NoAnswer, Busy, Rejected, Unknown}
  {
    if o in p.intervalSec then p.intervalSec[o]
    else if o == NoAnswer then 7200
    else if o == Busy then 1800
    else 86400
  }

  /** After an outcome that reached the line the contact waits the policy's interval, or the
      default where it states none; after the n-th failure of ours, base times factor to
      the n-1 seconds, at most the cap. */
  lemma TheWaitIsStated(p: RetryPolicy, c: Counters, o: Outcome, lead: Lead)
    requires Decide(p, c, o, lead).Again?
    ensures o in {NoAnswer, Busy, Rejected, Unknown, Transient, OriginateFailed}
    ensures o in {NoAnswer, Busy, Rejected, Unknown} ==>
              Decide(p, c, o, lead).wait == StatedWaitSec(p, o) * 1_000_000_000
    ensures o in {Transient, OriginateFailed} && IsBackoff(p.transientBackoff) && c.systemFailures >= 1 ==>
              var b := p.transientBackoff;
              Decide(p, c, o, lead).wait ==
              Min(b.baseSec * 1_000_000_000 * Pow(b.factor, c.systemFailures - 1), b.capSec * 1_000_000_000)
  {
    if o in {Transient, OriginateFailed} && IsBackoff(p.transientBackoff) && c.systemFailures >= 1 {
      GrownIsAPower(p.transientBackoff, c.systemFailures - 1);
      WaitIsCappedGrowth(p.transientBackoff, c.systemFailures);
    }
  }

  /** Where every contact ends, from the call's facts: a lead decides alone; then a number
      that cannot be dialled; then an answer; and of the rest, one not retried or out of
      budget is exhausted and any other stays active. */
  lemma EveryContactEndsWhere(p: RetryPolicy, c: Counters, e: CallEnd, lead: Lead)
    ensures var d := Decide(p, c, Classify(e), lead);
            && (d.End? && d.status == OnDnc <==> lead == DoNotCall)
            && (d.End? && d.status == Done <==>
                  lead !in {NoLead, DoNotCall} || (lead == NoLead && DidPickUp(e)))
            && (d.End? && d.status == BadNumber <==>
                  lead == NoLead && !DidPickUp(e) && e.hangupCause in BAD_NUMBER)
            && (d.End? && d.status == Exhausted ==>
                  || Classify(e) !in p.retryOutcomes
                  || (if Classify(e) in {Transient, OriginateFailed} then c.systemFailures >= p.maxSystemRetries
                      else c.attempts >= p.maxAttempts))
            && (d.Again? ==> lead == NoLead && !DidPickUp(e) && Classify(e) in p.retryOutcomes)
  {
    AnsweredIsAnswered(e);
    if !DidPickUp(e) {
      CausesMean(e);
    }
  }

  /** A skip by the do-not-call list, which is no call, ends the contact on it. */
  lemma SkippedIsOnDnc(p: RetryPolicy, c: Counters, lead: Lead)
    ensures var d := Decide(p, c, DncSkipped, lead);
            d.End? && d.status == if lead in {NoLead, DoNotCall} then OnDnc else Done
  {
  }

  /** A contact left active is due no sooner than the stated wait after the call ended, and
      from there at the least instant its schedule is open. */
  lemma DueNoSoonerThanStated(p: RetryPolicy, c: Counters, o: Outcome, finishedAt: int, s: Schedule.Schedule,
                              next: int, off: int)
    requires o in {NoAnswer, Busy, Rejected, Unknown} && Decide(p, c, o, NoLead).Again?
    requires IsDue(s, finishedAt + Decide(p, c, o, NoLead).wait, next) && Schedule.IsSchedule(s)
    requires ScheduleLaws.FixedAround(s.zone, finishedAt + Decide(p, c, o, NoLead).wait, off)
    ensures var due := finishedAt + StatedWaitSec(p, o) * 1_000_000_000;
            && due <= next
            && (ScheduleLaws.OpenAt(s, due + off) ==> next == due)
            && forall y :: due + off <= y < next + off ==> !ScheduleLaws.OpenAt(s, y)
  {
    TheWaitIsStated(p, c, o, NoLead);
    NextAttemptIsTheLeastOpen(s, finishedAt + Decide(p, c, o, NoLead).wait, next, off);
  }

  //
  // The default policy over a whole run.
  //

  /** Four failures of ours in a row wait 5, 15, 45 and 135 minutes; the fifth is the last. */
  lemma FailuresUnderTheDefaults(n: nat)
    requires n >= 1
    ensures var d := Decide(DEFAULT, CountersOf(seq(n, i => Transient)), Transient, NoLead);
            if n < 5 then d == Again([300, 900, 2700, 8100][n - 1] * 1_000_000_000)
            else d == End(Exhausted, BudgetSpent)
  {
    FailuresCount(n);
    if n < 5 {
      assert Pow(3, 0) == 1 && Pow(3, 1) == 3 && Pow(3, 2) == 9 && Pow(3, 3) == 27;
    }
  }

  lemma {:induction false} FailuresCount(n: nat)
    ensures CountersOf(seq(n, i => Transient)) == Counters(0, n)
  {
    if n > 0 {
      FailuresCount(n - 1);
      assert seq(n, i => Transient)[..n - 1] == seq(n - 1, i => Transient);
    }
  }

  /** A line that never answers is tried again two hours later, twice. */
  lemma SilenceUnderTheDefaults(n: nat)
    requires n >= 1
    ensures var d := Decide(DEFAULT, CountersOf(seq(n, i => NoAnswer)), NoAnswer, NoLead);
            if n < 3 then d == Again(7200 * 1_000_000_000) else d == End(Exhausted, BudgetSpent)
  {
    SilenceCounts(n);
  }

  lemma {:induction false} SilenceCounts(n: nat)
    ensures CountersOf(seq(n, i => NoAnswer)) == Counters(n, 0)
  {
    if n > 0 {
      SilenceCounts(n - 1);
      assert seq(n, i => NoAnswer)[..n - 1] == seq(n - 1, i => NoAnswer);
    }
  }

  /** No wait passes the cap, whatever the backoff. */
  lemma WaitsStayUnderTheCap(b: Backoff, n: int)
    ensures WaitOf(b, n) <= b.capSec * 1_000_000_000
  {
  }

  //
  // What Normalize accepts and keeps.
  //

  /** A policy is accepted exactly when every number it states is within limits; what it
      leaves out, the defaults make good. */
  lemma AcceptableExactlyWhen(p: RetryPolicy)
    ensures var b := p.transientBackoff;
            IsAcceptable(p) <==>
              && 1 <= p.maxAttempts <= 20 && 0 <= p.maxSystemRetries <= 50
              && (forall o :: o in p.retryOutcomes ==>
                    o in {NoAnswer, Busy, Rejected, Unknown, Transient, OriginateFailed})
              && (forall o :: o in p.intervalSec ==>
                    o in {NoAnswer, Busy, Rejected, Unknown} && 60 <= p.intervalSec[o] <= 2_592_000)
              && (|| b == Backoff(0, 0, 0)
                  || (1 <= b.baseSec <= b.capSec <= 86_400 && 1 <= b.factor <= 10))
  {
    forall o | o in REACHED
      ensures IsInterval(IntervalAfter(p, o)) <==> o in p.intervalSec ==> 60 <= p.intervalSec[o] <= 2_592_000
    {
    }
    assert forall o :: o in {NoAnswer, Busy, Rejected, Unknown} <==> o in REACHED;
  }

  /** Normalising keeps the outcomes in the order of their first mention: whatever is
      appended to a list comes after what the list kept. */
  lemma {:induction false} FirstsKeepTheOrder(outcomes: seq<Outcome>, n: nat)
    requires n <= |outcomes|
    ensures Firsts(outcomes[..n]) <= Firsts(outcomes)
    ensures Subsequence(Firsts(outcomes), outcomes)
    decreases |outcomes|
  {
    if outcomes != [] {
      var last := |outcomes| - 1;
      FirstsKeepTheOrder(outcomes[..last], if n <= last then n else last);
      if n <= last {
        assert outcomes[..last][..n] == outcomes[..n];
      } else {
        assert outcomes[..n] == outcomes;
      }
      var before := Firsts(outcomes[..last]);
      if Firsts(outcomes) != before {
        assert Firsts(outcomes)[..|before|] == before;
      }
    }
  }
}
