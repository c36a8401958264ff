/** What happens to a contact after an attempt that did not settle it
    (internal/campaign/retry.go and Backoff.Wait in internal/campaign/settle.go). */
module Retry {
  import opened Util
  import opened Outcomes

  const SECOND := 1_000_000_000
  const MAX_MAX_ATTEMPTS := 20
  const MAX_MAX_SYSTEM_RETRIES := 50
  const MIN_INTERVAL_SEC := 60
  const MAX_INTERVAL_SEC := 30 * 24 * 3600
  const MAX_BACKOFF_FACTOR := 10
  const MAX_BACKOFF_CAP_SEC := 24 * 3600
  const MAX_INT64 := 0x7fff_ffff_ffff_ffff

  datatype Backoff = Backoff(baseSec: int, factor: int, capSec: int)

  datatype RetryPolicy = RetryPolicy(maxAttempts: int, maxSystemRetries: int, retryOutcomes: seq<Outcome>,
                                     intervalSec: map<Outcome, int>, transientBackoff: Backoff)

  const REACHED := [NoAnswer, Busy, Rejected, Unknown]
  const SYSTEM := [Transient, OriginateFailed]

  const DEFAULT := RetryPolicy(3, 5, [NoAnswer, Busy, Rejected, Unknown, Transient, OriginateFailed],
                               map[NoAnswer := 2 * 3600, Busy := 30 * 60, Rejected := 24 * 3600, Unknown := 24 * 3600],
                               Backoff(300, 3, 4 * 3600))

  //
  // Backoff.
  //

  function Pow(b: int, n: nat): int { if n == 0 then 1 else b * Pow(b, n - 1) }

  predicate IsBackoff(b: Backoff) {
    && 1 <= b.baseSec <= MAX_BACKOFF_CAP_SEC && 1 <= b.factor <= MAX_BACKOFF_FACTOR
    && b.baseSec <= b.capSec <= MAX_BACKOFF_CAP_SEC
  }

  /** The delay before retry n, in nanoseconds: base times factor to the n-1, capped. A
      factor of one or less does not lengthen it, and a base at the cap is not multiplied. */
  function WaitOf(b: Backoff, n: int): int {
    if b.baseSec >= b.capSec then b.capSec * SECOND
    else
      Min(b.baseSec * SECOND * Pow(Max(b.factor, 1), if n > 1 then n - 1 else 0), b.capSec * SECOND)
  }

  /** The wait before it is capped, as the loop grows it. */
  function Grown(b: Backoff, k: nat): int {
    if k == 0 then b.baseSec * SECOND else Grown(b, k - 1) * Max(b.factor, 1)
  }

  lemma {:induction false} GrownIsAPower(b: Backoff, k: nat)
    ensures Grown(b, k) == b.baseSec * SECOND * Pow(Max(b.factor, 1), k)
  {
    if k > 0 {
      GrownIsAPower(b, k - 1);
      var f, x := Max(b.factor, 1), b.baseSec * SECOND;
      assert x * Pow(f, k - 1) * f == x * (f * Pow(f, k - 1));
    }
  }

  lemma ScalesUp(w: int, f: int)
    requires w >= 0 && f >= 1
    ensures w <= w * f
  {
    assert w * f - w == w * (f - 1);
  }

  lemma {:induction false} GrowthIsMonotone(b: Backoff, k: nat, m: nat)
    requires b.baseSec >= 0 && k <= m
    ensures 0 <= Grown(b, k) <= Grown(b, m)
    ensures b.factor <= 1 ==> Grown(b, k) == Grown(b, m)
    decreases m
  {
    if m > 0 {
      GrowthIsMonotone(b, if k < m then k else m - 1, m - 1);
      ScalesUp(Grown(b, m - 1), Max(b.factor, 1));
    }
  }

  /** A base below zero only falls, and never reaches a cap it is below. */
  lemma {:induction false} NegativeBasesFall(b: Backoff, k: nat)
    requires b.baseSec < 0
    ensures Grown(b, k) <= b.baseSec * SECOND
    ensures b.factor <= 1 ==> Grown(b, k) == b.baseSec * SECOND
  {
    if k > 0 {
      NegativeBasesFall(b, k - 1);
      ScalesUp(-Grown(b, k - 1), Max(b.factor, 1));
      assert -Grown(b, k - 1) * Max(b.factor, 1) == -Grown(b, k);
    }
  }

  /** Where the loop stops short the wait is what it would have come to. */
  lemma StoppedShort(b: Backoff, k: nat, last: nat)
    requires k <= last
    requires k == last || Grown(b, k) >= b.capSec * SECOND || b.factor <= 1
    requires b.baseSec >= b.capSec ==> k == 0
    ensures Min(Grown(b, k), b.capSec * SECOND) ==
            if b.baseSec >= b.capSec then b.capSec * SECOND else Min(Grown(b, last), b.capSec * SECOND)
  {
    if b.baseSec >= 0 {
      GrowthIsMonotone(b, 0, k);
      GrowthIsMonotone(b, k, last);
    } else {
      NegativeBasesFall(b, k);
      NegativeBasesFall(b, last);
    }
  }

  /** Backoff.Wait. Nothing it computes for a policy that was normalised leaves int64. */
  method Wait(b: Backoff, n: int) returns (wait: int)
    ensures wait == WaitOf(b, n)
  {
    var capped := b.capSec * SECOND;
    wait := b.baseSec * SECOND;
    ghost var last := if n > 1 then n - 1 else 0;
    GrownIsAPower(b, last);
    var i := 1;
    while i < n
      invariant 1 <= i <= last + 1
      invariant wait == Grown(b, i - 1)
      invariant b.baseSec >= b.capSec ==> i == 1
      invariant IsBackoff(b) ==> 0 <= wait <= MAX_INT64
    {
      if wait >= capped || b.factor <= 1 {
        break;
      }
      ghost var was := wait;
      wait := wait * b.factor;
      if IsBackoff(b) {
        FitsInt64(b, was);
      }
      i := i + 1;
    }
    StoppedShort(b, i - 1, last);
    return Min(wait, capped);
  }

  lemma FitsInt64(b: Backoff, wait: int)
    requires IsBackoff(b) && 0 <= wait < b.capSec * SECOND
    ensures 0 <= wait * b.factor <= MAX_INT64
  {
    assert 0 <= wait * b.factor <= wait * MAX_BACKOFF_FACTOR;
  }

  lemma CappedGrowth(w: int, f: int, cap: int)
    requires w >= 0 && f >= 1 && cap >= 0
    ensures Min(w, cap) <= Min(w * f, cap) == Min(Min(w, cap) * f, cap)
  {
    ScalesUp(w, f);
    ScalesUp(cap, f);
  }

  lemma WaitIsCappedGrowth(b: Backoff, n: int)
    requires IsBackoff(b) && n >= 1
    ensures WaitOf(b, n) == Min(Grown(b, n - 1), b.capSec * SECOND)
  {
    GrownIsAPower(b, n - 1);
    GrowthIsMonotone(b, 0, n - 1);
  }

  /** Every further retry waits factor times as long as the one before, until the cap. */
  lemma WaitsGrowByTheFactor(b: Backoff, n: int)
    requires IsBackoff(b) && n >= 1
    ensures WaitOf(b, 1) == b.baseSec * SECOND
    ensures WaitOf(b, n) <= WaitOf(b, n + 1) == Min(WaitOf(b, n) * b.factor, b.capSec * SECOND)
  {
    WaitIsCappedGrowth(b, 1);
    WaitIsCappedGrowth(b, n);
    WaitIsCappedGrowth(b, n + 1);
    GrowthIsMonotone(b, 0, n - 1);
    CappedGrowth(Grown(b, n - 1), b.factor, b.capSec * SECOND);
  }

  //
  // Normalize.
  //

  /** What Normalize refuses a policy for, in the order it looks. */
  datatype Fault = MaxAttempts | MaxSystemRetries | NotRetryable(outcome: Outcome) | UnknownOutcome
                 | Interval(outcome: Outcome) | BackoffBase | BackoffFactor | BackoffCap

  datatype Result = Ok(policy: RetryPolicy) | Err(fault: Fault)

  predicate IsRetryable(o: Outcome) { o in REACHED || o in SYSTEM }

  function IntervalAfter(p: RetryPolicy, o: Outcome): int
    requires o in REACHED
  {
    if o in p.intervalSec then p.intervalSec[o] else DEFAULT.intervalSec[o]
  }

  function BackoffOf(p: RetryPolicy): Backoff {
    if p.transientBackoff == Backoff(0, 0, 0) then DEFAULT.transientBackoff else p.transientBackoff
  }

  predicate IsInterval(sec: int) { MIN_INTERVAL_SEC <= sec <= MAX_INTERVAL_SEC }

  /** A policy Normalize accepts. */
  predicate IsAcceptable(p: RetryPolicy) {
    && 1 <= p.maxAttempts <= MAX_MAX_ATTEMPTS && 0 <= p.maxSystemRetries <= MAX_MAX_SYSTEM_RETRIES
    && (forall o :: o in p.retryOutcomes ==> IsRetryable(o))
    && (forall o :: o in p.intervalSec ==> o in REACHED)
    && (forall o :: o in REACHED ==> IsInterval(IntervalAfter(p, o)))
    && IsBackoff(BackoffOf(p))
  }

  /** The first of each, in order. */
  function Firsts(outcomes: seq<Outcome>): seq<Outcome>
    decreases |outcomes|
  {
    if outcomes == [] then []
    else
      var before, o := Firsts(outcomes[..|outcomes| - 1]), outcomes[|outcomes| - 1];
      if o in before then before else before + [o]
  }

  function Normalized(p: RetryPolicy): RetryPolicy {
    p.(retryOutcomes := Firsts(p.retryOutcomes),
       intervalSec := map o | o in REACHED :: IntervalAfter(p, o),
       transientBackoff := BackoffOf(p))
  }

  method NormalizeOutcomes(outcomes: seq<Outcome>) returns (kept: seq<Outcome>, fault: Option<Fault>)
    ensures match fault
            case None => kept == Firsts(outcomes) && forall o :: o in outcomes ==> IsRetryable(o)
            case Some(f) => f.NotRetryable? && f.outcome in outcomes && !IsRetryable(f.outcome)
  {
    kept := [];
    for i := 0 to |outcomes|
      invariant kept == Firsts(outcomes[..i])
      invariant forall k :: 0 <= k < i ==> IsRetryable(outcomes[k])
    {
      var o := outcomes[i];
      if o !in REACHED && o !in SYSTEM {
        return kept, Some(NotRetryable(o));
      }
      assert outcomes[..i + 1][..i] == outcomes[..i];
      if o !in kept {
        kept := kept + [o];
      }
    }
    assert outcomes[..|outcomes|] == outcomes;
    return kept, None;
  }

  method HasOnlyIntervals(p: RetryPolicy) returns (isOk: bool)
    ensures isOk <==> forall o :: o in p.intervalSec ==> o in REACHED
  {
    var rest := p.intervalSec.Keys;
    while rest != {}
      invariant rest <= p.intervalSec.Keys
      invariant forall o :: o in p.intervalSec ==> o in rest || o in REACHED
      decreases |rest|
    {
      var o := Pick(rest);
      rest := rest - {o};
      if o !in REACHED {
        return false;
      }
    }
    return true;
  }

  method FillIntervals(p: RetryPolicy) returns (intervals: map<Outcome, int>, fault: Option<Fault>)
    ensures match fault
            case None =>
              && intervals == Normalized(p).intervalSec
              && forall o :: o in REACHED ==> IsInterval(IntervalAfter(p, o))
            case Some(f) => f.Interval? && f.outcome in REACHED && !IsInterval(IntervalAfter(p, f.outcome))
  {
    intervals := map[];
    for i := 0 to |REACHED|
      invariant intervals.Keys == set o | o in REACHED[..i]
      invariant forall o :: o in intervals ==> intervals[o] == IntervalAfter(p, o) && IsInterval(intervals[o])
    {
      var o := REACHED[i];
      var sec := if o in p.intervalSec then p.intervalSec[o] else DEFAULT.intervalSec[o];
      if sec < MIN_INTERVAL_SEC || sec > MAX_INTERVAL_SEC {
        return intervals, Some(Fault.Interval(o));
      }
      intervals := intervals[o := sec];
    }
    assert REACHED[..|REACHED|] == REACHED;
    return intervals, None;
  }

  /** Normalize: the policy with every interval stated and no outcome twice, or the first
      fault. */
  method Normalize(p: RetryPolicy) returns (r: Result)
    ensures r.Ok? <==> IsAcceptable(p)
    ensures r.Ok? ==> r.policy == Normalized(p)
    ensures r.Err? ==> Explains(r.fault, p)
  {
    if p.maxAttempts < 1 || p.maxAttempts > MAX_MAX_ATTEMPTS {
      return Err(Fault.MaxAttempts);
    }
    if p.maxSystemRetries < 0 || p.maxSystemRetries > MAX_MAX_SYSTEM_RETRIES {
      return Err(Fault.MaxSystemRetries);
    }
    var outcomes, badOutcome := NormalizeOutcomes(p.retryOutcomes);
    if badOutcome.Some? {
      return Err(badOutcome.value);
    }
    var hasOnlyIntervals := HasOnlyIntervals(p);
    if !hasOnlyIntervals {
      return Err(UnknownOutcome);
    }
    var intervals, badInterval := FillIntervals(p);
    if badInterval.Some? {
      return Err(badInterval.value);
    }
    var b := p.transientBackoff;
    if b == Backoff(0, 0, 0) {
      b := DEFAULT.transientBackoff;
    }
    if b.baseSec < 1 || b.baseSec > MAX_BACKOFF_CAP_SEC {
      return Err(BackoffBase);
    }
    if b.factor < 1 || b.factor > MAX_BACKOFF_FACTOR {
      return Err(BackoffFactor);
    }
    if b.capSec < b.baseSec || b.capSec > MAX_BACKOFF_CAP_SEC {
      return Err(BackoffCap);
    }
    return Ok(RetryPolicy(p.maxAttempts, p.maxSystemRetries, outcomes, intervals, b));
  }

  /** The fault named is one the policy has, and the faults looked for before it are not. */
  ghost predicate Explains(f: Fault, p: RetryPolicy) {
    var attemptsOk := 1 <= p.maxAttempts <= MAX_MAX_ATTEMPTS;
    var systemOk := 0 <= p.maxSystemRetries <= MAX_MAX_SYSTEM_RETRIES;
    var outcomesOk := forall o :: o in p.retryOutcomes ==> IsRetryable(o);
    var keysOk := forall o :: o in p.intervalSec ==> o in REACHED;
    var intervalsOk := forall o :: o in REACHED ==> IsInterval(IntervalAfter(p, o));
    var b := BackoffOf(p);
    var baseOk := 1 <= b.baseSec <= MAX_BACKOFF_CAP_SEC;
    var factorOk := 1 <= b.factor <= MAX_BACKOFF_FACTOR;
    match f
    case MaxAttempts => !attemptsOk
    case MaxSystemRetries => attemptsOk && !systemOk
    case NotRetryable(o) => attemptsOk && systemOk && o in p.retryOutcomes && !IsRetryable(o)
    case UnknownOutcome => attemptsOk && systemOk && outcomesOk && !keysOk
    case Interval(o) =>
      attemptsOk && systemOk && outcomesOk && keysOk && o in REACHED && !IsInterval(IntervalAfter(p, o))
    case BackoffBase => attemptsOk && systemOk && outcomesOk && keysOk && intervalsOk && !baseOk
    case BackoffFactor => attemptsOk && systemOk && outcomesOk && keysOk && intervalsOk && baseOk && !factorOk
    case BackoffCap =>
      && attemptsOk && systemOk && outcomesOk && keysOk && intervalsOk && baseOk && factorOk
      && !(b.baseSec <= b.capSec <= MAX_BACKOFF_CAP_SEC)
  }

  lemma {:induction false} FirstsKeepTheOutcomes(outcomes: seq<Outcome>)
    ensures forall o :: o in Firsts(outcomes) <==> o in outcomes
    ensures Distinct(Firsts(outcomes))
    decreases |outcomes|
  {
    if outcomes != [] {
      FirstsKeepTheOutcomes(outcomes[..|outcomes| - 1]);
      assert outcomes == outcomes[..|outcomes| - 1] + [outcomes[|outcomes| - 1]];
    }
  }

  lemma {:induction false} FirstsOfDistinct(outcomes: seq<Outcome>)
    requires Distinct(outcomes)
    ensures Firsts(outcomes) == outcomes
    decreases |outcomes|
  {
    if outcomes != [] {
      FirstsOfDistinct(outcomes[..|outcomes| - 1]);
      assert outcomes == outcomes[..|outcomes| - 1] + [outcomes[|outcomes| - 1]];
    }
  }

  /** A normalised policy is accepted and changed no more. */
  lemma NormalizingTwiceIsNormalizingOnce(p: RetryPolicy)
    requires IsAcceptable(p)
    ensures IsAcceptable(Normalized(p)) && Normalized(Normalized(p)) == Normalized(p)
  {
    FirstsKeepTheOutcomes(p.retryOutcomes);
    FirstsOfDistinct(Firsts(p.retryOutcomes));
    assert forall o :: o in REACHED ==> IntervalAfter(Normalized(p), o) == IntervalAfter(p, o);
  }
}
