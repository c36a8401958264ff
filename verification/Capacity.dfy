/** Admission statistics and overflow control (internal/campaign/capacity.go). */
module Capacity {
  import opened Util
  import opened RateWindows
  import opened Wilson
  import opened Outcomes

  const NIL := 0

  /** One answered call: whether it overflowed, and its id, or NIL. */
  datatype Answer = Answer(value: bool, id: nat)

  function Overflows(s: seq<Answer>): nat
    decreases |s|
  {
    if s == [] then 0 else Overflows(s[..|s| - 1]) + if s[|s| - 1].value then 1 else 0
  }

  lemma {:induction false} OverflowsConcat(a: seq<Answer>, b: seq<Answer>)
    ensures Overflows(a + b) == Overflows(a) + Overflows(b)
    decreases |b|
  {
    if b == [] {
      assert a + b == a;
    } else {
      OverflowsConcat(a, b[..|b| - 1]);
      assert (a + b)[..|a + b| - 1] == a + b[..|b| - 1];
    }
  }

  function Ones(v: bool): nat { if v then 1 else 0 }

  lemma OverflowsOne(a: Answer)
    ensures Overflows([a]) == Ones(a.value)
  {
    assert [a][..0] == [];
  }

  lemma OverflowsUpdate(s: seq<Answer>, k: nat, a: Answer)
    requires k < |s|
    ensures Overflows(s[k := a]) == Overflows(s) - Ones(s[k].value) + Ones(a.value)
  {
    var before, after := s[..k], s[k + 1..];
    assert s == before + [s[k]] + after && s[k := a] == before + [a] + after;
    OverflowsConcat(before, [s[k]]);
    OverflowsConcat(before, [a]);
    OverflowsConcat(before + [s[k]], after);
    OverflowsConcat(before + [a], after);
    OverflowsOne(s[k]);
    OverflowsOne(a);
  }

  /** What a ring holds, oldest first. */
  function Unrolled(buf: seq<Answer>, n: nat, pos: nat): seq<Answer>
    requires |buf| == RATE_WINDOW && n <= RATE_WINDOW && pos < RATE_WINDOW
  {
    if n == RATE_WINDOW then buf[pos..] + buf[..pos] else buf[..n]
  }

  function Appended(s: seq<Answer>, a: Answer): seq<Answer> { LastN(s + [a], RATE_WINDOW) }

  ghost predicate IsRing(buf: seq<Answer>, n: nat, pos: nat) {
    |buf| == RATE_WINDOW && n <= RATE_WINDOW && pos < RATE_WINDOW && (n < RATE_WINDOW ==> pos == n)
  }

  function OneMore(n: nat): nat { if n == RATE_WINDOW then n else n + 1 }

  /** The next answer written at pos is the newest, and a full ring loses its oldest. */
  lemma RingAppends(buf: seq<Answer>, n: nat, pos: nat, a: Answer)
    requires IsRing(buf, n, pos)
    ensures IsRing(buf[pos := a], OneMore(n), (pos + 1) % RATE_WINDOW)
    ensures Unrolled(buf[pos := a], OneMore(n), (pos + 1) % RATE_WINDOW) == Appended(Unrolled(buf, n, pos), a)
  {
    var s, buf' := Unrolled(buf, n, pos), buf[pos := a];
    if n == RATE_WINDOW {
      var all := s + [a];
      assert all[1..] == Appended(s, a);
      if pos + 1 < RATE_WINDOW {
        assert buf'[pos + 1..] + buf'[..pos + 1] == all[1..];
      } else {
        assert buf' == all[1..];
      }
    }
  }

  lemma RingRecounts(buf: seq<Answer>, n: nat, pos: nat, a: Answer)
    requires IsRing(buf, n, pos)
    ensures Overflows(Appended(Unrolled(buf, n, pos), a)) ==
            Overflows(Unrolled(buf, n, pos)) + Ones(a.value) - (if n == RATE_WINDOW then Ones(buf[pos].value) else 0)
  {
    var s := Unrolled(buf, n, pos);
    OverflowsConcat(s, [a]);
    OverflowsOne(a);
    if n == RATE_WINDOW {
      assert s[0] == buf[pos];
      assert s + [a] == [s[0]] + (s + [a])[1..];
      OverflowsConcat([s[0]], (s + [a])[1..]);
      OverflowsOne(s[0]);
    }
  }

  /** One held sample of the call turned to v. */
  ghost predicate Corrects(s: seq<Answer>, s': seq<Answer>, id: nat, v: bool) {
    exists k :: 0 <= k < |s| && s[k].id == id && s' == s[k := Answer(v, id)]
  }

  /** window: the last RATE_WINDOW answers, in a ring. The code's two arrays are one of
      pairs. */
  class Window {
    const buf: array<Answer>
    var n: nat
    var pos: nat
    var count: int

    ghost predicate Valid()
      reads this, buf
    {
      && IsRing(buf[..], n, pos)
      && count == Overflows(Contents())
    }

    ghost function Contents(): seq<Answer>
      reads this, buf
      requires buf.Length == RATE_WINDOW && n <= RATE_WINDOW && pos < RATE_WINDOW
    {
      Unrolled(buf[..], n, pos)
    }

    constructor ()
      ensures Valid() && Contents() == [] && fresh(buf)
    {
      buf := new Answer[RATE_WINDOW](_ => Answer(false, NIL));
      n, pos, count := 0, 0, 0;
    }

    method Add(v: bool, id: nat)
      requires Valid()
      modifies this, buf
      ensures Valid() && Contents() == Appended(old(Contents()), Answer(v, id))
    {
      ghost var filled, n', pos' := buf[..][pos := Answer(v, id)], OneMore(n), (pos + 1) % RATE_WINDOW;
      RingAppends(buf[..], n, pos, Answer(v, id));
      RingRecounts(buf[..], n, pos, Answer(v, id));
      if n == RATE_WINDOW {
        if buf[pos].value {
          count := count - 1;
        }
      } else {
        n := n + 1;
      }
      buf[pos] := Answer(v, id);
      if v {
        count := count + 1;
      }
      pos := (pos + 1) % RATE_WINDOW;
      assert buf[..] == filled && n == n' && pos == pos';
    }

    /** Turns the sample of the call to v, if it is still held. */
    method Set(id: nat, v: bool) returns (isHeld: bool)
      requires Valid()
      modifies this`count, buf
      ensures Valid() && n == old(n)
      ensures isHeld <==> id != NIL && exists k :: 0 <= k < |old(Contents())| && old(Contents())[k].id == id
      ensures if isHeld then Corrects(old(Contents()), Contents(), id, v) else Contents() == old(Contents())
    {
      for i := 0 to n
        invariant buf[..] == old(buf[..]) && count == old(count)
        invariant forall j :: 0 <= j < i ==> id == NIL || buf[j].id != id
      {
        if buf[i].id == id && id != NIL {
          ghost var k := PlaceOf(buf[..], n, pos, i, Answer(v, id));
          if buf[i].value != v {
            ghost var turned := buf[..][i := Answer(v, id)];
            buf[i] := Answer(v, id);
            assert buf[..] == turned;
            count := if v then count + 1 else count - 1;
          } else {
            assert buf[i] == Answer(v, id);
          }
          OverflowsUpdate(old(Contents()), k, Answer(v, id));
          assert old(Contents())[k].id == id;
          return true;
        }
      }
      NoneHeld(buf[..], n, pos, id);
      return false;
    }
  }

  /** Where the ring's slot i is in what it holds. */
  lemma PlaceOf(buf: seq<Answer>, n: nat, pos: nat, i: nat, a: Answer) returns (k: nat)
    requires |buf| == RATE_WINDOW && n <= RATE_WINDOW && pos < RATE_WINDOW && i < n
    ensures k < n && Unrolled(buf, n, pos)[k] == buf[i]
    ensures Unrolled(buf[i := a], n, pos) == Unrolled(buf, n, pos)[k := a]
  {
    k := if n < RATE_WINDOW then i else if i >= pos then i - pos else i + RATE_WINDOW - pos;
    assert Unrolled(buf[i := a], n, pos) == Unrolled(buf, n, pos)[k := a];
  }

  lemma NoneHeld(buf: seq<Answer>, n: nat, pos: nat, id: nat)
    requires |buf| == RATE_WINDOW && n <= RATE_WINDOW && pos < RATE_WINDOW
    requires forall j :: 0 <= j < n ==> id == NIL || buf[j].id != id
    ensures id != NIL ==> forall k :: 0 <= k < n ==> Unrolled(buf, n, pos)[k].id != id
  {
    forall k | 0 <= k < n && id != NIL
      ensures Unrolled(buf, n, pos)[k].id != id
    {
      assert Unrolled(buf, n, pos)[k] == buf[if n < RATE_WINDOW then k else (pos + k) % RATE_WINDOW];
    }
  }

  //
  // Overflow control.
  //

  datatype OverflowMode = Normal | Tightened | Stopped

  function NextOverflowMode(prev: OverflowMode, rate: real, tighten: real, stop: real): OverflowMode {
    if rate > stop then Stopped
    else if prev == Stopped then (if rate < tighten then Normal else Stopped)
    else if rate > tighten then Tightened
    else Normal
  }

  function ModeAfter(rates: seq<real>, tighten: real, stop: real): OverflowMode
    decreases |rates|
  {
    if rates == [] then Normal
    else NextOverflowMode(ModeAfter(rates[..|rates| - 1], tighten, stop), rates[|rates| - 1], tighten, stop)
  }

  /** The rate went above the stop rate at i and has not been under the tighten rate since. */
  predicate StopsAt(rates: seq<real>, i: int, tighten: real, stop: real) {
    0 <= i < |rates| && rates[i] > stop && forall j :: i < j < |rates| ==> rates[j] >= tighten || rates[j] > stop
  }

  /** Control is stopped exactly when the rate went above the stop rate and has not been
      under the tighten rate since, however long ago that was. */
  lemma {:induction false} StoppedUntilUnderTheTightenRate(rates: seq<real>, tighten: real, stop: real)
    ensures ModeAfter(rates, tighten, stop) == Stopped <==> exists i :: StopsAt(rates, i, tighten, stop)
    decreases |rates|
  {
    if rates != [] {
      var last := |rates| - 1;
      var before := rates[..last];
      StoppedUntilUnderTheTightenRate(before, tighten, stop);
      if ModeAfter(rates, tighten, stop) == Stopped {
        if rates[last] > stop {
          assert StopsAt(rates, last, tighten, stop);
        } else {
          var i :| StopsAt(before, i, tighten, stop);
          assert StopsAt(rates, i, tighten, stop);
        }
      }
      if exists i :: StopsAt(rates, i, tighten, stop) {
        var i :| StopsAt(rates, i, tighten, stop);
        assert i < last ==> StopsAt(before, i, tighten, stop);
      }
    }
  }

  //
  // One campaign's statistics.
  //

  predicate DoesRing(o: Outcome) { IsAnsweredOutcome(o) || o == NoAnswer || o == Busy || o == Rejected }

  function RateOfAnswers(answered: seq<Answer>): real {
    if |answered| == 0 then 0.0 else Overflows(answered) as real / |answered| as real
  }

  function BoundOf(rang: seq<Sample>, mode: OverflowMode, sqrt: real -> real): real {
    if mode == Stopped then 1.0 else AnswerRateBound(Trues(rang), |rang|, mode == Tightened, sqrt)
  }

  class CapacityStats {
    const tighten: real
    const stop: real
    const rang: RangWindow
    const answered: Window
    var replayed: int
    var mode: OverflowMode

    ghost predicate Valid()
      reads this, rang, answered, answered.buf
    {
      rang.Valid() && answered.Valid()
    }

    constructor (tightenRate: real, stopRate: real)
      ensures Valid() && fresh(rang) && fresh(answered) && fresh(answered.buf)
      ensures rang.held == [] && answered.Contents() == [] && mode == Normal && replayed == 0
      ensures tighten == tightenRate && stop == stopRate
    {
      tighten, stop := tightenRate, stopRate;
      rang := new RangWindow();
      answered := new Window();
      replayed, mode := 0, Normal;
    }

    /** The share of the last answered calls that met no bot. */
    method OverflowRate() returns (rate: real)
      requires Valid()
      ensures rate == RateOfAnswers(answered.Contents())
    {
      if answered.n == 0 {
        return 0.0;
      }
      return answered.count as real / answered.n as real;
    }

    method Remode()
      requires Valid()
      modifies this`mode
      ensures mode == NextOverflowMode(old(mode), RateOfAnswers(answered.Contents()), tighten, stop)
    {
      var rate := OverflowRate();
      mode := NextOverflowMode(mode, rate, tighten, stop);
    }

    method Rang(dialledAt: int, isAnswered: bool)
      requires Valid()
      modifies rang
      ensures Valid() && rang.held == Kept(old(rang.held), Sample(dialledAt, TieOf(rang.state), isAnswered))
      ensures rang.state == NextState(old(rang.state))
    {
      rang.Add(dialledAt, isAnswered);
    }

    method Answered(id: nat)
      requires Valid()
      modifies this`mode, answered, answered.buf
      ensures Valid() && answered.Contents() == Appended(old(answered.Contents()), Answer(false, id))
      ensures mode == NextOverflowMode(old(mode), RateOfAnswers(answered.Contents()), tighten, stop)
    {
      answered.Add(false, id);
      Remode();
    }

    /** Turns the call's sample into an overflow; one that has left is counted anew. */
    method Overflowed(id: nat)
      requires Valid()
      modifies this`mode, answered, answered.buf
      ensures Valid()
      ensures var s, s' := old(answered.Contents()), answered.Contents();
              if id != NIL && exists k :: 0 <= k < |s| && s[k].id == id then Corrects(s, s', id, true)
              else s' == Appended(s, Answer(true, NIL))
      ensures mode == NextOverflowMode(old(mode), RateOfAnswers(answered.Contents()), tighten, stop)
    {
      var isHeld := answered.Set(id, true);
      if !isHeld {
        answered.Add(true, NIL);
      }
      Remode();
    }

    method Observe(o: Outcome)
      requires Valid()
      modifies this`mode, this`replayed, rang, answered, answered.buf
      ensures Valid()
      ensures !DoesRing(o) ==>
                rang.held == old(rang.held) && answered.Contents() == old(answered.Contents()) && mode == old(mode)
      ensures DoesRing(o) ==>
                && replayed == old(replayed) + 1
                && rang.held == Kept(old(rang.held), Sample(replayed, TieOf(rang.state), IsAnsweredOutcome(o)))
      ensures IsAnsweredOutcome(o) ==>
                && answered.Contents() == Appended(old(answered.Contents()), Answer(o == Overflow, NIL))
                && mode == NextOverflowMode(old(mode), RateOfAnswers(answered.Contents()), tighten, stop)
      ensures !IsAnsweredOutcome(o) ==> answered.Contents() == old(answered.Contents()) && mode == old(mode)
    {
      if !DoesRing(o) {
        return;
      }
      replayed := replayed + 1;
      rang.Add(replayed, IsAnsweredOutcome(o));
      if IsAnsweredOutcome(o) {
        answered.Add(o == Overflow, NIL);
        Remode();
      }
    }

    /** The answer rate to plan the campaign's ringing legs with. */
    method Bound(sqrt: real -> real) returns (bound: real)
      requires Valid()
      ensures bound == BoundOf(rang.held, mode, sqrt)
    {
      if mode == Stopped {
        return 1.0;
      }
      return AnswerRateBound(rang.count, |rang.held|, mode == Tightened, sqrt);
    }
  }

  lemma {:induction false} TruesAreFew(s: seq<Sample>)
    ensures Trues(s) <= |s|
    decreases |s|
  {
    if s != [] {
      TruesAreFew(s[..|s| - 1]);
    }
  }

  /** Control only ever raises the bound: normal, tightened, stopped, in that order, and
      all from the rate observed up to 1. */
  lemma StricterModesPlanForMore(rang: seq<Sample>, sqrt: real -> real)
    requires IsSqrt(sqrt)
    ensures BoundOf(rang, Normal, sqrt) <= BoundOf(rang, Tightened, sqrt) <= BoundOf(rang, Stopped, sqrt) == 1.0
    ensures |rang| > 0 ==> RateOf(Trues(rang), |rang|) <= BoundOf(rang, Normal, sqrt)
  {
    TruesAreFew(rang);
    TighteningNeverLowersTheBound(Trues(rang), |rang|, sqrt);
  }

  /** Once stopped, the campaign plans for every ringing leg to answer until the overflow
      rate has been under the tighten rate. */
  lemma StoppedMeansNoOverdial(rang: seq<Sample>, rates: seq<real>, i: int, tighten: real, stop: real,
                               sqrt: real -> real)
    requires StopsAt(rates, i, tighten, stop)
    ensures BoundOf(rang, ModeAfter(rates, tighten, stop), sqrt) == 1.0
  {
    StoppedUntilUnderTheTightenRate(rates, tighten, stop);
  }

  //
  // The answered window over a run.
  //

  datatype Report = Picked(id: nat) | Missed(id: nat) | Replayed(isOverflow: bool)

  /** The window after a report. */
  ghost predicate Reported(s: seq<Answer>, report: Report, s': seq<Answer>) {
    match report
    case Picked(id) => s' == Appended(s, Answer(false, id))
    case Missed(id) =>
      if id != NIL && exists k :: 0 <= k < |s| && s[k].id == id then Corrects(s, s', id, true)
      else s' == Appended(s, Answer(true, NIL))
    case Replayed(isOverflow) => s' == Appended(s, Answer(isOverflow, NIL))
  }

  predicate IsHeld(s: seq<Answer>, id: nat) { id != NIL && exists k :: 0 <= k < |s| && s[k].id == id }

  /** The call's answer turned into an overflow. */
  function Turned(s: seq<Answer>, id: nat): seq<Answer> {
    seq(|s|, i requires 0 <= i < |s| => if s[i].id == id then Answer(true, id) else s[i])
  }

  /** Every answer of the run: one for each call that picked up, an overflow if it was
      reported missed while among the last RATE_WINDOW, and one for each call reported
      missed that was not. */
  function History(reports: seq<Report>): seq<Answer>
    decreases |reports|
  {
    if reports == [] then []
    else
      var h := History(reports[..|reports| - 1]);
      match reports[|reports| - 1]
      case Picked(id) => h + [Answer(false, id)]
      case Missed(id) => if IsHeld(LastN(h, RATE_WINDOW), id) then Turned(h, id) else h + [Answer(true, NIL)]
      case Replayed(isOverflow) => h + [Answer(isOverflow, NIL)]
  }

  /** No call picks up twice. */
  ghost predicate EachPickedOnce(reports: seq<Report>) {
    forall i, j :: 0 <= i < j < |reports| && reports[i].Picked? ==> reports[i] != reports[j]
  }

  ghost predicate IdsDiffer(s: seq<Answer>) {
    forall i, j :: 0 <= i < j < |s| && s[i].id != NIL ==> s[i].id != s[j].id
  }

  lemma {:induction false} HistoryHasDifferentIds(reports: seq<Report>)
    requires EachPickedOnce(reports)
    ensures IdsDiffer(History(reports))
    ensures forall i :: 0 <= i < |History(reports)| && History(reports)[i].id != NIL ==>
              Picked(History(reports)[i].id) in reports
    decreases |reports|
  {
    if reports != [] {
      var before := reports[..|reports| - 1];
      HistoryHasDifferentIds(before);
      assert reports == before + [reports[|reports| - 1]];
    }
  }

  lemma CorrectsTurns(s: seq<Answer>, s': seq<Answer>, id: nat)
    requires id != NIL && IdsDiffer(s) && Corrects(s, s', id, true)
    ensures s' == Turned(s, id)
  {
  }

  /** In every run the window holds the last RATE_WINDOW answers, each corrected in place,
      so the overflow rate is exact. */
  lemma {:induction false} WindowIsTheLastAnswers(reports: seq<Report>, windows: seq<seq<Answer>>)
    requires EachPickedOnce(reports) && |windows| == |reports| + 1 && windows[0] == []
    requires forall i :: 0 <= i < |reports| ==> Reported(windows[i], reports[i], windows[i + 1])
    ensures windows[|reports|] == LastN(History(reports), RATE_WINDOW)
    decreases |reports|
  {
    if reports != [] {
      var last := |reports| - 1;
      var h, w, w' := History(reports[..last]), windows[last], windows[last + 1];
      WindowIsTheLastAnswers(reports[..last], windows[..last + 1]);
      assert Reported(w, reports[last], w');
      HistoryHasDifferentIds(reports[..last]);
      if reports[last].Missed? && IsHeld(w, reports[last].id) {
        CorrectsTurns(w, w', reports[last].id);
        assert Turned(LastN(h, RATE_WINDOW), reports[last].id) == LastN(Turned(h, reports[last].id), RATE_WINDOW);
      } else {
        LastOfAppended(h, History(reports)[|h|]);
      }
    }
  }

  lemma LastOfAppended(h: seq<Answer>, a: Answer)
    ensures Appended(LastN(h, RATE_WINDOW), a) == LastN(h + [a], RATE_WINDOW)
  {
  }
}
