/** What a campaign is planned with, told from its calls (internal/campaign/capacity.go). */
module CapacityLaws {
  import opened Util
  import opened Outcomes
  import opened RateWindows
  import opened Wilson
  import opened Capacity
  import opened SettlementLaws

  /** An attempt samples the answer rate exactly when the customer picked up or the cause
      says that the phone rang: silent, busy or refused. */
  lemma RingsExactlyWhen(e: CallEnd)
    ensures DoesRing(Classify(e)) <==>
              DidPickUp(e) || e.hangupCause in NOT_ANSWERED || e.hangupCause in {"USER_BUSY", "CALL_REJECTED"}
    ensures !DoesRing(DncSkipped)
  {
    AnsweredIsAnswered(e);
    if !DidPickUp(e) {
      CausesMean(e);
    }
  }

  /** The answers that overflowed, as positions. */
  function OverflowedAt(s: seq<Answer>): set<nat> { set k: nat | k < |s| && s[k].value }

  lemma {:induction false} OverflowsAreCounted(s: seq<Answer>)
    ensures Overflows(s) == |OverflowedAt(s)| <= |s|
    decreases |s|
  {
    if s == [] {
      assert OverflowedAt(s) == {};
    } else {
      var last := |s| - 1;
      OverflowsAreCounted(s[..last]);
      assert OverflowedAt(s) == OverflowedAt(s[..last]) + if s[last].value then {last} else {};
    }
  }

  function AnsweredAt(s: seq<Sample>): set<nat> { set k: nat | k < |s| && s[k].value }

  lemma {:induction false} AnswersAreCounted(s: seq<Sample>)
    ensures Trues(s) == |AnsweredAt(s)| <= |s|
    decreases |s|
  {
    if s == [] {
      assert AnsweredAt(s) == {};
    } else {
      var last := |s| - 1;
      AnswersAreCounted(s[..last]);
      assert AnsweredAt(s) == AnsweredAt(s[..last]) + if s[last].value then {last} else {};
    }
  }

  /** Control is tightened exactly when it is not stopped and the last rate was above the
      tighten rate. */
  lemma TightenedExactlyWhen(rates: seq<real>, tighten: real, stop: real)
    ensures ModeAfter(rates, tighten, stop) == Tightened <==>
              (forall i :: !StopsAt(rates, i, tighten, stop)) && rates != [] && rates[|rates| - 1] > tighten
  {
    StoppedUntilUnderTheTightenRate(rates, tighten, stop);
    if rates != [] {
      var last := |rates| - 1;
      if rates[last] > stop {
        assert StopsAt(rates, last, tighten, stop);
      }
    }
  }

  //
  // Control over a run of reports.
  //

  /** The share of the last 200 answers that met no bot, none being nought. */
  function Share(reports: seq<Capacity.Report>): real {
    var last := LastN(History(reports), 200);
    if last == [] then 0.0 else |OverflowedAt(last)| as real / |last| as real
  }

  /** The shares after each report. */
  function Shares(reports: seq<Capacity.Report>): seq<real> {
    seq(|reports|, i requires 0 <= i < |reports| => Share(reports[..i + 1]))
  }

  lemma SharesOneMore(reports: seq<Capacity.Report>)
    requires reports != []
    ensures Shares(reports) == Shares(reports[..|reports| - 1]) + [Share(reports)]
  {
    var before := reports[..|reports| - 1];
    assert reports[..|reports|] == reports;
    forall i | 0 <= i < |before| ensures Shares(reports)[i] == Shares(before)[i] {
      assert before[..i + 1] == reports[..i + 1];
    }
  }

  /** The modes are moved after every report by the rate of the window. */
  ghost predicate Remoded(windows: seq<seq<Answer>>, modes: seq<OverflowMode>, tighten: real, stop: real) {
    && |modes| == |windows| > 0 && modes[0] == Normal
    && forall i :: 0 < i < |modes| ==>
         modes[i] == NextOverflowMode(modes[i - 1], RateOfAnswers(windows[i]), tighten, stop)
  }

  ghost predicate IsRunOf(reports: seq<Capacity.Report>, windows: seq<seq<Answer>>) {
    && |windows| == |reports| + 1 && windows[0] == []
    && forall i :: 0 <= i < |reports| ==> Reported(windows[i], reports[i], windows[i + 1])
  }

  lemma ShareOfTheWindow(reports: seq<Capacity.Report>, windows: seq<seq<Answer>>)
    requires EachPickedOnce(reports) && IsRunOf(reports, windows)
    ensures RateOfAnswers(windows[|reports|]) == Share(reports)
  {
    WindowIsTheLastAnswers(reports, windows);
    OverflowsAreCounted(windows[|reports|]);
  }

  lemma {:induction false} ModesFollowTheShares(reports: seq<Capacity.Report>, windows: seq<seq<Answer>>,
                                                modes: seq<OverflowMode>, tighten: real, stop: real)
    requires EachPickedOnce(reports) && IsRunOf(reports, windows) && Remoded(windows, modes, tighten, stop)
    ensures modes[|reports|] == ModeAfter(Shares(reports), tighten, stop)
    decreases |reports|
  {
    if reports != [] {
      var last := |reports| - 1;
      ModesFollowTheShares(reports[..last], windows[..last + 1], modes[..last + 1], tighten, stop);
      ShareOfTheWindow(reports, windows);
      SharesOneMore(reports);
    }
  }

  /** Over every run of a campaign's calls, over-dialling stands stopped exactly when the
      share of overflows among the last 200 answers rose above the stop rate and has not
      been under the tighten rate since; otherwise it is tightened exactly while the share
      is above the tighten rate. */
  lemma ControlFollowsTheCalls(reports: seq<Capacity.Report>, windows: seq<seq<Answer>>, modes: seq<OverflowMode>,
                               tighten: real, stop: real)
    requires EachPickedOnce(reports) && IsRunOf(reports, windows) && Remoded(windows, modes, tighten, stop)
    ensures var now, shares := modes[|reports|], Shares(reports);
            && (now == Stopped <==> exists i :: StopsAt(shares, i, tighten, stop))
            && (now == Tightened <==> now != Stopped && reports != [] && Share(reports) > tighten)
  {
    ModesFollowTheShares(reports, windows, modes, tighten, stop);
    StoppedUntilUnderTheTightenRate(Shares(reports), tighten, stop);
    TightenedExactlyWhen(Shares(reports), tighten, stop);
    assert reports[..|reports|] == reports;
  }

  /** The campaign is planned as if every leg answered while stopped or under 50 samples;
      else with the upper end of the Wilson interval around the share of its samples
      answered, at 95 % or, tightened, at 99 %. */
  lemma PlannedWith(rang: seq<Sample>, mode: OverflowMode, sqrt: real -> real)
    requires IsSqrt(sqrt)
    ensures var n, bound := |rang|, BoundOf(rang, mode, sqrt);
            if mode == Stopped || n < 50 then bound == 1.0
            else
              var z := if mode == Tightened then 2.575829 else 1.959964;
              IsUpperEnd(|AnsweredAt(rang)| as real / n as real, z * z / n as real, bound)
  {
    AnswersAreCounted(rang);
    if mode != Stopped && |rang| >= 50 {
      WilsonIsTheUpperEnd(Trues(rang), |rang|, if mode == Tightened then Z99 else Z95, sqrt);
    }
  }
}
