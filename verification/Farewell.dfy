/** claimWatch and farewellWatch themselves: each method is proved to make the step of
    FarewellSteps. */
module Farewell {
  import opened Util
  import opened FarewellSteps

  class ClaimWatch {
    const d: Detector
    var pending: map<nat, string>
    var lastDoneTurn: nat
    var isLastDoneBacked: bool
    var isToolReplyNext: bool
    var isFarewellUnhung: bool
    var playedInFullTurn: nat
    var isLastDoneCut: bool
    var lastDoneText: string

    ghost function State(): Claims
      reads this
    {
      Claims(pending, lastDoneTurn, isLastDoneBacked, isToolReplyNext, isFarewellUnhung, playedInFullTurn,
             isLastDoneCut, lastDoneText)
    }

    constructor (d: Detector)
      ensures State() == NO_CLAIMS && this.d == d
    {
      this.d := d;
      pending, lastDoneTurn, isLastDoneBacked, isToolReplyNext := map[], 0, false, false;
      isFarewellUnhung, playedInFullTurn, isLastDoneCut, lastDoneText := false, 0, false, "";
    }

    /** Reports whether a goodbye was found. */
    method OnBotSaid(turn: nat, text: string) returns (isFarewell: bool)
      modifies this`pending, this`lastDoneText, this`isFarewellUnhung
      ensures (State(), isFarewell) == ClaimsBotSaid(d, old(State()), turn, text)
    {
      if text == "" {
        return false;
      }
      if lastDoneTurn != 0 && turn == lastDoneTurn {
        if isLastDoneBacked {
          return false;
        }
        isFarewell := d.hasFarewell(text);
        lastDoneText := d.trim(lastDoneText + " " + text);
        if d.endsInQuestion(lastDoneText) {
          isFarewell := false;
          isFarewellUnhung := false;
        }
        isFarewellUnhung := isFarewellUnhung || (isFarewell && !isLastDoneCut);
        return;
      }
      if turn < lastDoneTurn {
        return false;
      }
      var all := text;
      if turn in pending && pending[turn] != "" {
        all := pending[turn] + " " + text;
      }
      pending := pending[turn := all];
      return false;
    }

    method ForgetThrough(turn: nat)
      modifies this`pending
      ensures pending == map t | t in old(pending) && t > turn :: old(pending)[t]
    {
      var all := pending;
      var kept, rest := all, all.Keys;
      while rest != {}
        invariant rest <= all.Keys && kept.Keys <= all.Keys
        invariant forall t :: t in all ==> (t in kept <==> t in rest || t > turn)
        invariant forall t :: t in kept ==> kept[t] == all[t]
        decreases |rest|
      {
        var t := Pick(rest);
        rest := rest - {t};
        if t <= turn {
          kept := kept - {t};
        }
      }
      pending := kept;
    }

    method OnTurnDone(turn: nat, isToolCall: bool, isArmed: bool)
      modifies this
      ensures State() == ClaimsTurnDone(d, old(State()), turn, isToolCall, isArmed)
    {
      var isBacked := isToolCall || isToolReplyNext || isArmed;
      isToolReplyNext := isToolCall;
      lastDoneTurn := turn;
      isLastDoneBacked := isBacked;
      isFarewellUnhung, isLastDoneCut, lastDoneText := false, false, "";
      var text := if turn in pending then pending[turn] else "";
      ForgetThrough(turn);
      if isBacked || text == "" {
        return;
      }
      lastDoneText := text;
      isFarewellUnhung := d.hasFarewell(text) && !d.endsInQuestion(text);
    }

    method OnToolCall()
      modifies this`isFarewellUnhung
      ensures State() == old(State()).(isFarewellUnhung := false)
    {
      isFarewellUnhung := false;
    }

    method OnTurnInterrupted()
      modifies this`isFarewellUnhung, this`isLastDoneCut
      ensures State() == ClaimsInterrupted(old(State()))
    {
      isFarewellUnhung, isLastDoneCut := false, true;
    }

    method OnBargeIn(turn: nat)
      modifies this`isFarewellUnhung, this`isLastDoneCut
      ensures State() == ClaimsBargeIn(old(State()), turn)
    {
      if turn == 0 || turn != lastDoneTurn {
        return;
      }
      isFarewellUnhung, isLastDoneCut := false, true;
    }

    method OnAudioPlayed(turn: nat)
      modifies this`playedInFullTurn
      ensures State() == ClaimsAudioPlayed(old(State()), turn)
    {
      if turn > playedInFullTurn {
        playedInFullTurn := turn;
      }
    }

    method FarewellPlayed() returns (turn: nat)
      ensures turn == FarewellPlayedInFull(State())
    {
      if !isFarewellUnhung || isLastDoneCut || lastDoneTurn == 0 || playedInFullTurn != lastDoneTurn {
        return 0;
      }
      return lastDoneTurn;
    }
  }

  class FarewellWatch {
    var streak: nat
    var countedTurn: nat
    var undecided: nat
    var isCallerHeard: bool
    var isGraceRunning: bool
    var graceTurn: nat

    ghost function State(): Watch
      reads this
    {
      Watch(streak, countedTurn, undecided, isCallerHeard, isGraceRunning, graceTurn)
    }

    constructor ()
      ensures State() == INITIAL.watch
    {
      streak, countedTurn, undecided, isCallerHeard, isGraceRunning, graceTurn := 0, 0, 0, false, false, 0;
    }

    method OnTurnDone(turn: nat, isInterrupted: bool, isFarewellUnhung: bool)
      modifies this
      ensures State() == WatchTurnDone(old(State()), turn, isInterrupted, isFarewellUnhung)
    {
      isGraceRunning, isCallerHeard := false, false;
      if undecided != 0 {
        streak := 0;
      }
      undecided := 0;
      if isInterrupted || isFarewellUnhung {
        return;
      }
      undecided := turn;
    }

    method OnBotSaid(turn: nat, isFarewell: bool)
      modifies this
      ensures State() == WatchBotSaid(old(State()), turn, isFarewell)
    {
      if isFarewell && undecided == turn {
        undecided := 0;
      }
    }

    method OnToolCall()
      modifies this
      ensures State() == WatchToolCall(old(State()))
    {
      streak, undecided, isGraceRunning := 0, 0, false;
    }

    method OnCallerSpoke()
      modifies this
      ensures State() == WatchCallerSpoke(old(State()))
    {
      isGraceRunning, isCallerHeard := false, true;
    }

    /** Whether the call ends now; a grace may be started instead. */
    method CheckOwnFarewell(claims: ClaimWatch, isHeld: bool, isOwed: bool) returns (isOver: bool)
      modifies this
      ensures (State(), isOver) == Check(old(State()), claims.State(), isHeld, isOwed)
      ensures claims.State() == old(claims.State())
    {
      var turn := claims.FarewellPlayed();
      if turn == 0 || turn == countedTurn {
        return false;
      }
      countedTurn := turn;
      streak := streak + 1;
      if isHeld || isOwed {
        isGraceRunning := false;
        return false;
      }
      if streak >= 2 {
        return true;
      }
      if isCallerHeard {
        return false;
      }
      graceTurn, isGraceRunning := turn, true;
      return false;
    }
  }
}
