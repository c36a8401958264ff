/** What each request and signal does to an agent, the switch and the agents' streams, and
    when. */
module AgentLaws {
  import opened Util
  import opened AgentSteps
  import opened AgentRuns

  //
  // What the switch was told.
  //

  /** With the link up, whoever is not signed in stands as logged out, if at all. */
  ghost predicate OutIsTold(d: Desk) {
    d.switch.isUp ==>
      forall a :: a in d.switch.statuses && !IsSignedIn(d.live, a) ==> d.switch.statuses[a].SwitchLoggedOut?
  }

  lemma ChangeKeepsOut(d: Desk, a: nat, outcome: Outcome)
    requires OutIsTold(d)
    ensures OutIsTold(Change(d, a, outcome))
  {
  }

  lemma NoteKeepsOut(d: Desk, extension: string, dev: Device)
    requires OutIsTold(d)
    ensures OutIsTold(Note(d, extension, dev))
  {
  }

  lemma ObserveKeepsOut(d: Desk, extension: string, signal: Signal)
    requires OutIsTold(d)
    ensures OutIsTold(ObserveDevice(d, extension, signal))
  {
    var dev := DeviceOf(signal);
    var noted := Note(d, extension, dev);
    NoteKeepsOut(d, extension, dev);
    if Holder(d.live, extension).Some? {
      var a := Holder(d.live, extension).value;
      var phones := Announce(noted.phones, extension, a, dev);
      var told := noted.(switch := Mirrored(noted.switch, a, noted.live[a]), phones := phones);
      ChangeKeepsOut(told, a, MakeReady(Of(told.live, a)));
      ChangeKeepsOut(told, a, MakeNotReady(Of(told.live, a), DeviceLost));
    }
  }

  lemma RequestKeepsOut(d: Desk, action: Action)
    requires OutIsTold(d) && IsRequest(action)
    ensures OutIsTold(Step(d, action))
  {
    var p := Of(d.live, action.a);
    match action {
      case DoLogout(a) => ChangeKeepsOut(d, a, SignOut(p));
      case DoReady(a) => ChangeKeepsOut(d, a, MakeReady(p));
      case DoNotReady(a, reason) => ChangeKeepsOut(d, a, MakeNotReady(p, reason));
      case DoStartWrapUp(a, call) =>
        ChangeKeepsOut(if call != 0 then d.(lastCall := d.lastCall[a := call]) else d, a, BeginWrapUp(p, call));
      case DoEndWrapUp(a) =>
        ChangeKeepsOut(d, a, if p.isRegistered then MakeReady(p) else MakeNotReady(p, DeviceLost));
      case DoRingNoAnswer(a) => ChangeKeepsOut(d, a, MakeNotReady(p, System));
      case _ =>
    }
  }

  lemma StepKeepsOut(d: Desk, action: Action)
    requires OutIsTold(d)
    ensures OutIsTold(Step(d, action))
  {
    if IsRequest(action) {
      RequestKeepsOut(d, action);
    } else {
      match action {
        case DoNoteDevice(extension, dev) => NoteKeepsOut(d, extension, dev);
        case DoObserveDevice(extension, signal) => ObserveKeepsOut(d, extension, signal);
        case _ =>
      }
    }
  }

  lemma {:induction false} RunKeepsOut(bindings: map<nat, string>, actions: seq<Action>)
    ensures OutIsTold(Run(Opening(bindings), actions))
    decreases |actions|
  {
    if actions != [] {
      RunKeepsOut(bindings, actions[..|actions| - 1]);
      StepKeepsOut(Run(Opening(bindings), actions[..|actions| - 1]), actions[|actions| - 1]);
    }
  }

  /** In every run, while synced, of all the agents the switch was told of exactly those stand
      as Available who are signed in, READY and have a phone that answers; and the others
      are On Break if signed in, Logged Out if not. */
  lemma OnlyTheReachableAreAvailable(bindings: map<nat, string>, actions: seq<Action>, a: nat)
    ensures var d := Run(Opening(bindings), actions);
            d.switch.isSynced && a in d.switch.statuses ==>
              && (d.switch.statuses[a].Available? <==>
                    IsSignedIn(d.live, a) && d.live[a].state.Ready? && d.live[a].isRegistered && d.live[a].isInService)
              && (d.switch.statuses[a].SwitchLoggedOut? <==> !IsSignedIn(d.live, a))
  {
    RunKeeps(bindings, actions);
    RunKeepsOut(bindings, actions);
  }

  lemma SigningOutTells(d: Desk, a: nat)
    requires d.switch.isUp && IsSignedIn(d.live, a) && a in d.bindings
    ensures var d' := LogOut(d, a);
            !IsSignedIn(d'.live, a) && a in d'.switch.statuses && d'.switch.statuses[a].SwitchLoggedOut?
  {
  }

  /** In every run, with the link up, an agent who signs out is told to the switch as logged
      out, */
  lemma SignOutIsTold(bindings: map<nat, string>, actions: seq<Action>, a: nat)
    ensures var d := Run(Opening(bindings), actions);
            d.switch.isUp && IsSignedIn(d.live, a) ==>
              var d' := Step(d, DoLogout(a));
              !IsSignedIn(d'.live, a) && a in d'.switch.statuses && d'.switch.statuses[a].SwitchLoggedOut?
  {
    RunKeeps(bindings, actions);
    var d := Run(Opening(bindings), actions);
    if d.switch.isUp && IsSignedIn(d.live, a) {
      SigningOutTells(d, a);
    }
  }

  /** and so is one given another phone while signed out. A signed-in agent keeps their
      phone. */
  lemma RebindIsTold(d: Desk, a: nat, extension: string)
    requires a in d.bindings
    ensures var d' := Step(d, DoRebind(a, extension));
            && d'.live == d.live
            && (if !IsSignedIn(d.live, a) then
                  && d'.bindings == d.bindings[a := extension]
                  && (d.switch.isUp ==> a in d'.switch.statuses && d'.switch.statuses[a].SwitchLoggedOut?)
                else
                  && d'.bindings == d.bindings && d'.phones == d.phones
                  && (extension != d.bindings[a] ==> d'.switch == d.switch))
  {
    assert d.bindings[a] == extension ==> d.bindings[a := extension] == d.bindings;
  }

  /** Both phones of a change start afresh: whatever was said of them before, the next signal
      about either is news. */
  lemma ReboundPhonesAreNews(bindings: map<nat, string>, actions: seq<Action>, a: nat, extension: string,
                             signal: Signal, e: string)
    requires var d := Run(Opening(bindings), actions);
             a in d.bindings && !IsSignedIn(d.live, a) && d.bindings[a] != extension && e in {d.bindings[a], extension}
    ensures var d' := Run(Opening(bindings), actions + [DoRebind(a, extension)]);
            IsSomebodys(d', e) ==> IsPublished(d', Step(d', DoObserveDevice(e, signal)), e, Saying(signal))
  {
    var d, more := Run(Opening(bindings), actions), actions + [DoRebind(a, extension)];
    RunOneMore(Opening(bindings), actions, DoRebind(a, extension));
    RebindingForgets(d, a, extension, e);
    RunKeeps(bindings, more);
    if IsSomebodys(Rebind(d, a, extension), e) {
      NextSignalIsNews(Rebind(d, a, extension), e, signal);
    }
  }

  lemma NextSignalIsNews(d: Desk, extension: string, signal: Signal)
    requires OneEach(d) && ToldIsAnnounced(d.phones) && IsSomebodys(d, extension)
    requires LastTold(d.phones.told, extension).None?
    ensures IsPublished(d, Step(d, DoObserveDevice(extension, signal)), extension, Saying(signal))
  {
    SignalIsPublished(d, extension, signal);
  }

  lemma RebindingForgets(d: Desk, a: nat, extension: string, e: string)
    requires a in d.bindings && !IsSignedIn(d.live, a) && d.bindings[a] != extension && e in {d.bindings[a], extension}
    ensures LastTold(Rebind(d, a, extension).phones.told, e).None?
  {
    var told := d.phones.told;
    assert Rebind(d, a, extension).phones.told == told + [Forgotten(d.bindings[a])] + [Forgotten(extension)];
    LastToldOfOneMore(told, Forgotten(d.bindings[a]), e);
    LastToldOfOneMore(told + [Forgotten(d.bindings[a])], Forgotten(extension), e);
  }

  //
  // What is published.
  //

  /** A signal as what it says of the phone. */
  function Saying(signal: Signal): Device {
    Device(!signal.Unregistered?, signal.Registered? || signal.Reachable?)
  }

  /** The phone is the agent's, and nobody else is signed in at it. */
  ghost predicate IsTheirs(d: Desk, extension: string, a: nat) {
    && extension != "" && a in d.bindings && d.bindings[a] == extension
    && forall b :: IsSignedIn(d.live, b) && d.live[b].extension == extension ==> b == a
  }

  ghost predicate IsSomebodys(d: Desk, extension: string) {
    extension != "" && exists a :: a in d.bindings && d.bindings[a] == extension
  }

  /** One DEVICE event is published, to the agent the phone is bound to. */
  ghost predicate IsPublished(d: Desk, d': Desk, extension: string, dev: Device) {
    exists a: nat :: IsTheirs(d, extension, a) && d'.phones.told == d.phones.told + [Told(extension, a, dev)]
  }

  /** The stream is told, if it is news. */
  ghost predicate IsTold(d: Desk, d': Desk, extension: string, dev: Device) {
    if LastTold(d.phones.told, extension) == Some(dev) then d'.phones.told == d.phones.told
    else IsPublished(d, d', extension, dev)
  }

  lemma AnnouncingTells(d: Desk, d': Desk, extension: string, a: nat, dev: Device)
    requires ToldIsAnnounced(d.phones) && d'.phones.told == Announce(d.phones, extension, a, dev).told
    requires IsTheirs(d, extension, a)
    ensures IsTold(d, d', extension, dev)
  {
  }

  /** In every run a signal about a phone publishes one DEVICE event, saying what the signal
      does, to the agent the phone is bound to, exactly when that is news to their stream.
      A phone that is nobody's publishes nothing. */
  lemma SignalsArePublishedExactlyWhen(bindings: map<nat, string>, actions: seq<Action>, extension: string,
                                       signal: Signal)
    ensures var d := Run(Opening(bindings), actions);
            var d' := Step(d, DoObserveDevice(extension, signal));
            if IsSomebodys(d, extension) then IsTold(d, d', extension, Saying(signal))
            else d'.phones.told == d.phones.told
  {
    RunKeeps(bindings, actions);
    SignalIsPublished(Run(Opening(bindings), actions), extension, signal);
  }

  lemma SignalIsPublished(d: Desk, extension: string, signal: Signal)
    requires OneEach(d) && ToldIsAnnounced(d.phones)
    ensures var d' := ObserveDevice(d, extension, signal);
            if IsSomebodys(d, extension) then IsTold(d, d', extension, Saying(signal))
            else d'.phones.told == d.phones.told
  {
    var d', dev := ObserveDevice(d, extension, signal), Saying(signal);
    var noted := Note(d, extension, dev);
    assert DeviceOf(signal) == dev;
    if Holder(d.live, extension).Some? {
      var a := Holder(d.live, extension).value;
      assert IsTheirs(d, extension, a);
      AnnouncingTells(d, d', extension, a, dev);
    } else if IsSomebodys(d, extension) {
      var a := BoundTo(d.bindings, extension).value;
      assert forall b: nat :: !IsAt(d.live, b, extension);
      assert !IsSignedIn(d.live, a) && IsTheirs(d, extension, a);
      AnnouncingTells(d, d', extension, a, dev);
    }
  }

  //
  // What requests do.
  //

  /** An agent signs in if and only if a phone is bound to them that nobody else is signed in
      at, and they are not signed in already: at that phone, as the switch last spoke of it,
      and not ready. */
  lemma SignsInExactlyWhen(bindings: map<nat, string>, actions: seq<Action>, a: nat)
    ensures var d := Run(Opening(bindings), actions);
            var d', p := Step(d, DoLogin(a)), Of(d.live, a);
            if || a !in d.bindings || d.bindings[a] == "" || IsSignedIn(d.live, a)
               || (exists b :: IsSignedIn(d.live, b) && d.live[b].extension == d.bindings[a]) then d' == d
            else
              var e := d.bindings[a];
              var dev := if e in d.phones.devices then d.phones.devices[e] else Device(p.isRegistered, p.isInService);
              && d'.live == d.live[a := p.(state := NotReady, reason := Login, extension := e, wrapUpCall := 0,
                                           isRegistered := dev.isRegistered, isInService := dev.isInService)]
              && d'.phones == d.phones
              && (d.switch.isUp ==> a in d'.switch.statuses && d'.switch.statuses[a].OnBreak?)
  {
    RunKeeps(bindings, actions);
    SigningInDoes(Run(Opening(bindings), actions), a);
  }

  lemma SigningInDoes(d: Desk, a: nat)
    requires OneEach(d)
    ensures var d', p := LogIn(d, a), Of(d.live, a);
            if || a !in d.bindings || d.bindings[a] == "" || IsSignedIn(d.live, a)
               || (exists b :: IsSignedIn(d.live, b) && d.live[b].extension == d.bindings[a]) then d' == d
            else
              var e := d.bindings[a];
              var dev := if e in d.phones.devices then d.phones.devices[e] else Device(p.isRegistered, p.isInService);
              && d'.live == d.live[a := p.(state := NotReady, reason := Login, extension := e, wrapUpCall := 0,
                                           isRegistered := dev.isRegistered, isInService := dev.isInService)]
              && d'.phones == d.phones
              && (d.switch.isUp ==> a in d'.switch.statuses && d'.switch.statuses[a].OnBreak?)
  {
    if a in d.bindings {
      var e := d.bindings[a];
      forall b: nat | IsAt(d.live, b, e)
        ensures Holder(d.live, e) == Some(b)
      {
        HolderIsUnique(d, b, e);
      }
    }
  }

  /** What one agent's request leaves: a state and reason, or everything as it was. */
  ghost predicate Stands(d: Desk, d': Desk, a: nat, isDone: bool, state: State, reason: Reason) {
    if !isDone then d'.live == d.live && d'.switch == d.switch
    else
      && a in d.live && a in d'.live && d'.live == d.live[a := d'.live[a]]
      && d'.live[a].state == state && d'.live[a].reason == reason && d'.live[a].extension == d.live[a].extension
      && d'.live[a].isRegistered == d.live[a].isRegistered && d'.live[a].isInService == d.live[a].isInService
  }

  /** READY needs a registration; not-ready a reason; after-call work ends in READY, or in
      DEVICE_LOST without a phone; and only a READY agent whose phone answers is benched for
      not answering. All need a sign-in. */
  lemma RequestsDo(bindings: map<nat, string>, actions: seq<Action>, a: nat, reason: Reason, call: nat)
    ensures var d := Run(Opening(bindings), actions);
            var p, isIn := Of(d.live, a), IsSignedIn(d.live, a);
            var isWrappingUp := isIn && p.state.NotReady? && p.reason.AfterCallWork?;
            && Stands(d, Step(d, DoReady(a)), a, isIn && p.isRegistered, Ready, NoReason)
            && Stands(d, Step(d, DoNotReady(a, reason)), a, isIn && !reason.NoReason?, NotReady, reason)
            && Stands(d, Step(d, DoStartWrapUp(a, call)), a, isIn, NotReady, AfterCallWork)
            && Stands(d, Step(d, DoEndWrapUp(a)), a, isWrappingUp,
                      if p.isRegistered then Ready else NotReady, if p.isRegistered then NoReason else DeviceLost)
            && Stands(d, Step(d, DoRingNoAnswer(a)), a, isIn && p.state.Ready? && p.isRegistered && p.isInService,
                      NotReady, System)
  {
    RunKeeps(bindings, actions);
    ChoicesLeave(Run(Opening(bindings), actions), a, reason);
    WorkLeaves(Run(Opening(bindings), actions), a, call);
  }

  lemma ChoicesLeave(d: Desk, a: nat, reason: Reason)
    requires OneEach(d)
    ensures var p, isIn := Of(d.live, a), IsSignedIn(d.live, a);
            && Stands(d, Step(d, DoReady(a)), a, isIn && p.isRegistered, Ready, NoReason)
            && Stands(d, Step(d, DoNotReady(a, reason)), a, isIn && !reason.NoReason?, NotReady, reason)
  {
    assert IsSignedIn(d.live, a) ==> a in d.bindings;
  }

  lemma WorkLeaves(d: Desk, a: nat, call: nat)
    requires OneEach(d)
    ensures var p, isIn := Of(d.live, a), IsSignedIn(d.live, a);
            var isWrappingUp := isIn && p.state.NotReady? && p.reason.AfterCallWork?;
            && Stands(d, Step(d, DoStartWrapUp(a, call)), a, isIn, NotReady, AfterCallWork)
            && Stands(d, Step(d, DoEndWrapUp(a)), a, isWrappingUp,
                      if p.isRegistered then Ready else NotReady, if p.isRegistered then NoReason else DeviceLost)
            && Stands(d, Step(d, DoRingNoAnswer(a)), a, isIn && p.state.Ready? && p.isRegistered && p.isInService,
                      NotReady, System)
  {
    assert IsSignedIn(d.live, a) ==> a in d.bindings;
  }

  /** The release pass takes out exactly the READY agents without a registration, as
      DEVICE_LOST, and tells the switch; everybody else stands where they stood. */
  lemma ReleaseDoes(bindings: map<nat, string>, actions: seq<Action>, a: nat)
    ensures var d := Run(Opening(bindings), actions);
            var d' := Step(d, DoReleaseAll);
            var isLost := a in d.live && d.live[a].state.Ready? && !d.live[a].isRegistered;
            && (if isLost then
                  && a in d'.live
                  && d'.live[a] == d.live[a].(state := NotReady, reason := DeviceLost, wrapUpCall := 0)
                  && (d.switch.isUp ==> a in d'.switch.statuses && d'.switch.statuses[a].OnBreak?)
                else Of(d'.live, a) == Of(d.live, a))
            && d'.phones == d.phones && d'.bindings == d.bindings
  {
    RunKeeps(bindings, actions);
    ReleasePassDoes(Run(Opening(bindings), actions), a);
  }

  lemma ReleasePassDoes(d: Desk, a: nat)
    requires OneEach(d)
    ensures var d' := ReleaseAll(d);
            var isLost := a in d.live && d.live[a].state.Ready? && !d.live[a].isRegistered;
            && (if isLost then
                  && a in d'.live
                  && d'.live[a] == d.live[a].(state := NotReady, reason := DeviceLost, wrapUpCall := 0)
                  && (d.switch.isUp ==> a in d'.switch.statuses && d'.switch.statuses[a].OnBreak?)
                else Of(d'.live, a) == Of(d.live, a))
            && d'.phones == d.phones && d'.bindings == d.bindings
  {
    assert a in d.live && d.live[a].state.Ready? ==> IsSignedIn(d.live, a);
  }

  /** A call being on the phone shows in the presence, over anything but a sign-out, and
      nowhere else. */
  lemma CallsAreShown(d: Desk, a: nat, isOnCall: bool, call: nat)
    ensures var d' := Step(d, DoSetOnCall(a, isOnCall, call));
            var p, p' := Of(d.live, a), Of(d'.live, a);
            && p'.isOnCall == isOnCall
            && p' == p.(isOnCall := isOnCall,
                        currentCall := if p.isOnCall == isOnCall then p.currentCall else if isOnCall then call else 0)
            && (AvailabilityOf(p').AvailOnCall? <==> isOnCall && !p.state.LoggedOut?)
            && (forall b :: b != a ==> Of(d'.live, b) == Of(d.live, b))
  {
  }

  /** The call an agent last wrapped up is noted until they sign out, and the call an
      after-call work is for with it. */
  lemma WrapUpsAreNoted(d: Desk, a: nat, call: nat)
    requires IsSignedIn(d.live, a) && a in d.bindings
    ensures var noted := Step(d, DoStartWrapUp(a, call));
            && a in noted.live && noted.live[a].wrapUpCall == call
            && (call != 0 ==> a in noted.lastCall && noted.lastCall[a] == call)
            && a !in Step(noted, DoLogout(a)).lastCall
            && (noted.live[a].isRegistered ==> Of(Step(noted, DoEndWrapUp(a)).live, a).wrapUpCall == 0)
  {
  }
}
