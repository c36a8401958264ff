/** What every run of requests and device signals keeps. */
module AgentRuns {
  import opened Util
  import opened AgentSteps

  /** Nobody else is signed in at a signed-in agent's extension, which is their own. */
  ghost predicate OneEach(d: Desk) {
    && (forall a :: IsSignedIn(d.live, a) ==> a in d.bindings && d.live[a].extension == d.bindings[a] != "")
    && (forall a, b ::
          IsSignedIn(d.live, a) && IsSignedIn(d.live, b) && d.live[a].extension == d.live[b].extension ==> a == b)
  }

  /** A READY agent has a phone. */
  ghost predicate ReadyHasPhone(d: Desk) {
    forall a :: a in d.live && d.live[a].state.Ready? ==> d.live[a].isRegistered
  }

  /** The switch was last told what each signed-in agent's presence comes to. */
  ghost predicate InSync(d: Desk) {
    d.switch.isSynced ==>
      d.switch.isUp && forall a :: IsSignedIn(d.live, a) ==>
        a in d.switch.statuses && d.switch.statuses[a] == CallcenterStatus(d.live[a])
  }

  /** What the stream was last told of the extension's phone, since it last changed hands. */
  function LastTold(told: seq<Notice>, extension: string): Option<Device>
    decreases |told|
  {
    if told == [] then None
    else
      var before, last := LastTold(told[..|told| - 1], extension), told[|told| - 1];
      if last.extension != extension then before
      else match last case Told(_, _, device) => Some(device) case Forgotten(_) => None
  }

  ghost predicate ToldIsAnnounced(phones: Phones) {
    && (forall e :: if e in phones.announced then LastTold(phones.told, e) == Some(phones.announced[e])
                    else LastTold(phones.told, e) == None)
    && NewsOnly(phones.told)
  }

  /** Every DEVICE event tells something else than the one before it. */
  ghost predicate NewsOnly(told: seq<Notice>) {
    forall i :: 0 <= i < |told| && told[i].Told? ==> LastTold(told[..i], told[i].extension) != Some(told[i].device)
  }

  lemma HolderIsUnique(d: Desk, a: nat, extension: string)
    requires OneEach(d) && IsAt(d.live, a, extension)
    ensures Holder(d.live, extension) == Some(a)
  {
  }

  //
  // One agent's presence changes.
  //

  /** What a step to d' keeps. */
  ghost predicate Kept(d: Desk, d': Desk) {
    && OneEach(d')
    && (ReadyHasPhone(d) ==> ReadyHasPhone(d'))
    && (InSync(d) ==> InSync(d'))
  }

  lemma ChangeKeeps(d: Desk, a: nat, outcome: Outcome)
    requires OneEach(d)
    requires outcome.Done? && !outcome.presence.state.LoggedOut? ==>
               IsSignedIn(d.live, a) && outcome.presence.extension == d.live[a].extension
    requires outcome.Done? && outcome.presence.state.Ready? ==> outcome.presence.isRegistered
    ensures Kept(d, Change(d, a, outcome))
  {
  }

  lemma LogInKeeps(d: Desk, a: nat)
    requires OneEach(d)
    ensures Kept(d, LogIn(d, a))
  {
    if a in d.bindings && d.bindings[a] != "" {
      var e := d.bindings[a];
      forall b: nat | IsAt(d.live, b, e)
        ensures Holder(d.live, e) == Some(b)
      {
        HolderIsUnique(d, b, e);
      }
      assert Holder(d.live, e).None? ==> forall b :: !IsAt(d.live, b, e);
    }
  }

  lemma NoteKeepsOneEach(d: Desk, extension: string, dev: Device)
    requires OneEach(d)
    ensures OneEach(Note(d, extension, dev))
    ensures dev.isRegistered && ReadyHasPhone(d) ==> ReadyHasPhone(Note(d, extension, dev))
  {
  }

  /** The switch was last told what the presence of every signed-in agent but one comes to. */
  ghost predicate InSyncBut(d: Desk, a: nat) {
    d.switch.isSynced ==>
      d.switch.isUp && forall b :: b != a && IsSignedIn(d.live, b) ==>
        b in d.switch.statuses && d.switch.statuses[b] == CallcenterStatus(d.live[b])
  }

  ghost predicate ReadyHasPhoneBut(d: Desk, a: nat) {
    forall b :: b != a && b in d.live && d.live[b].state.Ready? ==> d.live[b].isRegistered
  }

  /** Mirroring the one brings it into line. */
  lemma MirrorSyncs(d: Desk, a: nat, phones: Phones)
    requires InSyncBut(d, a) && a in d.live
    ensures InSync(d.(switch := Mirrored(d.switch, a, d.live[a]), phones := phones))
  {
  }

  lemma ReleaseRepairs(d: Desk, a: nat)
    requires OneEach(d) && InSync(d) && a in d.bindings
    ensures var d' := ReleaseForLost(d, a);
            OneEach(d') && InSync(d') && (ReadyHasPhoneBut(d, a) ==> ReadyHasPhone(d'))
  {
  }

  lemma ObserveKeeps(d: Desk, extension: string, signal: Signal)
    requires OneEach(d)
    ensures Kept(d, ObserveDevice(d, extension, signal))
  {
    var dev := DeviceOf(signal);
    var noted := Note(d, extension, dev);
    NoteKeepsOneEach(d, extension, dev);
    var holder := Holder(d.live, extension);
    if holder.Some? {
      ObserveHolderKeeps(d, extension, signal, holder.value);
    }
  }

  lemma ObserveHolderKeeps(d: Desk, extension: string, signal: Signal, a: nat)
    requires OneEach(d) && Holder(d.live, extension) == Some(a)
    ensures Kept(d, ObserveDevice(d, extension, signal))
  {
    var dev := DeviceOf(signal);
    var noted := Note(d, extension, dev);
    NoteKeepsOneEach(d, extension, dev);
    assert InSync(d) ==> InSyncBut(noted, a);
    assert ReadyHasPhone(d) ==> ReadyHasPhoneBut(noted, a);
    var phones := Announce(noted.phones, extension, a, dev);
    var told := noted.(switch := Mirrored(noted.switch, a, noted.live[a]), phones := phones);
    if InSync(d) {
      MirrorSyncs(noted, a, told.phones);
    }
    assert OneEach(told);
    if signal.Unregistered? {
      if InSync(d) {
        ReleaseRepairs(told, a);
      } else {
        ReleaseRepairs(told.(switch := told.switch.(isSynced := false)), a);
      }
    } else if signal.Registered? {
      ChangeKeeps(told, a, MakeReady(told.live[a]));
    }
  }

  lemma ReleaseAllKeeps(d: Desk)
    requires OneEach(d)
    ensures Kept(d, ReleaseAll(d)) && ReadyHasPhone(ReleaseAll(d))
  {
  }

  lemma SyncSwitchKeeps(d: Desk)
    requires OneEach(d)
    ensures Kept(d, SyncSwitch(d)) && (d.switch.isUp ==> SyncSwitch(d).switch.isSynced && InSync(SyncSwitch(d)))
  {
  }

  lemma RebindKeeps(d: Desk, a: nat, extension: string)
    requires OneEach(d)
    ensures Kept(d, Rebind(d, a, extension))
  {
  }

  /** What an agent or a supervisor asks for. */
  predicate IsRequest(action: Action) {
    action.DoLogin? || action.DoLogout? || action.DoReady? || action.DoNotReady? || action.DoStartWrapUp?
    || action.DoEndWrapUp? || action.DoRingNoAnswer? || action.DoSetOnCall?
  }

  /** The transitions of one agent's presence. */
  lemma TransitionKeeps(d: Desk, action: Action)
    requires OneEach(d)
    requires action.DoLogout? || action.DoReady? || action.DoNotReady? || action.DoEndWrapUp? || action.DoRingNoAnswer?
    ensures Kept(d, Step(d, action))
  {
    var p := Of(d.live, action.a);
    match action {
      case DoLogout(a) => ChangeKeeps(d, a, SignOut(p));
      case DoReady(a) => ChangeKeeps(d, a, MakeReady(p));
      case DoNotReady(a, reason) => ChangeKeeps(d, a, MakeNotReady(p, reason));
      case DoEndWrapUp(a) =>
        ChangeKeeps(d, a, if p.isRegistered then MakeReady(p) else MakeNotReady(p, DeviceLost));
      case DoRingNoAnswer(a) => ChangeKeeps(d, a, MakeNotReady(p, System));
    }
  }

  lemma RequestKeeps(d: Desk, action: Action)
    requires OneEach(d) && IsRequest(action)
    ensures Kept(d, Step(d, action))
  {
    match action {
      case DoLogin(a) => LogInKeeps(d, a);
      case DoStartWrapUp(a, call) => StartWrapUpKeeps(d, a, call);
      case DoSetOnCall(a, isOnCall, call) => SetOnCallKeeps(d, a, isOnCall, call);
      case _ => TransitionKeeps(d, action);
    }
  }

  lemma LinkKeeps(d: Desk, action: Action)
    requires OneEach(d) && (action.LinkDown? || action.LinkUp?)
    ensures Kept(d, Step(d, action))
  {
  }

  lemma NoteDeviceKeeps(d: Desk, extension: string, dev: Device)
    requires OneEach(d)
    ensures OneEach(NoteDevice(d, extension, dev)) && InSync(NoteDevice(d, extension, dev))
  {
    NoteKeepsOneEach(d, extension, dev);
  }

  lemma StepKeeps(d: Desk, action: Action)
    requires OneEach(d)
    ensures OneEach(Step(d, action)) && (InSync(d) ==> InSync(Step(d, action)))
    ensures !action.DoNoteDevice? && ReadyHasPhone(d) ==> ReadyHasPhone(Step(d, action))
  {
    if IsRequest(action) {
      RequestKeeps(d, action);
    } else {
      match action {
        case DoNoteDevice(extension, dev) => NoteDeviceKeeps(d, extension, dev);
        case DoObserveDevice(extension, signal) => ObserveKeeps(d, extension, signal);
        case DoReleaseAll => ReleaseAllKeeps(d);
        case DoSyncSwitch => SyncSwitchKeeps(d);
        case DoRebind(a, extension) => RebindKeeps(d, a, extension);
        case _ => LinkKeeps(d, action);
      }
    }
  }

  lemma StartWrapUpKeeps(d: Desk, a: nat, call: nat)
    requires OneEach(d)
    ensures Kept(d, StartWrapUp(d, a, call))
  {
    var noted := if call != 0 then d.(lastCall := d.lastCall[a := call]) else d;
    ChangeKeeps(noted, a, BeginWrapUp(Of(noted.live, a), call));
  }

  lemma SetOnCallKeeps(d: Desk, a: nat, isOnCall: bool, call: nat)
    requires OneEach(d)
    ensures Kept(d, SetOnCall(d, a, isOnCall, call))
  {
  }

  //
  // Device events.
  //

  lemma LastToldOfOneMore(told: seq<Notice>, n: Notice, extension: string)
    ensures LastTold(told + [n], extension) ==
            if n.extension != extension then LastTold(told, extension)
            else match n case Told(_, _, device) => Some(device) case Forgotten(_) => None
  {
    assert (told + [n])[..|told|] == told;
  }

  lemma NewsOneMore(told: seq<Notice>, n: Notice)
    requires NewsOnly(told) && (n.Told? ==> LastTold(told, n.extension) != Some(n.device))
    ensures NewsOnly(told + [n])
  {
    var all := told + [n];
    forall i | 0 <= i < |all| && all[i].Told?
      ensures LastTold(all[..i], all[i].extension) != Some(all[i].device)
    {
      assert all[..i] == told[..i];
      assert told[..|told|] == told;
    }
  }

  lemma AnnounceKeeps(phones: Phones, extension: string, a: nat, dev: Device)
    requires ToldIsAnnounced(phones)
    ensures ToldIsAnnounced(Announce(phones, extension, a, dev))
  {
    var phones' := Announce(phones, extension, a, dev);
    if phones' != phones {
      NewsOneMore(phones.told, Told(extension, a, dev));
      forall e
        ensures if e in phones'.announced then LastTold(phones'.told, e) == Some(phones'.announced[e])
                else LastTold(phones'.told, e) == None
      {
        LastToldOfOneMore(phones.told, Told(extension, a, dev), e);
      }
    }
  }

  lemma ForgetKeeps(phones: Phones, before: string, after: string)
    requires ToldIsAnnounced(phones)
    ensures ToldIsAnnounced(Forget(phones, before, after))
  {
    var once := phones.told + [Forgotten(before)];
    assert phones.told + [Forgotten(before), Forgotten(after)] == once + [Forgotten(after)];
    NewsOneMore(phones.told, Forgotten(before));
    NewsOneMore(once, Forgotten(after));
    forall e
      ensures LastTold(once + [Forgotten(after)], e) ==
              if e == before || e == after then None else LastTold(phones.told, e)
    {
      LastToldOfOneMore(phones.told, Forgotten(before), e);
      LastToldOfOneMore(once, Forgotten(after), e);
    }
  }

  lemma StepKeepsAnnounced(d: Desk, action: Action)
    requires ToldIsAnnounced(d.phones)
    ensures ToldIsAnnounced(Step(d, action).phones)
  {
    match action {
      case DoObserveDevice(extension, signal) => ObserveKeepsAnnounced(d, extension, signal);
      case DoRebind(a, extension) =>
        if a in d.bindings {
          ForgetKeeps(d.phones, d.bindings[a], extension);
        }
      case _ =>
    }
  }

  lemma ObserveKeepsAnnounced(d: Desk, extension: string, signal: Signal)
    requires ToldIsAnnounced(d.phones)
    ensures ToldIsAnnounced(ObserveDevice(d, extension, signal).phones)
  {
    var dev := DeviceOf(signal);
    var noted := Note(d, extension, dev);
    match Holder(d.live, extension) {
      case None =>
        if BoundTo(noted.bindings, extension).Some? {
          AnnounceKeeps(noted.phones, extension, BoundTo(noted.bindings, extension).value, dev);
        }
      case Some(a) => AnnounceKeeps(noted.phones, extension, a, dev);
    }
  }

  //
  // Registration, as the switch reported it.
  //

  /** What a signed-in agent's presence says of their phone is what the switch said last,
      if it ever spoke of it. */
  ghost predicate FlagsAreTrue(d: Desk) {
    forall a :: IsSignedIn(d.live, a) && d.live[a].extension in d.phones.devices ==>
      d.phones.devices[d.live[a].extension] == Device(d.live[a].isRegistered, d.live[a].isInService)
  }

  lemma ChangeKeepsFlags(d: Desk, a: nat, outcome: Outcome)
    requires FlagsAreTrue(d)
    requires outcome.Done? && !outcome.presence.state.LoggedOut? ==>
               && IsSignedIn(d.live, a) && outcome.presence.extension == d.live[a].extension
               && outcome.presence.isRegistered == d.live[a].isRegistered
               && outcome.presence.isInService == d.live[a].isInService
    ensures FlagsAreTrue(Change(d, a, outcome))
  {
  }

  lemma NoteKeepsFlags(d: Desk, extension: string, dev: Device)
    requires OneEach(d) && FlagsAreTrue(d)
    ensures FlagsAreTrue(Note(d, extension, dev))
  {
    forall b: nat | IsAt(d.live, b, extension)
      ensures Holder(d.live, extension) == Some(b)
    {
      HolderIsUnique(d, b, extension);
    }
  }

  lemma ObserveKeepsFlags(d: Desk, extension: string, signal: Signal)
    requires OneEach(d) && FlagsAreTrue(d)
    ensures FlagsAreTrue(ObserveDevice(d, extension, signal))
  {
    var dev := DeviceOf(signal);
    var noted := Note(d, extension, dev);
    NoteKeepsFlags(d, extension, dev);
    if Holder(d.live, extension).Some? {
      var a := Holder(d.live, extension).value;
      var phones := Announce(noted.phones, extension, a, dev);
    var told := noted.(switch := Mirrored(noted.switch, a, noted.live[a]), phones := phones);
      ChangeKeepsFlags(told, a, MakeReady(told.live[a]));
      ChangeKeepsFlags(told, a, MakeNotReady(told.live[a], DeviceLost));
    }
  }

  lemma LogInKeepsFlags(d: Desk, a: nat)
    requires FlagsAreTrue(d)
    ensures FlagsAreTrue(LogIn(d, a))
  {
  }

  lemma TransitionKeepsFlags(d: Desk, action: Action)
    requires FlagsAreTrue(d)
    requires action.DoLogout? || action.DoReady? || action.DoNotReady? || action.DoEndWrapUp? || action.DoRingNoAnswer?
    ensures FlagsAreTrue(Step(d, action))
  {
    var p := Of(d.live, action.a);
    match action {
      case DoLogout(a) => ChangeKeepsFlags(d, a, SignOut(p));
      case DoReady(a) => ChangeKeepsFlags(d, a, MakeReady(p));
      case DoNotReady(a, reason) => ChangeKeepsFlags(d, a, MakeNotReady(p, reason));
      case DoEndWrapUp(a) =>
        ChangeKeepsFlags(d, a, if p.isRegistered then MakeReady(p) else MakeNotReady(p, DeviceLost));
      case DoRingNoAnswer(a) => ChangeKeepsFlags(d, a, MakeNotReady(p, System));
    }
  }

  lemma RequestKeepsFlags(d: Desk, action: Action)
    requires FlagsAreTrue(d) && IsRequest(action)
    ensures FlagsAreTrue(Step(d, action))
  {
    match action {
      case DoLogin(a) => LogInKeepsFlags(d, a);
      case DoStartWrapUp(a, call) => StartWrapUpKeepsFlags(d, a, call);
      case DoSetOnCall(_, _, _) =>
      case _ => TransitionKeepsFlags(d, action);
    }
  }

  lemma PassKeepsFlags(d: Desk, action: Action)
    requires FlagsAreTrue(d)
    requires action.DoReleaseAll? || action.DoSyncSwitch? || action.LinkDown? || action.LinkUp? || action.DoRebind?
    ensures FlagsAreTrue(Step(d, action))
  {
  }

  lemma StepKeepsFlags(d: Desk, action: Action)
    requires OneEach(d) && FlagsAreTrue(d)
    ensures FlagsAreTrue(Step(d, action))
  {
    if IsRequest(action) {
      RequestKeepsFlags(d, action);
    } else {
      match action {
        case DoNoteDevice(extension, dev) => NoteKeepsFlags(d, extension, dev);
        case DoObserveDevice(extension, signal) => ObserveKeepsFlags(d, extension, signal);
        case _ => PassKeepsFlags(d, action);
      }
    }
  }

  lemma StartWrapUpKeepsFlags(d: Desk, a: nat, call: nat)
    requires FlagsAreTrue(d)
    ensures FlagsAreTrue(StartWrapUp(d, a, call))
  {
    var noted := if call != 0 then d.(lastCall := d.lastCall[a := call]) else d;
    ChangeKeepsFlags(noted, a, BeginWrapUp(Of(noted.live, a), call));
  }

  //
  // The theorems.
  //

  lemma {:induction false} RunKeeps(bindings: map<nat, string>, actions: seq<Action>)
    ensures var d := Run(Opening(bindings), actions);
            OneEach(d) && InSync(d) && FlagsAreTrue(d) && ToldIsAnnounced(d.phones)
    decreases |actions|
  {
    if actions != [] {
      var before, action := actions[..|actions| - 1], actions[|actions| - 1];
      RunKeeps(bindings, before);
      var d := Run(Opening(bindings), before);
      StepKeeps(d, action);
      StepKeepsFlags(d, action);
      StepKeepsAnnounced(d, action);
    }
  }

  /** In every run at most one agent is signed in at an extension, each at their own. */
  lemma OneAgentPerExtension(bindings: map<nat, string>, actions: seq<Action>, a: nat, b: nat)
    ensures var d := Run(Opening(bindings), actions);
            && (IsSignedIn(d.live, a) ==> a in d.bindings && d.live[a].extension == d.bindings[a] != "")
            && (IsSignedIn(d.live, a) && IsSignedIn(d.live, b) && d.live[a].extension == d.live[b].extension ==> a == b)
  {
    RunKeeps(bindings, actions);
  }

  /** After the release pass every READY agent is registered, and stays so through any
      actions that are not a quiet note of a phone. */
  lemma {:induction false} ReadyAgentsHavePhones(bindings: map<nat, string>, actions: seq<Action>, after: seq<Action>)
    requires forall i :: 0 <= i < |after| ==> !after[i].DoNoteDevice?
    ensures var d := Run(ReleaseAll(Run(Opening(bindings), actions)), after);
            OneEach(d) && ReadyHasPhone(d)
    decreases |after|
  {
    if after == [] {
      RunKeeps(bindings, actions);
      ReleaseAllKeeps(Run(Opening(bindings), actions));
    } else {
      ReadyAgentsHavePhones(bindings, actions, after[..|after| - 1]);
      StepKeeps(Run(ReleaseAll(Run(Opening(bindings), actions)), after[..|after| - 1]), after[|after| - 1]);
    }
  }

  /** While the link has been up since the last SyncSwitch and no phone was noted quietly,
      the switch was last told what every signed-in agent's presence comes to: Available
      exactly for those READY with a phone that answers. */
  lemma SwitchKnowsWhoIsAvailable(bindings: map<nat, string>, actions: seq<Action>, a: nat)
    ensures var d := Run(Opening(bindings), actions);
            d.switch.isSynced && IsSignedIn(d.live, a) ==>
              && a in d.switch.statuses
              && (d.switch.statuses[a].Available? <==>
                    d.live[a].state.Ready? && d.live[a].isRegistered && d.live[a].isInService)
              && (d.switch.statuses[a].Available? ==> AvailabilityOf(d.live[a]) in {AvailReady, AvailOnCall})
              && !d.switch.statuses[a].SwitchLoggedOut?
  {
    RunKeeps(bindings, actions);
  }

  /** SyncSwitch with the link up gets there. */
  lemma SyncSwitchTellsAll(bindings: map<nat, string>, actions: seq<Action>)
    ensures var d := Run(Opening(bindings), actions);
            d.switch.isUp ==> SyncSwitch(d).switch.isSynced && InSync(SyncSwitch(d))
  {
    RunKeeps(bindings, actions);
    SyncSwitchKeeps(Run(Opening(bindings), actions));
  }

  /** Two DEVICE events of one phone in a row, while it has not changed hands, tell
      different things. */
  lemma DeviceEventsAreNews(bindings: map<nat, string>, actions: seq<Action>)
    ensures NewsOnly(Run(Opening(bindings), actions).phones.told)
  {
    RunKeeps(bindings, actions);
  }

  /** A presence says what the switch last said of a phone it has spoken of. */
  lemma PresenceKnowsItsPhone(bindings: map<nat, string>, actions: seq<Action>, a: nat)
    ensures var d := Run(Opening(bindings), actions);
            IsSignedIn(d.live, a) && d.live[a].extension in d.phones.devices ==>
              Device(d.live[a].isRegistered, d.live[a].isInService) == d.phones.devices[d.live[a].extension]
  {
    RunKeeps(bindings, actions);
  }

  //
  // A phone lost and returned.
  //

  datatype Heard = Heard(extension: string, signal: Signal)

  ghost function HearAll(d: Desk, heard: seq<Heard>): Desk
    decreases |heard|
  {
    if heard == [] then d
    else ObserveDevice(HearAll(d, heard[..|heard| - 1]), heard[|heard| - 1].extension, heard[|heard| - 1].signal)
  }

  /** Whether the last of the extension's registrations and unregistrations heard was a
      registration, if there was one. */
  function LastHeard(heard: seq<Heard>, extension: string): Option<bool>
    decreases |heard|
  {
    if heard == [] then None
    else
      var last := heard[|heard| - 1];
      if last.extension == extension && last.signal.Registered? then Some(true)
      else if last.extension == extension && last.signal.Unregistered? then Some(false)
      else LastHeard(heard[..|heard| - 1], extension)
  }

  /** In routing, or taken out of it by the platform for want of a phone. */
  predicate WantsCalls(p: Presence) { p.state.Ready? || (p.state.NotReady? && p.reason.DeviceLost?) }

  /** What one signal does to the state and reason of an agent signed in at a. */
  lemma OneSignal(d: Desk, extension: string, signal: Signal, a: nat)
    requires OneEach(d) && IsSignedIn(d.live, a)
    ensures var p := d.live[a];
            var d' := ObserveDevice(d, extension, signal);
            && OneEach(d') && IsSignedIn(d'.live, a) && d'.live[a].extension == p.extension
            && (if p.extension != extension || !WantsCalls(p) then
                  d'.live[a].state == p.state && d'.live[a].reason == p.reason
                else if signal.Registered? then
                  d'.live[a].state.Ready? && (p.state.Ready? ==> d'.live[a].reason == p.reason)
                     && (!p.state.Ready? ==> d'.live[a].reason.NoReason?)
                else if signal.Unregistered? then d'.live[a].state.NotReady? && d'.live[a].reason.DeviceLost?
                else d'.live[a].state == p.state && d'.live[a].reason == p.reason)
  {
    ObserveKeeps(d, extension, signal);
    forall b: nat | IsAt(d.live, b, extension)
      ensures Holder(d.live, extension) == Some(b)
    {
      HolderIsUnique(d, b, extension);
    }
  }

  /** Through any signals, of this phone and others, an agent who wants calls ends READY or
      DEVICE_LOST by the last the switch said of their registration; every other agent
      stands where they stood. */
  lemma {:induction false} SignalsMoveOnlyWhoWantsCalls(d: Desk, heard: seq<Heard>, a: nat)
    requires OneEach(d) && IsSignedIn(d.live, a)
    ensures var p, d' := d.live[a], HearAll(d, heard);
            && OneEach(d') && IsSignedIn(d'.live, a) && d'.live[a].extension == p.extension
            && (!WantsCalls(p) ==> d'.live[a].state == p.state && d'.live[a].reason == p.reason)
            && (WantsCalls(p) ==>
                  match LastHeard(heard, p.extension)
                  case None => d'.live[a].state == p.state && d'.live[a].reason == p.reason
                  case Some(isRegistered) => WantsCalls(d'.live[a]) && (d'.live[a].state.Ready? <==> isRegistered))
    decreases |heard|
  {
    if heard != [] {
      SignalsMoveOnlyWhoWantsCalls(d, heard[..|heard| - 1], a);
      OneSignal(HearAll(d, heard[..|heard| - 1]), heard[|heard| - 1].extension, heard[|heard| - 1].signal, a);
    }
  }

  /** A READY agent has no reason. */
  ghost predicate ReadyWithoutReason(d: Desk) {
    forall a :: a in d.live && d.live[a].state.Ready? ==> d.live[a].reason.NoReason?
  }

  lemma {:induction false} ReadyHasNoReason(bindings: map<nat, string>, actions: seq<Action>)
    ensures ReadyWithoutReason(Run(Opening(bindings), actions))
    decreases |actions|
  {
    if actions != [] {
      ReadyHasNoReason(bindings, actions[..|actions| - 1]);
      StepGivesNoReason(Run(Opening(bindings), actions[..|actions| - 1]), actions[|actions| - 1]);
    }
  }

  lemma ObserveGivesNoReason(d: Desk, extension: string, signal: Signal)
    requires ReadyWithoutReason(d)
    ensures ReadyWithoutReason(ObserveDevice(d, extension, signal))
  {
    assert ReadyWithoutReason(Note(d, extension, DeviceOf(signal)));
  }

  lemma StepGivesNoReason(d: Desk, action: Action)
    requires ReadyWithoutReason(d)
    ensures ReadyWithoutReason(Step(d, action))
  {
    if IsRequest(action) {
      RequestGivesNoReason(d, action);
    } else if action.DoObserveDevice? {
      ObserveGivesNoReason(d, action.extension, action.signal);
    }
  }

  lemma RequestGivesNoReason(d: Desk, action: Action)
    requires ReadyWithoutReason(d) && IsRequest(action)
    ensures ReadyWithoutReason(Step(d, action))
  {
  }

  /** A phone lost and then registered again leaves every signed-in agent's state and
      reason as they were, but for one the platform had already taken out: that one is
      READY. */
  lemma LostAndReturned(bindings: map<nat, string>, actions: seq<Action>, extension: string, a: nat)
    requires IsSignedIn(Run(Opening(bindings), actions).live, a)
    ensures var d := Run(Opening(bindings), actions);
            var d' := ObserveDevice(ObserveDevice(d, extension, Unregistered), extension, Registered);
            var p := d.live[a];
            && IsSignedIn(d'.live, a)
            && (if p.extension == extension && p.state.NotReady? && p.reason.DeviceLost? then d'.live[a].state.Ready?
                else d'.live[a].state == p.state && d'.live[a].reason == p.reason)
  {
    var d := Run(Opening(bindings), actions);
    RunKeeps(bindings, actions);
    ReadyHasNoReason(bindings, actions);
    OneSignal(d, extension, Unregistered, a);
    OneSignal(ObserveDevice(d, extension, Unregistered), extension, Registered, a);
  }

  /** Without quiet notes every READY agent is registered, as their presence has it. */
  lemma {:induction false} ReadyMeansRegistered(bindings: map<nat, string>, actions: seq<Action>)
    requires forall i :: 0 <= i < |actions| ==> !actions[i].DoNoteDevice?
    ensures ReadyHasPhone(Run(Opening(bindings), actions))
    decreases |actions|
  {
    if actions != [] {
      ReadyMeansRegistered(bindings, actions[..|actions| - 1]);
      RunKeeps(bindings, actions[..|actions| - 1]);
      StepKeeps(Run(Opening(bindings), actions[..|actions| - 1]), actions[|actions| - 1]);
    }
  }

  /** As the switch has it: without quiet notes the phone of a READY agent is registered, by
      the last the switch said of it, if and only if the switch ever spoke of it. */
  lemma ReadyIsRegisteredIfKnown(bindings: map<nat, string>, actions: seq<Action>, a: nat)
    requires forall i :: 0 <= i < |actions| ==> !actions[i].DoNoteDevice?
    ensures var d := Run(Opening(bindings), actions);
            IsSignedIn(d.live, a) && d.live[a].state.Ready? ==>
              var e := d.live[a].extension;
              (e in d.phones.devices && d.phones.devices[e].isRegistered) <==> e in d.phones.devices
  {
    RunKeeps(bindings, actions);
    ReadyMeansRegistered(bindings, actions);
  }

  lemma RunOneMore(d: Desk, actions: seq<Action>, action: Action)
    ensures Run(d, actions + [action]) == Step(Run(d, actions), action)
  {
    assert (actions + [action])[..|actions|] == actions;
  }

  /** Signing in finds nobody else there. */
  lemma SignsIn(d: Desk, a: nat)
    requires a in d.bindings && d.bindings[a] != "" && Of(d.live, a).state.LoggedOut?
    requires forall b :: b in d.live ==> b == a
    ensures var p := SignIn(Of(d.live, a), d.bindings[a]).presence;
            LogIn(d, a) == Change(d, a, Done(WithDevice(p, d.phones.devices)))
  {
    assert Holder(d.live, d.bindings[a]).None?;
  }

  const AT_FIRST_PHONE := [DoObserveDevice("a", Registered), DoLogin(1)]

  lemma AtTheFirstPhone()
    ensures var d := Run(Opening(map[1 := "a"]), AT_FIRST_PHONE);
            && d.live == map[1 := Presence(NotReady, Login, "a", 0, false, 0, true, true)]
            && d.bindings == map[1 := "a"] && d.phones.devices == map["a" := Device(true, true)]
  {
    var d0 := Opening(map[1 := "a"]);
    var e1 := [] + [DoObserveDevice("a", Registered)];
    RunOneMore(d0, [], DoObserveDevice("a", Registered));
    RunOneMore(d0, e1, DoLogin(1));
    assert e1 + [DoLogin(1)] == AT_FIRST_PHONE;
    assert Holder(d0.live, "a").None?;
    assert Run(d0, e1).live == map[] && Run(d0, e1).bindings == map[1 := "a"];
    assert Run(d0, e1).phones.devices == map["a" := Device(true, true)];
    SignsIn(Run(d0, e1), 1);
  }

  const FIRST_PHONE := AT_FIRST_PHONE + [DoLogout(1)] + [DoRebind(1, "b")]

  /** An agent who was signed in at a phone that worked, and is bound to another. */
  lemma AfterTheFirstPhone()
    ensures var d := Run(Opening(map[1 := "a"]), FIRST_PHONE);
            && d.live == map[1 := Presence(LoggedOut, NoReason, "", 0, false, 0, true, true)]
            && d.bindings == map[1 := "b"] && d.phones.devices == map["a" := Device(true, true)]
  {
    var d0 := Opening(map[1 := "a"]);
    AtTheFirstPhone();
    RunOneMore(d0, AT_FIRST_PHONE, DoLogout(1));
    RunOneMore(d0, AT_FIRST_PHONE + [DoLogout(1)], DoRebind(1, "b"));
    MovesToAnother(Run(d0, AT_FIRST_PHONE));
  }

  lemma MovesToAnother(d: Desk)
    requires d.live == map[1 := Presence(NotReady, Login, "a", 0, false, 0, true, true)] && d.bindings == map[1 := "a"]
    ensures var d' := Step(Step(d, DoLogout(1)), DoRebind(1, "b"));
            && d'.live == map[1 := Presence(LoggedOut, NoReason, "", 0, false, 0, true, true)]
            && d'.bindings == map[1 := "b"] && d'.phones.devices == d.phones.devices
  {
    var out := LogOut(d, 1);
    assert out.live == map[1 := Presence(LoggedOut, NoReason, "", 0, false, 0, true, true)];
    assert out.bindings == d.bindings && out.phones == d.phones;
  }

  /** Where the switch never spoke of the phone, the presence may say what was true of an
      earlier one: an agent bound to another phone while signed out can be READY there
      though it was never registered. */
  lemma AnOldPhoneCanStandIn()
    ensures var d := Run(Opening(map[1 := "a"]), FIRST_PHONE + [DoLogin(1)] + [DoReady(1)]);
            && 1 in d.live && d.live[1].state.Ready? && d.live[1].extension == "b" && "b" !in d.phones.devices
  {
    var d0 := Opening(map[1 := "a"]);
    AfterTheFirstPhone();
    RunOneMore(d0, FIRST_PHONE, DoLogin(1));
    RunOneMore(d0, FIRST_PHONE + [DoLogin(1)], DoReady(1));
    SignsIn(Run(d0, FIRST_PHONE), 1);
  }
}
