/** agents.Service itself: each method is proved to make the step of AgentSteps. */
module Agents {
  import opened Util
  import opened AgentSteps
  import AgentRuns

  /** Requests run to completion one at a time. isSynced and told are what the switch and
      the agents' streams know. */
  class Service {
    var live: map<nat, Presence>
    var devices: map<string, Device>
    var announced: map<string, Device>
    var lastWrapUpCall: map<nat, nat>
    var bindings: map<nat, string>
    var isUp: bool
    var statuses: map<nat, Status>
    ghost var isSynced: bool
    ghost var told: seq<Notice>

    ghost function State(): Desk
      reads this
    {
      Desk(live, Phones(devices, announced, told), lastWrapUpCall, bindings, Switch(isUp, statuses, isSynced))
    }

    ghost predicate Valid()
      reads this
    {
      AgentRuns.OneEach(State())
    }

    constructor (bindings: map<nat, string>)
      ensures Valid() && State() == Opening(bindings)
    {
      live, devices, announced, lastWrapUpCall, isUp, statuses := map[], map[], map[], map[], false, map[];
      this.bindings := bindings;
      isSynced, told := false, [];
    }

    method MirrorStatus(a: nat, p: Presence)
      modifies this`statuses
      ensures State() == old(State()).(switch := Mirrored(old(State()).switch, a, p))
      ensures isUp ==> statuses == old(statuses)[a := CallcenterStatus(p)]
    {
      if !isUp {
        return;
      }
      statuses := statuses[a := CallcenterStatus(p)];
    }

    /** Applies a transition, saves it and mirrors it; one that cannot be saved is undone. */
    method Apply(a: nat, outcome: Outcome, isSaved: bool)
      modifies this`live, this`statuses
      ensures State() == if isSaved then Change(old(State()), a, outcome) else old(State())
    {
      if a !in bindings {
        return;
      }
      if outcome.Refused? {
        return;
      }
      var before := live;
      live := live[a := outcome.presence];
      if !isSaved {
        live := before;
        return;
      }
      MirrorStatus(a, outcome.presence);
    }

    method ExtensionHolder(extension: string) returns (holder: Option<nat>)
      requires Valid()
      ensures holder == Holder(live, extension)
    {
      var rest := live.Keys;
      while rest != {}
        invariant rest <= live.Keys
        invariant forall a: nat :: a in live && IsAt(live, a, extension) ==> a in rest
        decreases |rest|
      {
        var a := Pick(rest);
        rest := rest - {a};
        if IsAt(live, a, extension) {
          AgentRuns.HolderIsUnique(State(), a, extension);
          return Some(a);
        }
      }
      return None;
    }

    method LoginAgent(a: nat)
      requires Valid()
      modifies this`live, this`statuses
      ensures Valid() && State() == LogIn(old(State()), a)
    {
      AgentRuns.LogInKeeps(State(), a);
      if a !in bindings || bindings[a] == "" {
        return;
      }
      var extension := bindings[a];
      var holder := ExtensionHolder(extension);
      if holder.Some? && holder.value != a {
        return;
      }
      var outcome := SignIn(Of(live, a), extension);
      if outcome.Refused? {
        return;
      }
      var p := outcome.presence;
      if p.extension in devices {
        p := p.(isRegistered := devices[p.extension].isRegistered, isInService := devices[p.extension].isInService);
      }
      Apply(a, Done(p), true);
    }

    method LogoutAgent(a: nat)
      requires Valid()
      modifies this`live, this`statuses, this`lastWrapUpCall
      ensures Valid()
      ensures State() == LogOut(old(State()), a)
    {
      AgentRuns.StepKeeps(State(), DoLogout(a));
      var outcome := SignOut(Of(live, a));
      if a !in bindings || outcome.Refused? {
        return;
      }
      Apply(a, outcome, true);
      lastWrapUpCall := lastWrapUpCall - {a};
    }

    method MakeAgentReady(a: nat)
      modifies this`live, this`statuses
      ensures old(Valid()) ==> Valid()
      ensures State() == Step(old(State()), DoReady(a))
    {
      if Valid() {
        AgentRuns.StepKeeps(State(), DoReady(a));
      }
      Apply(a, MakeReady(Of(live, a)), true);
    }

    method MakeAgentNotReady(a: nat, reason: Reason)
      modifies this`live, this`statuses
      ensures old(Valid()) ==> Valid()
      ensures State() == Step(old(State()), DoNotReady(a, reason))
    {
      if Valid() {
        AgentRuns.StepKeeps(State(), DoNotReady(a, reason));
      }
      Apply(a, MakeNotReady(Of(live, a), reason), true);
    }

    method BeginAfterCallWork(a: nat, call: nat)
      modifies this`live, this`statuses, this`lastWrapUpCall
      ensures old(Valid()) ==> Valid()
      ensures State() == StartWrapUp(old(State()), a, call)
    {
      if Valid() {
        AgentRuns.StepKeeps(State(), DoStartWrapUp(a, call));
      }
      if call != 0 {
        lastWrapUpCall := lastWrapUpCall[a := call];
      }
      Apply(a, BeginWrapUp(Of(live, a), call), true);
    }

    method EndAfterCallWork(a: nat)
      modifies this`live, this`statuses
      ensures old(Valid()) ==> Valid()
      ensures State() == EndWrapUp(old(State()), a)
    {
      if Valid() {
        AgentRuns.StepKeeps(State(), DoEndWrapUp(a));
      }
      var p := Of(live, a);
      if !IsInWrapUp(p) {
        return;
      }
      if !p.isRegistered {
        MakeAgentNotReady(a, DeviceLost);
        return;
      }
      MakeAgentReady(a);
    }

    method BenchForNoAnswer(a: nat)
      modifies this`live, this`statuses
      ensures old(Valid()) ==> Valid()
      ensures State() == RingNoAnswer(old(State()), a)
    {
      if Valid() {
        AgentRuns.StepKeeps(State(), DoRingNoAnswer(a));
      }
      var p := Of(live, a);
      if !p.state.Ready? || !p.isRegistered || !p.isInService {
        return;
      }
      Apply(a, MakeNotReady(p, System), true);
    }

    method SetAgentOnCall(a: nat, isOnCall: bool, call: nat)
      modifies this`live
      ensures old(Valid()) ==> Valid()
      ensures State() == SetOnCall(old(State()), a, isOnCall, call)
    {
      if Valid() {
        AgentRuns.StepKeeps(State(), DoSetOnCall(a, isOnCall, call));
      }
      var p := Of(live, a);
      if p.isOnCall == isOnCall {
        return;
      }
      live := live[a := p.(isOnCall := isOnCall, currentCall := if isOnCall then call else 0)];
    }

    /** The device table and the presence of whoever is signed in there. */
    method NotePhone(extension: string, dev: Device) returns (holder: Option<nat>)
      requires Valid()
      modifies this`devices, this`live
      ensures State() == Note(old(State()), extension, dev) && holder == Holder(old(live), extension)
    {
      devices := devices[extension := dev];
      assert Valid();
      holder := ExtensionHolder(extension);
      if holder.Some? {
        live := live[holder.value := WithFlags(live[holder.value], dev)];
      }
    }

    method NoteDevice(extension: string, dev: Device)
      requires Valid()
      modifies this`devices, this`live, this`isSynced
      ensures Valid()
      ensures State() == AgentSteps.NoteDevice(old(State()), extension, dev)
    {
      AgentRuns.NoteDeviceKeeps(State(), extension, dev);
      var holder := NotePhone(extension, dev);
      isSynced := false;
    }

    /** Whether a device state is news to the stream; it is recorded as told. */
    method ClaimAnnouncement(extension: string, a: nat, dev: Device) returns (isNews: bool)
      modifies this`announced, this`told
      ensures State() == old(State()).(phones := Announce(old(State()).phones, extension, a, dev))
      ensures isNews <==> told == old(told) + [Told(extension, a, dev)]
    {
      if extension in announced && announced[extension] == dev {
        assert |told| != |told + [Told(extension, a, dev)]|;
        return false;
      }
      announced := announced[extension := dev];
      told := told + [Told(extension, a, dev)];
      return true;
    }

    method ReleaseForLostDevice(a: nat)
      modifies this`live, this`statuses
      ensures State() == ReleaseForLost(old(State()), a)
    {
      var p := Of(live, a);
      if !p.state.Ready? {
        return;
      }
      Apply(a, MakeNotReady(p, DeviceLost), true);
    }

    method RestoreForReturnedDevice(a: nat)
      modifies this`live, this`statuses
      ensures State() == RestoreForReturned(old(State()), a)
    {
      var p := Of(live, a);
      if !p.state.NotReady? || !p.reason.DeviceLost? {
        return;
      }
      Apply(a, MakeReady(p), true);
    }

    /** A signal about a phone somebody is signed in at. */
    method ObserveSignedIn(a: nat, extension: string, signal: Signal)
      requires a in live && a in bindings
      modifies this`live, this`statuses, this`announced, this`told
      ensures var d := old(State());
              var t := d.(switch := Mirrored(d.switch, a, d.live[a]),
                          phones := Announce(d.phones, extension, a, DeviceOf(signal)));
              State() == match signal
                         case Unregistered => ReleaseForLost(t, a)
                         case Registered => RestoreForReturned(t, a)
                         case _ => t
    {
      MirrorStatus(a, live[a]);
      var isNews := ClaimAnnouncement(extension, a, DeviceOf(signal));
      match signal {
        case Unregistered => ReleaseForLostDevice(a);
        case Registered => RestoreForReturnedDevice(a);
        case _ =>
      }
    }

    method ObserveDevice(extension: string, signal: Signal, bound: Option<nat>)
      requires Valid() && bound == BoundTo(bindings, extension)
      modifies this`devices, this`live, this`statuses, this`announced, this`told
      ensures Valid()
      ensures State() == AgentSteps.ObserveDevice(old(State()), extension, signal)
    {
      AgentRuns.ObserveKeeps(State(), extension, signal);
      var dev := DeviceOf(signal);
      var holder := NotePhone(extension, dev);
      if holder.None? {
        if extension != "" && bound.Some? && !IsSignedIn(live, bound.value) {
          var isNews := ClaimAnnouncement(extension, bound.value, dev);
        }
        return;
      }
      if holder.value in bindings {
        ObserveSignedIn(holder.value, extension, signal);
      }
    }

    /** Changes an agent's phone while nobody is signed in as them, and mirrors the agent. */
    method RebindAgent(a: nat, extension: string)
      modifies this`bindings, this`announced, this`told, this`statuses
      ensures old(Valid()) ==> Valid()
      ensures State() == Rebind(old(State()), a, extension)
    {
      if Valid() {
        AgentRuns.RebindKeeps(State(), a, extension);
      }
      if a !in bindings {
        return;
      }
      var before := bindings[a];
      if before != extension && IsSignedIn(live, a) {
        return;
      }
      bindings := bindings[a := extension];
      if before != extension {
        announced := announced - {before, extension};
        told := told + [Forgotten(before), Forgotten(extension)];
      }
      MirrorStatus(a, Of(live, a));
    }

    /** READY reconciled against registration. The agents come in any order. */
    method ReleaseAgentsWithoutPhones()
      requires Valid()
      modifies this`live, this`statuses
      ensures Valid()
      ensures State() == ReleaseAll(old(State()))
    {
      AgentRuns.ReleaseAllKeeps(State());
      var all: set<nat> := set a | a in live && a in bindings && IsLost(live, a);
      var lost: seq<nat> := Listed(all);
      ReleaseListed(lost, all);
    }

    method ReleaseListed(lost: seq<nat>, ghost all: set<nat>)
      requires Distinct(lost) && forall a :: a in lost <==> a in all
      requires forall a :: a in all ==> a in live && a in bindings && IsLost(live, a)
      modifies this`live, this`statuses
      ensures State() == ReleaseSome(old(State()), all)
    {
      ghost var d, done: set<nat> := State(), {};
      ReleaseNone(d);
      for i := 0 to |lost|
        invariant done <= d.live.Keys && forall a :: a in done <==> a in lost[..i]
        invariant State() == ReleaseSome(d, done)
      {
        assert lost[i] in all;
        ReleaseForLostDevice(lost[i]);
        ReleaseOneMore(d, done, lost[i]);
        done := done + {lost[i]};
      }
      assert lost[..|lost|] == lost && done == all;
    }

    /** Tells the switch where everybody signed in stands. */
    method SyncSwitch()
      requires Valid()
      modifies this`statuses, this`isSynced
      ensures Valid()
      ensures State() == AgentSteps.SyncSwitch(old(State()))
    {
      AgentRuns.SyncSwitchKeeps(State());
      if !isUp {
        return;
      }
      var work := set a | a in live && a in bindings && IsSignedIn(live, a);
      TellAgents(work);
      isSynced := true;
    }

    method TellAgents(agents: set<nat>)
      requires agents <= live.Keys && isUp
      modifies this`statuses
      ensures statuses == Synced(old(statuses), live, agents)
    {
      ghost var before, done: set<nat> := statuses, {};
      var work := Listed(agents);
      assert statuses == Synced(before, live, {});
      for i := 0 to |work|
        invariant done <= live.Keys && forall a :: a in done <==> a in work[..i]
        invariant statuses == Synced(before, live, done)
      {
        SyncOneMore(before, live, done, work[i]);
        MirrorStatus(work[i], live[work[i]]);
        done := done + {work[i]};
      }
      assert work[..|work|] == work && done == agents;
    }
  }

  lemma ReleaseNone(d: Desk)
    ensures ReleaseSome(d, {}) == d
  {
    assert ReleaseSome(d, {}).live == d.live;
    assert ReleaseSome(d, {}).switch.statuses == d.switch.statuses;
  }

  lemma ReleaseOneMore(d: Desk, done: set<nat>, a: nat)
    requires done <= d.live.Keys && a in d.live && a !in done && a in d.bindings && IsLost(d.live, a)
    ensures ReleaseForLost(ReleaseSome(d, done), a) == ReleaseSome(d, done + {a})
  {
    var x, y := ReleaseForLost(ReleaseSome(d, done), a), ReleaseSome(d, done + {a});
    assert x.live == y.live;
    assert x.switch.statuses == y.switch.statuses;
  }

  lemma SyncOneMore(statuses: map<nat, Status>, live: map<nat, Presence>, done: set<nat>, a: nat)
    requires done <= live.Keys && a in live
    ensures Synced(statuses, live, done)[a := CallcenterStatus(live[a])] == Synced(statuses, live, done + {a})
  {
  }
}
