/** Agent presence and the phones it depends on (internal/agents/state.go and
    internal/agents/service.go): what each request and each signal of the switch does,
    run to completion with a store that does not fail. */
module AgentSteps {
  import opened Util

  //
  // Presence.
  //

  datatype State = LoggedOut | NotReady | Ready

  /** NoReason is the empty reason. */
  datatype Reason = NoReason | Login | Break | Lunch | Training | AfterCallWork | System | Supervisor | DeviceLost

  /** A call id of 0 is none. */
  datatype Presence = Presence(state: State, reason: Reason, extension: string, wrapUpCall: nat,
                               isOnCall: bool, currentCall: nat, isRegistered: bool, isInService: bool)

  const NOBODY := Presence(LoggedOut, NoReason, "", 0, false, 0, false, false)

  /** A transition, or its refusal. */
  datatype Outcome = Done(presence: Presence) | Refused

  function SignIn(p: Presence, extension: string): Outcome {
    if !p.state.LoggedOut? then Refused
    else Done(p.(state := NotReady, reason := Login, extension := extension, wrapUpCall := 0))
  }

  function SignOut(p: Presence): Outcome {
    if p.state.LoggedOut? then Refused
    else Done(p.(state := LoggedOut, reason := NoReason, extension := "", wrapUpCall := 0))
  }

  function MakeReady(p: Presence): Outcome {
    if p.state.LoggedOut? || !p.isRegistered then Refused
    else Done(p.(state := Ready, reason := NoReason, wrapUpCall := 0))
  }

  function MakeNotReady(p: Presence, reason: Reason): Outcome {
    if p.state.LoggedOut? || reason.NoReason? then Refused
    else Done(p.(state := NotReady, reason := reason, wrapUpCall := 0))
  }

  function BeginWrapUp(p: Presence, call: nat): Outcome {
    if p.state.LoggedOut? then Refused
    else Done(p.(state := NotReady, reason := AfterCallWork, wrapUpCall := call))
  }

  predicate IsInWrapUp(p: Presence) { p.state.NotReady? && p.reason.AfterCallWork? }

  datatype Availability = AvailLoggedOut | AvailOnCall | AvailWrapUp | AvailNotReady | AvailDeviceUnreachable
                        | AvailReady

  function AvailabilityOf(p: Presence): Availability {
    if p.state.LoggedOut? then AvailLoggedOut
    else if p.isOnCall then AvailOnCall
    else if IsInWrapUp(p) then AvailWrapUp
    else if p.state.NotReady? then AvailNotReady
    else if !p.isRegistered || !p.isInService then AvailDeviceUnreachable
    else AvailReady
  }

  datatype Status = SwitchLoggedOut | OnBreak | Available

  /** What mod_callcenter is told. */
  function CallcenterStatus(p: Presence): Status {
    match p.state
    case Ready => if !p.isRegistered || !p.isInService then OnBreak else Available
    case NotReady => OnBreak
    case LoggedOut => SwitchLoggedOut
  }

  //
  // The service.
  //

  datatype Device = Device(isRegistered: bool, isInService: bool)

  datatype Signal = Registered | Unregistered | Reachable | Unreachable

  function DeviceOf(signal: Signal): Device {
    match signal
    case Registered | Reachable => Device(true, true)
    case Unreachable => Device(true, false)
    case Unregistered => Device(false, false)
  }

  /** A DEVICE event published to an agent's stream; or the stream being told nothing any
      more, the phone having changed hands. */
  datatype Notice = Told(extension: string, agent: nat, device: Device) | Forgotten(extension: string)

  datatype Phones = Phones(devices: map<string, Device>, announced: map<string, Device>, told: seq<Notice>)

  /** The switch: whether the link is up, and what it was last told of each agent. isSynced
      is whether everything since the last SyncSwitch was told. */
  datatype Switch = Switch(isUp: bool, statuses: map<nat, Status>, isSynced: bool)

  /** bindings are the agents' own extensions, "" for none. */
  datatype Desk = Desk(live: map<nat, Presence>, phones: Phones, lastCall: map<nat, nat>,
                       bindings: map<nat, string>, switch: Switch)

  function Of(live: map<nat, Presence>, a: nat): Presence { if a in live then live[a] else NOBODY }

  predicate IsSignedIn(live: map<nat, Presence>, a: nat) { a in live && !live[a].state.LoggedOut? }

  predicate IsAt(live: map<nat, Presence>, a: nat, extension: string) {
    IsSignedIn(live, a) && live[a].extension == extension
  }

  /** Whoever is signed in at the extension. */
  ghost function Holder(live: map<nat, Presence>, extension: string): Option<nat> {
    if a :| a in live && IsAt(live, a, extension) then Some(a) else None
  }

  /** mirrorStatus, when the link is up. */
  function Mirrored(s: Switch, a: nat, p: Presence): Switch {
    if s.isUp then s.(statuses := s.statuses[a := CallcenterStatus(p)]) else s
  }

  /** change: the transition applied, saved and mirrored, or nothing. */
  function Change(d: Desk, a: nat, outcome: Outcome): Desk {
    if a !in d.bindings || outcome.Refused? then d
    else d.(live := d.live[a := outcome.presence], switch := Mirrored(d.switch, a, outcome.presence))
  }

  /** What the switch has said of the presence's phone, if anything. */
  function WithDevice(p: Presence, devices: map<string, Device>): Presence {
    if p.extension !in devices then p
    else p.(isRegistered := devices[p.extension].isRegistered, isInService := devices[p.extension].isInService)
  }

  ghost function LogIn(d: Desk, a: nat): Desk {
    if a !in d.bindings || d.bindings[a] == "" then d
    else
      var holder := Holder(d.live, d.bindings[a]);
      if holder.Some? && holder.value != a then d
      else
        match SignIn(Of(d.live, a), d.bindings[a])
        case Refused => d
        case Done(p) => Change(d, a, Done(WithDevice(p, d.phones.devices)))
  }

  function LogOut(d: Desk, a: nat): Desk {
    var outcome := SignOut(Of(d.live, a));
    if a !in d.bindings || outcome.Refused? then d
    else Change(d, a, outcome).(lastCall := d.lastCall - {a})
  }

  function StartWrapUp(d: Desk, a: nat, call: nat): Desk {
    var noted := if call != 0 then d.(lastCall := d.lastCall[a := call]) else d;
    Change(noted, a, BeginWrapUp(Of(d.live, a), call))
  }

  function EndWrapUp(d: Desk, a: nat): Desk {
    var p := Of(d.live, a);
    if !IsInWrapUp(p) then d
    else Change(d, a, if p.isRegistered then MakeReady(p) else MakeNotReady(p, DeviceLost))
  }

  function RingNoAnswer(d: Desk, a: nat): Desk {
    var p := Of(d.live, a);
    if !p.state.Ready? || !p.isRegistered || !p.isInService then d else Change(d, a, MakeNotReady(p, System))
  }

  function SetOnCall(d: Desk, a: nat, isOnCall: bool, call: nat): Desk {
    var p := Of(d.live, a);
    if p.isOnCall == isOnCall then d
    else d.(live := d.live[a := p.(isOnCall := isOnCall, currentCall := if isOnCall then call else 0)])
  }

  function WithFlags(p: Presence, dev: Device): Presence {
    p.(isRegistered := dev.isRegistered, isInService := dev.isInService)
  }

  /** The device table and, if somebody is signed in there, their presence. */
  ghost function Note(d: Desk, extension: string, dev: Device): Desk {
    var noted := d.(phones := d.phones.(devices := d.phones.devices[extension := dev]));
    match Holder(d.live, extension)
    case None => noted
    case Some(a) => noted.(live := d.live[a := WithFlags(d.live[a], dev)])
  }

  /** NoteDevice tells the switch nothing. */
  ghost function NoteDevice(d: Desk, extension: string, dev: Device): Desk {
    var noted := Note(d, extension, dev);
    noted.(switch := noted.switch.(isSynced := false))
  }

  /** A DEVICE event, unless the stream was last told the same. */
  function Announce(phones: Phones, extension: string, a: nat, dev: Device): Phones {
    if extension in phones.announced && phones.announced[extension] == dev then phones
    else phones.(announced := phones.announced[extension := dev], told := phones.told + [Told(extension, a, dev)])
  }

  /** The phone is gone: READY becomes NOT_READY. */
  function ReleaseForLost(d: Desk, a: nat): Desk {
    var p := Of(d.live, a);
    if !p.state.Ready? then d else Change(d, a, MakeNotReady(p, DeviceLost))
  }

  /** The phone is back: what ReleaseForLost set is withdrawn. */
  function RestoreForReturned(d: Desk, a: nat): Desk {
    var p := Of(d.live, a);
    if !p.state.NotReady? || !p.reason.DeviceLost? then d else Change(d, a, MakeReady(p))
  }

  /** Some agent bound to the extension. */
  ghost function BoundTo(bindings: map<nat, string>, extension: string): Option<nat> {
    if a :| a in bindings && bindings[a] == extension then Some(a) else None
  }

  ghost function AnnounceToSignedOut(d: Desk, extension: string, dev: Device): Desk {
    if extension == "" then d
    else
      match BoundTo(d.bindings, extension)
      case None => d
      case Some(a) =>
        if IsSignedIn(d.live, a) then d else d.(phones := Announce(d.phones, extension, a, dev))
  }

  ghost function ObserveDevice(d: Desk, extension: string, signal: Signal): Desk {
    var dev := DeviceOf(signal);
    var noted := Note(d, extension, dev);
    match Holder(d.live, extension)
    case None => AnnounceToSignedOut(noted, extension, dev)
    case Some(a) =>
      if a !in d.bindings then noted
      else
        var told := noted.(switch := Mirrored(noted.switch, a, noted.live[a]),
                           phones := Announce(noted.phones, extension, a, dev));
        match signal
        case Unregistered => ReleaseForLost(told, a)
        case Registered => RestoreForReturned(told, a)
        case _ => told
  }

  /** READY without a phone. */
  predicate IsLost(live: map<nat, Presence>, a: nat) { a in live && live[a].state.Ready? && !live[a].isRegistered }

  /** The agents taken out of routing for want of a phone. */
  function ReleaseSome(d: Desk, lost: set<nat>): Desk
    requires lost <= d.live.Keys
  {
    var before := d.switch.statuses;
    d.(live := map a | a in d.live ::
                 if a in lost then d.live[a].(state := NotReady, reason := DeviceLost, wrapUpCall := 0) else d.live[a],
       switch := d.switch.(statuses :=
         if d.switch.isUp then map a | a in before.Keys + lost :: if a in lost then OnBreak else before[a]
         else before))
  }

  /** Every agent READY without a phone. */
  function ReleaseAll(d: Desk): Desk {
    ReleaseSome(d, set a | a in d.live && a in d.bindings && IsLost(d.live, a))
  }

  /** Some agents' statuses told again. */
  function Synced(statuses: map<nat, Status>, live: map<nat, Presence>, work: set<nat>): map<nat, Status>
    requires work <= live.Keys
  {
    map a | a in statuses.Keys + work :: if a in work then CallcenterStatus(live[a]) else statuses[a]
  }

  /** Every signed-in agent's. */
  function SyncSwitch(d: Desk): Desk {
    if !d.switch.isUp then d
    else
      var work := set a | a in d.live && a in d.bindings && IsSignedIn(d.live, a);
      d.(switch := Switch(true, Synced(d.switch.statuses, d.live, work), true))
  }

  /** The phones' streams start afresh. */
  function Forget(phones: Phones, before: string, after: string): Phones {
    phones.(announced := phones.announced - {before, after},
            told := phones.told + [Forgotten(before), Forgotten(after)])
  }

  /** An agent's configuration: only a signed-out agent is bound to another phone, whose
      stream and the old one's start afresh; the switch is told of the agent either way. */
  function Rebind(d: Desk, a: nat, extension: string): Desk {
    if a !in d.bindings || (d.bindings[a] != extension && IsSignedIn(d.live, a)) then d
    else
      var switch := Mirrored(d.switch, a, Of(d.live, a));
      if d.bindings[a] == extension then d.(switch := switch)
      else
        d.(bindings := d.bindings[a := extension], phones := Forget(d.phones, d.bindings[a], extension),
           switch := switch)
  }

  datatype Action =
    | DoLogin(a: nat) | DoLogout(a: nat) | DoReady(a: nat) | DoNotReady(a: nat, reason: Reason)
    | DoStartWrapUp(a: nat, call: nat) | DoEndWrapUp(a: nat) | DoRingNoAnswer(a: nat)
    | DoSetOnCall(a: nat, isOnCall: bool, call: nat)
    | DoNoteDevice(extension: string, device: Device) | DoObserveDevice(extension: string, signal: Signal)
    | DoReleaseAll | DoSyncSwitch | LinkDown | LinkUp | DoRebind(a: nat, extension: string)

  ghost function Step(d: Desk, action: Action): Desk {
    match action
    case DoLogin(a) => LogIn(d, a)
    case DoLogout(a) => LogOut(d, a)
    case DoReady(a) => Change(d, a, MakeReady(Of(d.live, a)))
    case DoNotReady(a, reason) => Change(d, a, MakeNotReady(Of(d.live, a), reason))
    case DoStartWrapUp(a, call) => StartWrapUp(d, a, call)
    case DoEndWrapUp(a) => EndWrapUp(d, a)
    case DoRingNoAnswer(a) => RingNoAnswer(d, a)
    case DoSetOnCall(a, isOnCall, call) => SetOnCall(d, a, isOnCall, call)
    case DoNoteDevice(extension, dev) => NoteDevice(d, extension, dev)
    case DoObserveDevice(extension, signal) => ObserveDevice(d, extension, signal)
    case DoReleaseAll => ReleaseAll(d)
    case DoSyncSwitch => SyncSwitch(d)
    case LinkDown => d.(switch := d.switch.(isUp := false, isSynced := false))
    case LinkUp => d.(switch := Switch(true, map[], false))
    case DoRebind(a, extension) => Rebind(d, a, extension)
  }

  ghost function Run(d: Desk, actions: seq<Action>): Desk
    decreases |actions|
  {
    if actions == [] then d else Step(Run(d, actions[..|actions| - 1]), actions[|actions| - 1])
  }

  /** A service nobody has signed in to. */
  function Opening(bindings: map<nat, string>): Desk {
    Desk(map[], Phones(map[], map[], []), map[], bindings, Switch(false, map[], false))
  }
}
