/** Coalesced reports of a campaign (internal/campaign/reporter.go): what each step that
    runs under one lock does. One campaign is followed; goroutines interleave step by
    step. */
module ReporterSteps {
  import opened Util

  datatype Progress = Progress(activity: string, nextDialAt: Option<int>, inFlight: int)
  datatype Campaign = Campaign(id: nat, status: string, pauseReason: string, progress: Progress, contacts: seq<int>)

  datatype Snapshot = Snapshot(id: nat, status: string, pauseReason: string, activity: string,
                               nextDialAt: Option<int>, inFlight: int, contacts: seq<int>)

  /** Progress is ignored unless the campaign is RUNNING. */
  function SnapshotOf(c: Campaign): Snapshot {
    var s := Snapshot(c.id, c.status, c.pauseReason, "", None, 0, c.contacts);
    if c.status == "RUNNING" && c.progress.activity != "" then
      s.(activity := c.progress.activity, nextDialAt := c.progress.nextDialAt, inFlight := c.progress.inFlight)
    else s
  }

  predicate Equal(s: Snapshot, o: Snapshot) {
    && !(s.id != o.id || s.status != o.status || s.pauseReason != o.pauseReason
         || s.activity != o.activity || s.inFlight != o.inFlight || s.contacts != o.contacts)
    && s.nextDialAt.None? == o.nextDialAt.None?
    && (s.nextDialAt.None? || s.nextDialAt.value == o.nextDialAt.value)
  }

  /** A reportState. hasTimer is whether its timer is running. */
  datatype Entry = Entry(armed: bool, hasTimer: bool, last: Option<Snapshot>)

  datatype Read = Failed | NotFound | Got(snapshot: Snapshot)

  /** How far a fire has come: waiting for the entry's mutex, holding it, past the disarm,
      with what it read, or over. */
  datatype Phase = Queued | Holding | Disarmed | Loaded(read: Read) | Over

  datatype Fire = Fire(entry: nat, phase: Phase)

  /** The store: the campaign as committed, None once deleted; whether a commit has not
      been followed by a Touch the reporter took; and what was read of it, in order. */
  datatype Store = Store(current: Option<Campaign>, isUntouched: bool, loads: seq<Snapshot>)

  /** The reporter: its map, which holds one entry or none, the entries it ever held, and
      what it emitted. isLost is whether a failed read asked a closed reporter for another
      window. */
  datatype Book = Book(closed: bool, index: Option<nat>, entries: seq<Entry>, emitted: seq<Snapshot>, isLost: bool)

  datatype World = World(store: Store, book: Book, fires: seq<Fire>)

  datatype Event =
    | Commit(campaign: Campaign) | Delete | Touch | TimerFires(entry: nat) | Close
    | Lock(i: nat) | Disarm(i: nat) | Load(i: nat, fails: bool) | Finish(i: nat)

  function Initial(c: Campaign): World { World(Store(Some(c), true, []), Book(false, None, [], [], false), []) }

  /** Opens a window, unless one is open. */
  function Arm(b: Book): Book {
    match b.index
    case None => b.(index := Some(|b.entries|), entries := b.entries + [Entry(true, true, None)])
    case Some(e) =>
      if e >= |b.entries| || b.entries[e].armed then b
      else b.(entries := b.entries[e := b.entries[e].(armed := true, hasTimer := true)])
  }

  function Touched(w: World): World {
    if w.book.closed then w else w.(store := w.store.(isUntouched := false), book := Arm(w.book))
  }

  /** What a failed read does. */
  function Again(b: Book): Book { if b.closed then b.(isLost := true) else Arm(b) }

  function TimerStopped(b: Book, e: nat): Book
    requires e < |b.entries|
  {
    b.(entries := b.entries[e := b.entries[e].(hasTimer := false)])
  }

  function TimerFired(w: World, e: nat): World {
    if e >= |w.book.entries| || !w.book.entries[e].hasTimer then w
    else w.(book := TimerStopped(w.book, e), fires := w.fires + [Fire(e, Queued)])
  }

  /** The entry whose window Close finds open. */
  function Open(b: Book): Option<nat> {
    match b.index
    case None => None
    case Some(e) => if e >= |b.entries| || !b.entries[e].armed then None else Some(e)
  }

  /** Stops the window still open and fires for it. */
  function Closed(w: World): World {
    match Open(w.book)
    case None => w.(book := w.book.(closed := true))
    case Some(e) => w.(book := TimerStopped(w.book, e).(closed := true), fires := w.fires + [Fire(e, Queued)])
  }

  predicate Holds(f: Fire) { f.phase.Holding? || f.phase.Disarmed? || f.phase.Loaded? }

  predicate IsFree(fires: seq<Fire>, e: nat) {
    forall j :: 0 <= j < |fires| && fires[j].entry == e ==> !Holds(fires[j])
  }

  function Move(fires: seq<Fire>, i: nat, phase: Phase): seq<Fire>
    requires i < |fires|
  {
    fires[i := fires[i].(phase := phase)]
  }

  function Locked(w: World, i: nat): World {
    if i >= |w.fires| || !w.fires[i].phase.Queued? || !IsFree(w.fires, w.fires[i].entry) then w
    else w.(fires := Move(w.fires, i, Holding))
  }

  function DisarmedBy(w: World, i: nat): World {
    if i >= |w.fires| || !w.fires[i].phase.Holding? || w.fires[i].entry >= |w.book.entries| then w
    else
      var e := w.fires[i].entry;
      w.(fires := Move(w.fires, i, Disarmed),
         book := w.book.(entries := w.book.entries[e := w.book.entries[e].(armed := false)]))
  }

  function ReadOf(s: Store, fails: bool): Read {
    if fails then Failed else if s.current.None? then NotFound else Got(SnapshotOf(s.current.value))
  }

  function LoadedBy(w: World, i: nat, fails: bool): World {
    if i >= |w.fires| || !w.fires[i].phase.Disarmed? then w
    else
      var read := ReadOf(w.store, fails);
      w.(fires := Move(w.fires, i, Loaded(read)),
         store := if read.Got? then w.store.(loads := w.store.loads + [read.snapshot]) else w.store)
  }

  /** Emits what was read if it differs from what was last reported. */
  function Reported(b: Book, e: nat, s: Snapshot): Book {
    if e >= |b.entries| || (b.entries[e].last.Some? && Equal(b.entries[e].last.value, s)) then b
    else b.(entries := b.entries[e := b.entries[e].(last := Some(s))], emitted := b.emitted + [s])
  }

  function AfterRead(b: Book, e: nat, read: Read): Book {
    match read
    case NotFound => b.(index := None)
    case Failed => Again(b)
    case Got(s) => Reported(b, e, s)
  }

  function FinishedBy(w: World, i: nat): World {
    if i >= |w.fires| || !w.fires[i].phase.Loaded? then w
    else w.(fires := Move(w.fires, i, Over), book := AfterRead(w.book, w.fires[i].entry, w.fires[i].phase.read))
  }

  function Step(w: World, event: Event): World {
    match event
    case Commit(c) =>
      if w.store.current.None? then w else w.(store := w.store.(current := Some(c), isUntouched := true))
    case Delete => w.(store := w.store.(current := None))
    case Touch => Touched(w)
    case TimerFires(e) => TimerFired(w, e)
    case Close => Closed(w)
    case Lock(i) => Locked(w, i)
    case Disarm(i) => DisarmedBy(w, i)
    case Load(i, fails) => LoadedBy(w, i, fails)
    case Finish(i) => FinishedBy(w, i)
  }

  function Run(c: Campaign, events: seq<Event>): World
    decreases |events|
  {
    if events == [] then Initial(c) else Step(Run(c, events[..|events| - 1]), events[|events| - 1])
  }
}
