/** The write-intent lifecycle of the verification table, as a transition system.

Any number of threads lock, join and release slots, take and drop temporary
tracker references, park callbacks, cancel a closing database's locks, publish
versions and sweep. The operations that run under the writer mutex are cut into
the steps at which other threads can look in: `section` says how far the mutex
holder has come. Publishing, sweeping and parking need no mutex and may happen
between any two steps.

The C++ heap is explicit: `trackers` holds the allocated trackers by address, a
freed address may be handed out again, and `inc` numbers the allocations.
Touching an address that is not allocated, or that has become another
allocation, sets `fault`. */
module WriteIntents {
  import opened SlotWords

  type SlotWord = Word

  datatype Tracker = Tracker(refcount: int, holders: int, tag: nat, slot: nat, db: nat,
                             woken: bool, waiting: seq<nat>, inc: nat)

  /** What a thread keeps after locking a slot or taking a reference. */
  datatype Handle = Handle(slot: nat, addr: nat, inc: nat)

  /** Where the holder of the writer mutex is. */
  datatype Section =
    | Idle
    | Locking(id: nat, slot: nat, db: nat, seen: SlotWord)
    | Settling(h: Handle)   // last holder counted out, slot not yet settled
    | Waking(h: Handle)     // slot settled, waiters not yet woken
    | Dropping(h: Handle)   // about to give up the holder's reference
    | Cancelling(db: nat, next: nat)
    | Unparking(db: nat, next: nat, addr: nat)

  /** A running `settleAllSlots`: its one generation, the slot it is at, and the
  value it loaded there, if any. */
  datatype Sweep = Sweep(gen: nat, next: nat, loaded: bool, seen: SlotWord)

  datatype Table = Table(
    slots: seq<SlotWord>,
    trackers: map<nat, Tracker>,
    intents: map<nat, Handle>,   // held write intents, by an id of the holder's choice
    refs: map<nat, Handle>,      // temporary references
    section: Section,
    sweeps: map<nat, Sweep>,
    tags: nat,                   // lock tags handed out
    settleGen: nat,              // next settle generation
    homes: seq<nat>,             // the address of every allocation so far
    buried: seq<nat>,            // allocations freed so far, in order
    accepted: map<nat, nat>,     // accepted wake callbacks and the allocation they wait on
    ran: seq<nat>,               // callbacks that ran, in order
    cut: set<nat>,               // allocations whose slot a cancel settled
    fault: bool)

  datatype Step =
    | LockLoad(id: nat, slot: nat, db: nat)
    | LockStore(addr: nat)
    | ReleaseCount(id: nat)
    | ReleaseSettle
    | ReleaseWake
    | ReleaseDrop
    | TakeRef(id: nat, slot: nat)
    | DropRef(id: nat)
    | AddWake(id: nat, callback: nat)
    | CancelStart(db: nat)
    | CancelVisit
    | CancelWake
    | Populate(slot: nat, observed: SlotWord, version: nat)
    | SweepStart(id: nat)
    | SweepLoad(id: nat)
    | SweepCas(id: nat)

  function Initial(n: nat): Table {
    Table(seq(n, _ => Empty), map[], map[], map[], Idle, map[], 0, 1, [], [], map[], [], {}, false)
  }

  predicate Can(s: Table, a: Step) {
    match a
    case LockLoad(id, slot, db) => s.section.Idle? && slot < |s.slots| && id !in s.intents
    case LockStore(addr) => s.section.Locking? && addr !in s.trackers
    case ReleaseCount(id) => s.section.Idle? && id in s.intents
    case ReleaseSettle => s.section.Settling?
    case ReleaseWake => s.section.Waking?
    case ReleaseDrop => s.section.Dropping?
    case TakeRef(id, slot) => s.section.Idle? && slot < |s.slots| && id !in s.refs
    case DropRef(id) => s.section.Idle? && id in s.refs
    case AddWake(id, callback) => id in s.refs && callback !in s.accepted
    case CancelStart(db) => s.section.Idle?
    case CancelVisit => s.section.Cancelling?
    case CancelWake => s.section.Unparking?
    case Populate(slot, observed, version) => slot < |s.slots|
    case SweepStart(id) => id !in s.sweeps
    case SweepLoad(id) => id in s.sweeps && !s.sweeps[id].loaded && s.sweeps[id].next < |s.slots|
    case SweepCas(id) => id in s.sweeps && s.sweeps[id].loaded && s.sweeps[id].next < |s.slots|
  }

  /** The handle still denotes the allocation it was made for. */
  predicate Live(trackers: map<nat, Tracker>, h: Handle) {
    h.addr in trackers && trackers[h.addr].inc == h.inc && trackers[h.addr].slot == h.slot
  }

  /** `s'` differs from `s` in trackers and their handles only. */
  predicate SameSlots(s: Table, s': Table) {
    s'.slots == s.slots && s'.sweeps == s.sweeps && s'.settleGen == s.settleGen && s'.cut == s.cut
  }

  function Fault(s: Table): (s': Table)
    ensures SameSlots(s, s') && s'.section == s.section
  {
    s.(fault := true)
  }

  function Reword(s: Table, slot: nat, w: SlotWord): Table
    requires slot < |s.slots|
  {
    s.(slots := s.slots[slot := w])
  }

  /** Compare-and-swap on one slot. */
  function Swap(slots: seq<SlotWord>, slot: nat, expected: SlotWord, w: SlotWord): seq<SlotWord> {
    if slot < |slots| && slots[slot] == expected then slots[slot := w] else slots
  }

  /** Settle the slot to a new generation, if it still holds `expected`. */
  function Settle(s: Table, slot: nat, expected: SlotWord): (s': Table)
    ensures s'.trackers == s.trackers && s'.cut == s.cut && s'.section == s.section
  {
    s.(slots := Swap(s.slots, slot, expected, Settled(s.settleGen)), settleGen := s.settleGen + 1)
  }

  /** `LockTracker::wake`: close the tracker to new callbacks and run the waiting ones. */
  function Wake(s: Table, addr: nat): (s': Table)
    requires addr in s.trackers
    ensures SameSlots(s, s')
  {
    var t := s.trackers[addr];
    s.(trackers := s.trackers[addr := t.(woken := true, waiting := [])], ran := s.ran + t.waiting)
  }

  /** Give up one reference; the last one frees the tracker. */
  function Unref(s: Table, addr: nat): (s': Table)
    requires addr in s.trackers
    ensures SameSlots(s, s')
  {
    var t := s.trackers[addr];
    if t.refcount == 1 then s.(trackers := s.trackers - {addr}, buried := s.buried + [t.inc])
    else s.(trackers := s.trackers[addr := t.(refcount := t.refcount - 1)])
  }

  function Join(s: Table, id: nat, slot: nat, addr: nat): (s': Table)
    ensures SameSlots(s, s') && (s'.section.Idle? || s'.section == s.section)
  {
    if addr !in s.trackers then Fault(s)
    else
      var t := s.trackers[addr];
      s.(trackers := s.trackers[addr := t.(holders := t.holders + 1, refcount := t.refcount + 1)],
         intents := s.intents[id := Handle(slot, addr, t.inc)],
         section := Idle)
  }

  function Install(s: Table, id: nat, slot: nat, db: nat, addr: nat): Table
    requires slot < |s.slots|
  {
    var tag := s.tags % 0x4000;
    s.(slots := s.slots[slot := Lock(addr, tag)],
       trackers := s.trackers[addr := Tracker(1, 1, tag, slot, db, false, [], |s.homes|)],
       intents := s.intents[id := Handle(slot, addr, |s.homes|)],
       section := Idle,
       tags := s.tags + 1,
       homes := s.homes + [addr])
  }

  function CountOut(s: Table, id: nat): (s': Table)
    requires id in s.intents
    ensures SameSlots(s, s') && (s'.section.Settling? || s'.section.Dropping? || s'.section == s.section)
  {
    var h := s.intents[id];
    if !Live(s.trackers, h) then Fault(s)
    else
      var t := s.trackers[h.addr];
      s.(trackers := s.trackers[h.addr := t.(holders := t.holders - 1)],
         intents := s.intents - {id},
         section := if t.holders == 1 then Settling(h) else Dropping(h))
  }

  function SettleOut(s: Table, h: Handle): (s': Table)
    ensures s'.trackers == s.trackers && s'.cut == s.cut
  {
    if !Live(s.trackers, h) then Fault(s)
    else Settle(s, h.slot, Lock(h.addr, s.trackers[h.addr].tag)).(section := Waking(h))
  }

  function Ref(s: Table, id: nat, slot: nat, addr: nat): (s': Table)
    ensures SameSlots(s, s') && s'.section == s.section
  {
    if addr !in s.trackers then Fault(s)
    else
      var t := s.trackers[addr];
      s.(trackers := s.trackers[addr := t.(refcount := t.refcount + 1)],
         refs := s.refs[id := Handle(slot, addr, t.inc)])
  }

  /** `LockTracker::addWakeCallback`: refused, without effect, once woken. */
  function Park(s: Table, h: Handle, callback: nat): (s': Table)
    ensures SameSlots(s, s') && s'.section == s.section
  {
    if !Live(s.trackers, h) then Fault(s)
    else
      var t := s.trackers[h.addr];
      if t.woken then s
      else s.(trackers := s.trackers[h.addr := t.(waiting := t.waiting + [callback])],
              accepted := s.accepted[callback := h.inc])
  }

  function Visit(s: Table, db: nat, i: nat): (s': Table)
    ensures s'.trackers == s.trackers
    ensures s'.section == s.section || s'.section.Idle?
         || ((s'.section.Cancelling? || s'.section.Unparking?) && s'.section.db == db)
  {
    if i >= |s.slots| then s.(section := Idle)
    else if !s.slots[i].Lock? then s.(section := Cancelling(db, i + 1))
    else
      var w := s.slots[i];
      if w.addr !in s.trackers then Fault(s)
      else if s.trackers[w.addr].db != db then s.(section := Cancelling(db, i + 1))
      else Settle(s, i, w).(section := Unparking(db, i, w.addr), cut := s.cut + {s.trackers[w.addr].inc})
  }

  /** `populateVersionIfUnchanged`: one compare-and-swap from the observed value. */
  function Publish(s: Table, slot: nat, observed: SlotWord, version: nat): Table
    requires slot < |s.slots|
  {
    if observed.Lock? || observed == Version(version) || s.slots[slot] != observed then s
    else Reword(s, slot, Version(version))
  }

  function SweepTo(s: Table, id: nat, w: Sweep): Table { s.(sweeps := s.sweeps[id := w]) }

  function LoadSlot(s: Table, id: nat, slot: nat, db: nat): (s': Table)
    requires slot < |s.slots|
    ensures SameSlots(s, s') && s'.section.Locking?
  {
    s.(section := Locking(id, slot, db, s.slots[slot]))
  }

  function StoreLock(s: Table, addr: nat): Table
    requires s.section.Locking?
  {
    var c := s.section;
    if c.seen.Lock? then Join(s, c.id, c.slot, c.seen.addr)
    else if c.slot < |s.slots| then Install(s, c.id, c.slot, c.db, addr)
    else Fault(s)
  }

  function WakeOut(s: Table, h: Handle): (s': Table)
    ensures SameSlots(s, s') && (s'.section.Dropping? || s'.section == s.section)
  {
    if !Live(s.trackers, h) then Fault(s) else Wake(s, h.addr).(section := Dropping(h))
  }

  function DropOut(s: Table, h: Handle): (s': Table)
    ensures SameSlots(s, s') && (s'.section.Idle? || s'.section == s.section)
  {
    if !Live(s.trackers, h) then Fault(s) else Unref(s, h.addr).(section := Idle)
  }

  function Unrefer(s: Table, id: nat): (s': Table)
    requires id in s.refs
    ensures SameSlots(s, s')
  {
    if !Live(s.trackers, s.refs[id]) then Fault(s)
    else Unref(s, s.refs[id].addr).(refs := s.refs - {id}, section := s.section)
  }

  function Unpark(s: Table, c: Section): Table
    requires c.Unparking?
  {
    if c.addr !in s.trackers then Fault(s) else Wake(s, c.addr).(section := Cancelling(c.db, c.next + 1))
  }

  function Mint(s: Table, id: nat): Table {
    s.(sweeps := s.sweeps[id := Sweep(s.settleGen, 0, false, Empty)], settleGen := s.settleGen + 1)
  }

  function LoadSwept(s: Table, id: nat, w: Sweep): Table
    requires w.next < |s.slots|
  {
    if s.slots[w.next].Lock? then SweepTo(s, id, w.(next := w.next + 1))
    else SweepTo(s, id, w.(loaded := true, seen := s.slots[w.next]))
  }

  function CasSwept(s: Table, id: nat, w: Sweep): Table
    requires w.next < |s.slots|
  {
    var v := s.slots[w.next];
    if v == w.seen then SweepTo(Reword(s, w.next, Settled(w.gen)), id, w.(next := w.next + 1, loaded := false))
    else if v.Lock? then SweepTo(s, id, w.(next := w.next + 1, loaded := false))
    else SweepTo(s, id, w.(seen := v))
  }

  function Do(s: Table, a: Step): Table
    requires Can(s, a)
  {
    match a
    case LockLoad(id, slot, db) => LoadSlot(s, id, slot, db)
    case LockStore(addr) => StoreLock(s, addr)
    case ReleaseCount(id) => CountOut(s, id)
    case ReleaseSettle => SettleOut(s, s.section.h)
    case ReleaseWake => WakeOut(s, s.section.h)
    case ReleaseDrop => DropOut(s, s.section.h)
    case TakeRef(id, slot) => if s.slots[slot].Lock? then Ref(s, id, slot, s.slots[slot].addr) else s
    case DropRef(id) => Unrefer(s, id)
    case AddWake(id, callback) => Park(s, s.refs[id], callback)
    case CancelStart(db) => s.(section := Cancelling(db, 0))
    case CancelVisit => Visit(s, s.section.db, s.section.next)
    case CancelWake => Unpark(s, s.section)
    case Populate(slot, observed, version) => Publish(s, slot, observed, version)
    case SweepStart(id) => Mint(s, id)
    case SweepLoad(id) => LoadSwept(s, id, s.sweeps[id])
    case SweepCas(id) => CasSwept(s, id, s.sweeps[id])
  }

  /** `s'` is reached from `s` by the steps of `run`, each one possible in turn. */
  predicate Runs(s: Table, run: seq<Step>, s': Table)
    decreases |run|
  {
    if run == [] then s == s'
    else Can(s, run[0]) && Runs(Do(s, run[0]), run[1..], s')
  }
}
