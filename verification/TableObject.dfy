/** The verification table as an object: each operation runs whole under the
writer mutex, on the array of slots and the heap of trackers. What it does is
stated by the steps of the lifecycle, so every guarantee proved for runs holds
for any sequence of calls. A slot index outside the table stands for the null
slot of a disabled table. */
module TableObject {
  import opened Wrappers
  import opened SlotWords
  import opened WriteIntents
  import opened IntentSafety

  /** `releaseWriteIntent` as a whole: the last holder settles the slot, if it
  still holds its lock, and wakes the waiters; the last reference frees. */
  function Released(s: Table, id: nat): Table
    requires id in s.intents && s.intents[id].addr in s.trackers
  {
    var h := s.intents[id];
    var t := s.trackers[h.addr];
    var last := t.holders == 1;
    var t' := if last then t.(holders := 0, woken := true, waiting := []) else t.(holders := t.holders - 1);
    s.(slots := if last then Swap(s.slots, h.slot, Lock(h.addr, t.tag), Settled(s.settleGen)) else s.slots,
       settleGen := if last then s.settleGen + 1 else s.settleGen,
       ran := if last then s.ran + t.waiting else s.ran,
       trackers := if t.refcount == 1 then s.trackers - {h.addr}
                   else s.trackers[h.addr := t'.(refcount := t.refcount - 1)],
       buried := if t.refcount == 1 then s.buried + [t.inc] else s.buried,
       intents := s.intents - {id})
  }

  /** The steps of a release, one after the other. */
  function ReleaseSteps(s: Table, id: nat): Table
    requires id in s.intents
  {
    var h := s.intents[id];
    var s1 := CountOut(s, id);
    if s1.section.Settling? then DropOut(WakeOut(SettleOut(s1, h), h), h) else DropOut(s1, h)
  }

  lemma ReleaseStepsEarly(s: Table, id: nat)
    requires s.section.Idle? && id in s.intents && Live(s.trackers, s.intents[id])
    requires s.trackers[s.intents[id].addr].holders != 1
    ensures ReleaseSteps(s, id) == Released(s, id)
  {
    var h := s.intents[id];
    var s1 := CountOut(s, id);
    assert s1.section == Dropping(h) && Live(s1.trackers, h);
    assert s1.trackers - {h.addr} == s.trackers - {h.addr};
  }

  lemma ReleaseStepsLast(s: Table, id: nat)
    requires s.section.Idle? && id in s.intents && Live(s.trackers, s.intents[id])
    requires s.trackers[s.intents[id].addr].holders == 1
    ensures ReleaseSteps(s, id) == Released(s, id)
  {
    var h := s.intents[id];
    var t := s.trackers[h.addr];
    var s1 := CountOut(s, id);
    assert s1.section == Settling(h) && s1.trackers[h.addr] == t.(holders := 0);
    var s2 := SettleOut(s1, h);
    assert s2.trackers == s1.trackers && s2.section == Waking(h);
    var s3 := WakeOut(s2, h);
    assert s3.trackers == s.trackers[h.addr := t.(holders := 0, woken := true, waiting := [])];
    assert s3.trackers - {h.addr} == s.trackers - {h.addr};
  }

  /** What a cancel does at one slot: a lock of the closing database is settled to
  a generation of its own and its waiters are woken; the tracker stays with its holders. */
  function CancelSlot(s: Table, db: nat, i: nat): Table
    requires i < |s.slots| && (s.slots[i].Lock? ==> s.slots[i].addr in s.trackers)
  {
    if !s.slots[i].Lock? || s.trackers[s.slots[i].addr].db != db then s
    else
      var a := s.slots[i].addr;
      var t := s.trackers[a];
      s.(slots := s.slots[i := Settled(s.settleGen)],
         settleGen := s.settleGen + 1,
         trackers := s.trackers[a := t.(woken := true, waiting := [])],
         ran := s.ran + t.waiting,
         cut := s.cut + {t.inc})
  }

  /** A cancel from slot `i` on. */
  ghost function Cancelled(s: Table, db: nat, i: nat): Table
    requires Inv(s) && s.section.Idle?
    decreases |s.slots| - i
  {
    if i >= |s.slots| then s
    else
      CancelSlotKeeps(s, db, i);
      Cancelled(CancelSlot(s, db, i), db, i + 1)
  }

  /** One slot's worth of cancelling is the table's own steps, and keeps the invariant. */
  lemma CancelSlotKeeps(s: Table, db: nat, i: nat)
    requires Inv(s) && s.section.Idle? && i < |s.slots|
    ensures s.slots[i].Lock? ==> s.slots[i].addr in s.trackers
    ensures Inv(CancelSlot(s, db, i)) && CancelSlot(s, db, i).section.Idle? && |CancelSlot(s, db, i).slots| == |s.slots|
    ensures var v := Visit(s.(section := Cancelling(db, i)), db, i);
            (if v.section.Unparking? then Unpark(v, v.section) else v)
            == CancelSlot(s, db, i).(section := Cancelling(db, i + 1))
  {
    assert Holds(s, Names);
    SectionOnlyKeeps(s, Cancelling(db, i));
    var c := s.(section := Cancelling(db, i));
    VisitKeeps(c);
    var v := Visit(c, db, i);
    var s' := CancelSlot(s, db, i);
    if v.section.Unparking? {
      WakeParts(v, v.section.addr, Cancelling(db, i + 1));
      assert Unpark(v, v.section) == s'.(section := Cancelling(db, i + 1));
      SectionOnlyKeeps(Unpark(v, v.section), Idle);
    } else {
      SectionOnlyKeeps(v, Idle);
    }
    assert s'.(section := Idle) == s';
  }

  /** The slot is locked by a tracker that the database installed. */
  predicate OwnedBy(s: Table, j: nat, db: nat) {
    j < |s.slots| && s.slots[j].Lock? && s.slots[j].addr in s.trackers && s.trackers[s.slots[j].addr].db == db
  }

  /** Of the slots from `i` on exactly the database's own locks are settled, each to
  a generation not used before. Every other slot, who holds or references what,
  and every tracker but for its waiters, are as they were. */
  ghost predicate CancelsExactly(s: Table, s': Table, db: nat, i: nat) {
    && |s'.slots| == |s.slots| && s'.intents == s.intents && s'.refs == s.refs
    && s'.trackers.Keys == s.trackers.Keys && s'.settleGen >= s.settleGen
    && (forall a :: a in s.trackers ==> SameButWaiters(s'.trackers[a], s.trackers[a]))
    && (forall j :: 0 <= j < |s.slots| ==>
          if i <= j && OwnedBy(s, j, db) then s'.slots[j].Settled? && s'.slots[j].gen >= s.settleGen
          else s'.slots[j] == s.slots[j])
  }

  lemma CancelSlotExactly(s: Table, db: nat, i: nat, s': Table)
    requires i < |s.slots| && (s.slots[i].Lock? ==> s.slots[i].addr in s.trackers)
    requires CancelsExactly(CancelSlot(s, db, i), s', db, i + 1)
    ensures CancelsExactly(s, s', db, i)
  {
    if OwnedBy(s, i, db) {
      var s1 := CancelSlot(s, db, i);
      forall j | 0 <= j < |s.slots|
        ensures if i <= j && OwnedBy(s, j, db) then s'.slots[j].Settled? && s'.slots[j].gen >= s.settleGen
                else s'.slots[j] == s.slots[j]
      {
        OwnersStay(s, s1, db, i, j);
      }
      forall a | a in s.trackers ensures SameButWaiters(s'.trackers[a], s.trackers[a]) {
        assert SameButWaiters(s'.trackers[a], s1.trackers[a]);
      }
    } else {
      assert CancelSlot(s, db, i) == s;
    }
  }

  lemma OwnersStay(s: Table, s1: Table, db: nat, i: nat, j: nat)
    requires OwnedBy(s, i, db) && s1 == CancelSlot(s, db, i) && j < |s.slots|
    ensures j != i ==> s1.slots[j] == s.slots[j] && (OwnedBy(s1, j, db) <==> OwnedBy(s, j, db))
    ensures s1.slots[i] == Settled(s.settleGen) && s1.settleGen > s.settleGen
  {
  }

  lemma {:induction false} CancelledExactly(s: Table, db: nat, i: nat)
    requires Inv(s) && s.section.Idle?
    ensures Inv(Cancelled(s, db, i)) && CancelsExactly(s, Cancelled(s, db, i), db, i)
    decreases |s.slots| - i
  {
    if i < |s.slots| {
      CancelSlotKeeps(s, db, i);
      CancelledExactly(CancelSlot(s, db, i), db, i + 1);
      CancelSlotExactly(s, db, i, Cancelled(s, db, i));
    }
  }

  /** A cancel changes a slot if and only if it is locked by a tracker the database
  installed; after it there is no such slot. */
  lemma CancelledClears(s: Table, db: nat)
    requires Inv(s) && s.section.Idle?
    ensures var s' := Cancelled(s, db, 0);
            && Inv(s') && CancelsExactly(s, s', db, 0)
            && forall j :: 0 <= j < |s.slots| ==>
                 (s'.slots[j] != s.slots[j] <==> OwnedBy(s, j, db)) && !OwnedBy(s', j, db)
  {
    CancelledExactly(s, db, 0);
  }

  /** From slot `i` on, the trackers of the database's own locks are woken and their
  callbacks have run; every other tracker is as it was, and nothing else has run. */
  ghost predicate CancelWakes(s: Table, s': Table, db: nat, i: nat) {
    && s.ran <= s'.ran && s'.trackers.Keys == s.trackers.Keys
    && (forall j :: i <= j && OwnedBy(s, j, db) ==>
          && s'.trackers[s.slots[j].addr].woken && s'.trackers[s.slots[j].addr].waiting == []
          && forall cb :: cb in s.trackers[s.slots[j].addr].waiting ==> cb in s'.ran)
    && (forall a :: a in s.trackers ==>
          || s'.trackers[a] == s.trackers[a]
          || (s'.trackers[a].woken && s'.trackers[a].waiting == [] && exists j :: i <= j && Owns(s, j, db, a)))
    && (forall cb :: cb in s'.ran && cb !in s.ran ==> exists j :: i <= j && Waited(s, j, db, cb))
  }

  predicate Owns(s: Table, j: nat, db: nat, a: nat) { OwnedBy(s, j, db) && s.slots[j].addr == a }

  predicate Waited(s: Table, j: nat, db: nat, cb: nat) {
    OwnedBy(s, j, db) && cb in s.trackers[s.slots[j].addr].waiting
  }

  lemma CancelSlotWakes(s: Table, db: nat, i: nat, s': Table)
    requires OwnedBy(s, i, db) && CancelWakes(CancelSlot(s, db, i), s', db, i + 1)
    requires forall j :: 0 <= j < |s.slots| && j != i && s.slots[j].Lock? ==> s.slots[j].addr != s.slots[i].addr
    ensures CancelWakes(s, s', db, i)
  {
    var s1, a := CancelSlot(s, db, i), s.slots[i].addr;
    forall j | 0 <= j < |s.slots| && j != i
      ensures s1.slots[j] == s.slots[j] && (OwnedBy(s1, j, db) <==> OwnedBy(s, j, db))
      ensures OwnedBy(s, j, db) ==> s1.trackers[s.slots[j].addr] == s.trackers[s.slots[j].addr]
    {
      OwnersStay(s, s1, db, i, j);
    }
    assert Owns(s, i, db, a);
    assert s'.trackers[a].woken && s'.trackers[a].waiting == [];
    forall cb | cb in s1.ran ensures cb in s'.ran {
      var x :| 0 <= x < |s1.ran| && s1.ran[x] == cb;
      assert s'.ran[x] == cb;
    }
    assert s.ran <= s1.ran;
    forall j | i <= j && OwnedBy(s, j, db)
      ensures s'.trackers[s.slots[j].addr].woken && s'.trackers[s.slots[j].addr].waiting == []
      ensures forall cb :: cb in s.trackers[s.slots[j].addr].waiting ==> cb in s'.ran
    {
      if j != i { assert OwnedBy(s1, j, db); }
      else { assert forall cb :: cb in s.trackers[a].waiting ==> cb in s1.ran; }
    }
    forall x | x in s.trackers
      ensures s'.trackers[x] == s.trackers[x]
           || (s'.trackers[x].woken && s'.trackers[x].waiting == [] && exists j :: i <= j && Owns(s, j, db, x))
    {
      if x != a && s'.trackers[x] != s1.trackers[x] {
        var j :| i + 1 <= j && Owns(s1, j, db, x);
        assert Owns(s, j, db, x);
      }
    }
    forall cb | cb in s'.ran && cb !in s.ran ensures exists j :: i <= j && Waited(s, j, db, cb) {
      if cb in s1.ran {
        assert Waited(s, i, db, cb);
      } else {
        var j :| i + 1 <= j && Waited(s1, j, db, cb);
        assert Waited(s, j, db, cb);
      }
    }
  }

  /** A cancel wakes exactly the trackers whose locks it settles: their callbacks have
  run when it is over, and no others. */
  lemma {:induction false} CancelledWakes(s: Table, db: nat, i: nat)
    requires Inv(s) && s.section.Idle?
    ensures CancelWakes(s, Cancelled(s, db, i), db, i)
    decreases |s.slots| - i
  {
    if i < |s.slots| {
      CancelSlotKeeps(s, db, i);
      CancelledWakes(CancelSlot(s, db, i), db, i + 1);
      assert Holds(s, Names);
      if OwnedBy(s, i, db) { CancelSlotWakes(s, db, i, Cancelled(s, db, i)); }
      else { assert CancelSlot(s, db, i) == s; }
    }
  }

  /** An intent that has its lock loses it in a cancel if and only if its tracker
  was installed by the database being closed, whoever holds the intent. */
  lemma CancelTakesLock(s: Table, db: nat, id: nat)
    requires Inv(s) && s.section.Idle? && id in s.intents && LockedBy(s.slots, s.trackers, s.intents[id])
    ensures var s' := Cancelled(s, db, 0);
            !LockedBy(s'.slots, s'.trackers, s.intents[id]) <==> s.trackers[s.intents[id].addr].db == db
  {
    CancelledExactly(s, db, 0);
    var h := s.intents[id];
    assert OwnedBy(s, h.slot, db) <==> s.trackers[h.addr].db == db;
    assert SameButWaiters(Cancelled(s, db, 0).trackers[h.addr], s.trackers[h.addr]);
  }

  function SweptSlots(slots: seq<Word>, gen: nat): seq<Word> {
    seq(|slots|, i requires 0 <= i < |slots| => if slots[i].Lock? then slots[i] else Settled(gen))
  }

  /** The sweep numbered 0 passes slot `i`. */
  function SweptOne(s: Table, gen: nat, i: nat): Table
    requires i < |s.slots|
  {
    SweepTo(if s.slots[i].Lock? then s else Reword(s, i, Settled(gen)), 0, Sweep(gen, i + 1, false, Empty))
  }

  lemma SweptOneKeeps(s: Table, gen: nat, i: nat)
    requires Inv(s) && i < |s.slots| && 0 in s.sweeps && s.sweeps[0] == Sweep(gen, i, false, Empty)
    ensures Inv(SweptOne(s, gen, i))
  {
    if s.slots[i].Lock? { SweepMoveKeeps(s, 0, Sweep(gen, i + 1, false, Empty)); } else { SweepVisitKeeps(s, 0); }
  }

  /** A sweep's own steps, undisturbed, pass a slot the way the whole sweep does:
  a lock is left alone, anything else gets the sweep's generation. */
  lemma SweepStepsPass(s: Table, id: nat)
    requires id in s.sweeps && !s.sweeps[id].loaded && s.sweeps[id].next < |s.slots|
    ensures var w, s1 := s.sweeps[id], Do(s, SweepLoad(id));
            if s.slots[w.next].Lock? then
              s1.slots == s.slots && s1.sweeps[id].next == w.next + 1 && !s1.sweeps[id].loaded
            else
              && Can(s1, SweepCas(id))
              && var s2 := Do(s1, SweepCas(id));
              && s2.slots == s.slots[w.next := Settled(w.gen)]
              && s2.sweeps[id].next == w.next + 1 && !s2.sweeps[id].loaded
  {
  }

  lemma ReleasedKeeps(s: Table, id: nat)
    requires Inv(s) && s.section.Idle? && id in s.intents
    ensures s.intents[id].addr in s.trackers && Inv(Released(s, id))
    ensures ReleaseSteps(s, id) == Released(s, id)
  {
    var h := s.intents[id];
    assert Holds(s, Alive);
    StepKeeps(s, ReleaseCount(id));
    var s1 := Do(s, ReleaseCount(id));
    if s.trackers[h.addr].holders == 1 {
      ReleaseStepsLast(s, id);
      StepKeeps(s1, ReleaseSettle);
      var s2 := Do(s1, ReleaseSettle);
      StepKeeps(s2, ReleaseWake);
      StepKeeps(Do(s2, ReleaseWake), ReleaseDrop);
    } else {
      ReleaseStepsEarly(s, id);
      StepKeeps(s1, ReleaseDrop);
    }
  }

  /** A tracker counts one holder exactly when one intent is on it. */
  lemma LastHolder(s: Table, id: nat)
    requires Inv(s) && id in s.intents
    ensures s.intents[id].addr in s.trackers
    ensures s.trackers[s.intents[id].addr].holders == 1 <==> On(s.intents, s.intents[id].addr) == {id}
  {
    assert Holds(s, Alive) && Holds(s, Counts);
    var on := On(s.intents, s.intents[id].addr);
    assert id in on;
    if |on| == 1 { assert |on - {id}| == 0; }
  }

  lemma ForgetSweeps(s: Table)
    requires Inv(s)
    ensures Inv(s.(sweeps := map[]))
  {
    var s' := s.(sweeps := map[]);
    forall p: Part ensures Holds(s', p) { assert Holds(s, p); }
  }

  /** `lockSlotForWrite`: load the slot, then join its tracker or install `room`. */
  function Locked(s: Table, id: nat, slot: nat, db: nat, room: nat): Table
    requires slot < |s.slots|
  {
    StoreLock(LoadSlot(s, id, slot, db), room)
  }

  lemma LockedKeeps(s: Table, id: nat, slot: nat, db: nat, room: nat)
    requires Inv(s) && s.section.Idle? && slot < |s.slots| && id !in s.intents && room !in s.trackers
    ensures var s1 := Locked(s, id, slot, db, room);
            && Inv(s1) && s1.section.Idle? && s1.sweeps == s.sweeps && |s1.slots| == |s.slots|
            && s1.intents.Keys == s.intents.Keys + {id} && s1.intents - {id} == s.intents
            && s1.intents[id].slot == slot && LockedBy(s1.slots, s1.trackers, s1.intents[id])
  {
    StepKeeps(s, LockLoad(id, slot, db));
    var l := Do(s, LockLoad(id, slot, db));
    assert Holds(l, Relied) && Holds(l, Names);
    StepKeeps(l, LockStore(room));
    var s1 := Do(l, LockStore(room));
    assert s1.intents - {id} == s.intents;
  }

  /** Locking and then releasing a free slot leaves only a newly settled slot. */
  lemma LockThenReleaseFree(s: Table, id: nat, slot: nat, db: nat, room: nat)
    requires Inv(s) && s.section.Idle? && slot < |s.slots| && id !in s.intents && room !in s.trackers
    requires !s.slots[slot].Lock?
    ensures var s1 := Locked(s, id, slot, db, room);
            && id in s1.intents && s1.intents[id].addr in s1.trackers
            && var s2 := Released(s1, id);
            && s2.slots == s.slots[slot := Settled(s.settleGen)]
            && s2.trackers == s.trackers && s2.intents == s.intents
  {
    LockedKeeps(s, id, slot, db, room);
    var s1 := Locked(s, id, slot, db, room);
    assert s1.trackers - {room} == s.trackers;
  }

  /** Joining a held lock and leaving again changes no slot and no count. */
  lemma LockThenReleaseHeld(s: Table, id: nat, slot: nat, db: nat, room: nat)
    requires Inv(s) && s.section.Idle? && slot < |s.slots| && id !in s.intents && room !in s.trackers
    requires s.slots[slot].Lock?
    ensures var s1 := Locked(s, id, slot, db, room);
            && id in s1.intents && s1.intents[id].addr in s1.trackers
            && var s2 := Released(s1, id);
            && s2.slots == s.slots && s2.trackers == s.trackers && s2.intents == s.intents
  {
    LockedKeeps(s, id, slot, db, room);
    assert Holds(s, Names) && Holds(s, Counts);
    var a := s.slots[slot].addr;
    assert s.trackers[a].holders >= 1;
    var s1 := Locked(s, id, slot, db, room);
    assert s1.trackers[a].refcount >= 2 && s1.trackers[a].holders >= 2;
    assert Released(s1, id).trackers == s.trackers;
  }

  class VerificationTable {
    const slots: array<Word>
    var trackers: map<nat, Tracker>
    var tags: nat
    var settleGen: nat
    ghost var intents: map<nat, Handle>
    ghost var refs: map<nat, Handle>
    var homes: seq<nat>   // numbers the allocations
    ghost var buried: seq<nat>
    ghost var accepted: map<nat, nat>
    ghost var ran: seq<nat>
    ghost var cut: set<nat>

    /** The table between two mutex-protected operations. */
    ghost function Value(): Table
      reads this, slots
    {
      Table(slots[..], trackers, intents, refs, Idle, map[], tags, settleGen, homes, buried, accepted, ran, cut, false)
    }

    ghost predicate Valid()
      reads this, slots
    {
      Inv(Value())
    }

    constructor (n: nat)
      ensures Valid() && fresh(slots) && Value() == Initial(n)
      ensures slots.Length == n && (forall i :: 0 <= i < n ==> slots[i] == Empty) && trackers == map[]
    {
      slots := new Word[n](_ => Empty);
      trackers, tags, settleGen := map[], 0, 1;
      intents, refs, homes, buried, accepted, ran, cut := map[], map[], [], [], map[], [], {};
      new;
      assert slots[..] == Initial(n).slots;
      InitialHolds(n);
    }

    method PopulateVersionIfUnchanged(slot: nat, observed: Word, version: nat) returns (ok: bool)
      requires Valid()
      modifies slots
      ensures Valid()
      ensures slot >= slots.Length || version == 0 ==> !ok && Value() == old(Value())
      ensures slot < slots.Length && version > 0 ==>
                && Value() == Publish(old(Value()), slot, observed, version)
                && Can(old(Value()), Populate(slot, observed, version))
                && Value() == Do(old(Value()), Populate(slot, observed, version))
                && ok == (!observed.Lock? && (observed == Version(version) || old(slots[slot]) == observed))
      ensures forall i :: 0 <= i < slots.Length ==>
                slots[i] == if i == slot && version > 0 && !observed.Lock? && old(slots[i]) == observed
                            then Version(version) else old(slots[i])
    {
      if slot >= slots.Length || version == 0 || observed.Lock? { return false; }
      if observed == Version(version) { return true; }
      PublishKeeps(Value(), slot, observed, version);
      ok := slots[slot] == observed;
      if ok { slots[slot] := Version(version); }
      assert Value() == Publish(old(Value()), slot, observed, version);
    }

    /** `room` is where the allocator would place a new tracker. */
    method LockSlotForWrite(slot: nat, db: nat, room: nat, ghost id: nat) returns (tracker: Option<nat>)
      requires Valid() && id !in intents && room !in trackers
      modifies this, slots
      ensures Valid()
      ensures tracker == None <==> slot >= slots.Length
      ensures slot >= slots.Length ==> Value() == old(Value())
      ensures slot < slots.Length ==>
                && Value() == Locked(old(Value()), id, slot, db, room)
                && id in intents && intents[id].slot == slot && intents[id].addr == tracker.value
                && intents - {id} == old(intents)
                && (old(slots[slot]).Lock? ==> tracker.value == old(slots[slot]).addr && slots[..] == old(slots[..]))
                && (!old(slots[slot]).Lock? ==>
                      tracker.value == room && slots[slot].Lock? && slots[slot].addr == room
                      && slots[..] == old(slots[..])[slot := slots[slot]])
                && ran == old(ran) && refs == old(refs)
    {
      if slot >= slots.Length { return None; }
      LockedKeeps(Value(), id, slot, db, room);
      assert Holds(Value(), Names);
      var v := slots[slot];
      if v.Lock? {
        var t := trackers[v.addr];
        trackers := trackers[v.addr := t.(holders := t.holders + 1, refcount := t.refcount + 1)];
        intents := intents[id := Handle(slot, v.addr, t.inc)];
        tracker := Some(v.addr);
      } else {
        var tag := tags % 0x4000;
        tags := tags + 1;
        trackers := trackers[room := Tracker(1, 1, tag, slot, db, false, [], |homes|)];
        intents := intents[id := Handle(slot, room, |homes|)];
        homes := homes + [room];
        slots[slot] := Lock(room, tag);
        tracker := Some(room);
      }
      assert Value() == Locked(old(Value()), id, slot, db, room);
    }

    /** Settle the slot to a new generation if it still holds `expected`. */
    method SettleSlot(slot: nat, expected: Word)
      modifies slots, `settleGen
      ensures slots[..] == Swap(old(slots[..]), slot, expected, Settled(old(settleGen)))
      ensures settleGen == old(settleGen) + 1
    {
      if slot < slots.Length && slots[slot] == expected { slots[slot] := Settled(settleGen); }
      settleGen := settleGen + 1;
    }

    /** `t` is the tracker that `lockSlotForWrite` returned for the intent. */
    method ReleaseWriteIntent(slot: nat, t: nat, ghost id: nat)
      requires Valid() && id in intents && intents[id].slot == slot && intents[id].addr == t
      modifies this, slots
      ensures Valid() && t in old(trackers) && Value() == Released(old(Value()), id)
      ensures intents == old(intents) - {id} && refs == old(refs)
      ensures var last := On(old(intents), t) == {id}; var k := old(trackers)[t];
              && slots[..] == (if last then Swap(old(slots[..]), slot, Lock(t, k.tag), Settled(old(settleGen)))
                               else old(slots[..]))
              && ran == (if last then old(ran) + k.waiting else old(ran))
              && (t !in trackers <==> k.refcount == 1)
              && (t in trackers && last ==> trackers[t].woken)
    {
      ReleasedKeeps(Value(), id);
      LastHolder(Value(), id);
      ghost var s' := Released(Value(), id);
      var k := trackers[t];
      intents := intents - {id};
      if k.holders == 1 {
        SettleSlot(slot, Lock(t, k.tag));
        ran := ran + k.waiting;
      }
      assert slots[..] == s'.slots && settleGen == s'.settleGen && ran == s'.ran;
      var left := if k.holders == 1 then k.(holders := 0, woken := true, waiting := [])
                  else k.(holders := k.holders - 1);
      if k.refcount == 1 {
        trackers, buried := trackers - {t}, buried + [k.inc];
      } else {
        trackers := trackers[t := left.(refcount := k.refcount - 1)];
      }
      assert trackers == s'.trackers && buried == s'.buried;
      assert Value() == s';
    }

    method RefTrackerIfLocked(slot: nat, ghost id: nat) returns (tracker: Option<nat>)
      requires Valid() && id !in refs
      modifies this
      ensures Valid()
      ensures slot >= slots.Length ==> tracker == None && Value() == old(Value())
      ensures slot < slots.Length ==>
                && Value() == Do(old(Value()), TakeRef(id, slot))
                && (tracker == None <==> !slots[slot].Lock?)
                && (tracker.Some? ==> id in refs && refs[id].addr == tracker.value && refs - {id} == old(refs))
                && (tracker.Some? ==> tracker.value == slots[slot].addr) && (tracker == None ==> refs == old(refs))
    {
      if slot >= slots.Length || !slots[slot].Lock? { return None; }
      StepKeeps(Value(), TakeRef(id, slot));
      assert Holds(Value(), Names);
      var a := slots[slot].addr;
      var k := trackers[a];
      refs := refs[id := Handle(slot, a, k.inc)];
      trackers := trackers[a := k.(refcount := k.refcount + 1)];
      tracker := Some(a);
      assert Value() == Do(old(Value()), TakeRef(id, slot));
    }

    method UnrefTracker(t: nat, ghost id: nat)
      requires Valid() && id in refs && refs[id].addr == t
      modifies this
      ensures Valid() && Value() == Do(old(Value()), DropRef(id))
      ensures refs == old(refs) - {id} && slots[..] == old(slots[..]) && intents == old(intents)
      ensures t in old(trackers) && (t !in trackers <==> old(trackers)[t].refcount == 1)
    {
      StepKeeps(Value(), DropRef(id));
      assert Holds(Value(), Alive);
      var k := trackers[t];
      refs := refs - {id};
      if k.refcount == 1 {
        trackers, buried := trackers - {t}, buried + [k.inc];
      } else {
        trackers := trackers[t := k.(refcount := k.refcount - 1)];
      }
      assert Value() == Do(old(Value()), DropRef(id));
    }

    method AddWakeCallback(t: nat, callback: nat, ghost id: nat) returns (registered: bool)
      requires Valid() && id in refs && refs[id].addr == t && callback !in accepted
      modifies this
      ensures Valid() && Value() == Do(old(Value()), AddWake(id, callback))
      ensures registered <==> callback in accepted
      ensures t in old(trackers) && (registered <==> !old(trackers)[t].woken)
      ensures trackers == if !registered then old(trackers)
                          else old(trackers)[t := old(trackers)[t].(waiting := old(trackers)[t].waiting + [callback])]
    {
      StepKeeps(Value(), AddWake(id, callback));
      assert Holds(Value(), Alive);
      var k := trackers[t];
      if k.woken { return false; }
      trackers := trackers[t := k.(waiting := k.waiting + [callback])];
      accepted := accepted[callback := k.inc];
      assert Value() == Do(old(Value()), AddWake(id, callback));
      return true;
    }

    /** The table with a sweep of generation `gen` about to pass slot `i`. */
    ghost function Sweeping(gen: nat, i: nat): Table
      reads this, slots
    {
      Value().(sweeps := map[0 := Sweep(gen, i, false, Empty)])
    }

    /** The loop of the sweep. */
    method SweepSlots(gen: nat)
      requires Inv(Sweeping(gen, 0))
      modifies slots
      ensures Inv(Sweeping(gen, slots.Length)) && slots[..] == SweptSlots(old(slots[..]), gen)
    {
      var i := 0;
      while i < slots.Length
        invariant 0 <= i <= slots.Length && Inv(Sweeping(gen, i))
        invariant forall j :: 0 <= j < slots.Length ==>
                    slots[j] == if j < i && !old(slots[j]).Lock? then Settled(gen) else old(slots[j])
      {
        ghost var s := Sweeping(gen, i);
        SweptOneKeeps(s, gen, i);
        if !slots[i].Lock? { slots[i] := Settled(gen); }
        i := i + 1;
        assert Sweeping(gen, i) == SweptOne(s, gen, i - 1);
      }
    }

    /** Every slot that is not locked gets the sweep's one new generation. */
    method SettleAllSlots()
      requires Valid()
      modifies this, slots
      ensures Valid()
      ensures Value() == old(Value()).(slots := SweptSlots(old(slots[..]), old(settleGen)),
                                       settleGen := old(settleGen) + 1)
      ensures forall i :: 0 <= i < slots.Length ==>
                slots[i] == if old(slots[i]).Lock? then old(slots[i]) else Settled(old(settleGen))
    {
      StepKeeps(Value(), SweepStart(0));
      var gen := settleGen;
      settleGen := settleGen + 1;
      assert Sweeping(gen, 0) == Mint(old(Value()), 0);
      SweepSlots(gen);
      ForgetSweeps(Sweeping(gen, slots.Length));
      assert Sweeping(gen, slots.Length).(sweeps := map[]) == Value();
    }

    /** `cancelForDB`: one pass over the slots. */
    method CancelForDB(db: nat)
      requires Valid()
      modifies this, slots
      ensures Valid() && Value() == Cancelled(old(Value()), db, 0)
    {
      var i := 0;
      while i < slots.Length
        invariant 0 <= i <= slots.Length
        invariant Valid()
        invariant Cancelled(Value(), db, i) == Cancelled(old(Value()), db, 0)
      {
        ghost var s := Value();
        CancelSlotKeeps(s, db, i);
        if slots[i].Lock? && trackers[slots[i].addr].db == db {
          var t := slots[i].addr;
          var k := trackers[t];
          slots[i] := Settled(settleGen);
          settleGen := settleGen + 1;
          cut, ran := cut + {k.inc}, ran + k.waiting;
          trackers := trackers[t := k.(woken := true, waiting := [])];
        }
        assert Value() == CancelSlot(s, db, i);
        i := i + 1;
      }
    }
  }
}
