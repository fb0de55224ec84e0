/** The native side of a batched put without a transaction: walk the two buffers,
lock the slot of every key, write the batch, release every lock. */
module PutMany {
  import opened Wrappers
  import opened Bytes
  import opened PutManyFrames
  import opened SlotWords
  import opened WriteIntents
  import opened IntentSafety
  import opened TableObject

  type Key = seq<byte>
  type Data = map<Key, seq<byte>>

  datatype Status = Ok | TooLong | Malformed(fault: Fault) | PutFailed | WriteFailed

  /** The puts of a batch, one after the other. */
  function Applied(data: Data, es: seq<Entry>): Data {
    if es == [] then data else Applied(data, es[..|es| - 1])[es[|es| - 1].key := es[|es| - 1].value]
  }

  /** In effect the last entry for a key decides, */
  lemma {:induction false} LastPutWins(data: Data, es: seq<Entry>, i: nat)
    requires i < |es| && forall j :: i < j < |es| ==> es[j].key != es[i].key
    ensures es[i].key in Applied(data, es) && Applied(data, es)[es[i].key] == es[i].value
    decreases |es|
  {
    if i < |es| - 1 { LastPutWins(data, es[..|es| - 1], i); }
  }

  /** and keys without an entry stay as they were. */
  lemma {:induction false} OtherKeysStay(data: Data, es: seq<Entry>, k: Key)
    requires forall j :: 0 <= j < |es| ==> es[j].key != k
    ensures k in Applied(data, es) <==> k in data
    ensures k in data ==> Applied(data, es)[k] == data[k]
    decreases |es|
  {
    if es != [] { OtherKeysStay(data, es[..|es| - 1], k); }
  }

  /** A number that is not in use. */
  lemma {:induction false} Unused(s: set<nat>) returns (n: nat)
    ensures forall x <- s :: x < n
    decreases |s|
  {
    if s == {} { return 0; }
    var x :| x in s;
    var m := Unused(s - {x});
    n := if x < m then m else x + 1;
    forall y <- s ensures y < n { assert y == x || y in s - {x}; }
  }

  /** A slot and the tracker that was locked there. */
  datatype Held = Held(slot: nat, tracker: nat)

  /** The held intents are those of `base` and, beside them, exactly `locks`. */
  ghost predicate Holding(intents: Handles, base: Handles, locks: seq<Held>, ids: seq<nat>) {
    && |ids| == |locks| && NoRepeat(ids)
    && intents.Keys == base.Keys + (set id | id in ids)
    && (forall id :: id in base ==> id !in ids && intents[id] == base[id])
    && (forall j :: 0 <= j < |ids| ==>
          intents[ids[j]].slot == locks[j].slot && intents[ids[j]].addr == locks[j].tracker)
  }

  lemma HoldMore(intents: Handles, base: Handles, locks: seq<Held>, ids: seq<nat>, id: nat, h: Handle, next: Handles)
    requires Holding(intents, base, locks, ids) && id !in intents
    requires id in next && next - {id} == intents && next[id] == h
    ensures Holding(next, base, locks + [Held(h.slot, h.addr)], ids + [id])
  {
    assert forall x :: x in intents ==> x in next && next[x] == (next - {id})[x];
    assert next.Keys == intents.Keys + {id};
    var all := ids + [id];
    assert (set x | x in all) == (set x | x in ids) + {id};
    forall j | 0 <= j < |all| ensures next[all[j]].slot == (locks + [Held(h.slot, h.addr)])[j].slot
                                      && next[all[j]].addr == (locks + [Held(h.slot, h.addr)])[j].tracker {
      if j < |ids| { assert ids[j] in intents; }
    }
  }

  lemma HoldLess(intents: Handles, base: Handles, locks: seq<Held>, ids: seq<nat>)
    requires Holding(intents, base, locks, ids) && ids != []
    ensures ids[0] in intents && Holding(intents - {ids[0]}, base, locks[1..], ids[1..])
  {
    assert ids == [ids[0]] + ids[1..] && ids[0] in ids;
    assert ids[0] !in ids[1..];
  }

  predicate AllLocked(slots: seq<Word>, es: seq<Entry>, slotOf: Key -> nat) {
    forall i :: 0 <= i < |es| && slotOf(es[i].key) < |slots| ==> slots[slotOf(es[i].key)].Lock?
  }

  predicate StayLocked(before: seq<Word>, after: seq<Word>) {
    |before| == |after| && forall i :: 0 <= i < |before| && before[i].Lock? ==> after[i].Lock?
  }

  lemma LockKeepsLocks(s: Table, id: nat, slot: nat, db: nat, room: nat)
    requires slot < |s.slots|
    ensures StayLocked(s.slots, Locked(s, id, slot, db, room).slots)
    ensures Locked(s, id, slot, db, room).slots[slot].Lock?
  {
  }

  /** `batch` is what the walk finds before the two offsets, `i` entries in. */
  predicate Partway(keys: seq<byte>, values: seq<byte>, ko: nat, vo: nat, batch: seq<Entry>, count: nat, i: nat) {
    i <= count && Walk(keys, values, 0, 0, count) == PutManyFrames.After(batch, Walk(keys, values, ko, vo, count - i))
  }

  lemma StartOfWalk(keys: seq<byte>, values: seq<byte>, count: nat)
    ensures Partway(keys, values, 0, 0, [], count, 0)
  {
    var w := Walk(keys, values, 0, 0, count);
    if w.Entries? { assert [] + w.entries == w.entries; }
  }

  lemma EndOfWalk(keys: seq<byte>, values: seq<byte>, ko: nat, vo: nat, batch: seq<Entry>, count: nat)
    requires Partway(keys, values, ko, vo, batch, count, count)
    ensures Walk(keys, values, 0, 0, count) == Entries(batch)
  {
    assert batch + [] == batch;
  }

  // ---- What a call passes through

  /** The store and the table, between two steps of a call. */
  datatype Stage = Stage(data: Data, table: Table)

  ghost predicate LockStage(a: Stage, b: Stage, db: nat) {
    && a.data == b.data
    && exists id: nat, slot: nat, room: nat :: slot < |a.table.slots| && b.table == Locked(a.table, id, slot, db, room)
  }

  ghost predicate ReleaseStage(a: Stage, b: Stage) {
    && a.data == b.data
    && exists id: nat :: Releasable(a.table, id) && b.table == Released(a.table, id)
  }

  predicate Releasable(t: Table, id: nat) { id in t.intents && t.intents[id].addr in t.trackers }

  /** Each stage follows from the one before by locking a slot, releasing an intent, or
  writing the store, and the store is written, as the batch says, only while the
  slots of all keys of the batch are locked. */
  ghost predicate Passes(trace: seq<Stage>, db: nat, enabled: bool, es: seq<Entry>, slotOf: Key -> nat) {
    forall i :: 0 <= i < |trace| - 1 ==> PassesAt(trace[i], trace[i + 1], db, enabled, es, slotOf)
  }

  ghost predicate PassesAt(a: Stage, b: Stage, db: nat, enabled: bool, es: seq<Entry>, slotOf: Key -> nat) {
    || LockStage(a, b, db) || ReleaseStage(a, b)
    || (&& b.table == a.table && b.data == Applied(a.data, es)
        && (enabled ==> AllLocked(a.table.slots, es, slotOf)))
  }

  /** The same before anything is written. */
  ghost predicate OnlyLocks(trace: seq<Stage>, db: nat) {
    forall i :: 0 <= i < |trace| - 1 ==> LockStage(trace[i], trace[i + 1], db)
  }

  lemma PassesMore(trace: seq<Stage>, b: Stage, db: nat, enabled: bool, es: seq<Entry>, slotOf: Key -> nat)
    requires trace != [] && Passes(trace, db, enabled, es, slotOf)
    requires PassesAt(trace[|trace| - 1], b, db, enabled, es, slotOf)
    ensures Passes(trace + [b], db, enabled, es, slotOf)
  {
    var all := trace + [b];
    forall i | 0 <= i < |all| - 1 ensures PassesAt(all[i], all[i + 1], db, enabled, es, slotOf) {
      assert all[i] == trace[i] && (i + 1 < |trace| ==> all[i + 1] == trace[i + 1]);
    }
  }

  lemma LocksPass(trace: seq<Stage>, db: nat, enabled: bool, es: seq<Entry>, slotOf: Key -> nat)
    requires OnlyLocks(trace, db)
    ensures Passes(trace, db, enabled, es, slotOf)
  {
  }

  class Database {
    const table: VerificationTable
    const enabled: bool
    const id: nat
    var data: Data
    ghost var trace: seq<Stage>   // the stages of the latest call

    constructor (table: VerificationTable, enabled: bool, id: nat)
      ensures this.table == table && this.enabled == enabled && this.id == id && data == map[]
    {
      this.table, this.enabled, this.id, data, trace := table, enabled, id, map[], [];
    }

    ghost function Now(): Stage
      reads this, table, table.slots
    {
      Stage(data, table.Value())
    }

    /** The trace has come to the present. */
    ghost predicate Recorded()
      reads this, table, table.slots
    {
      trace != [] && trace[|trace| - 1] == Now()
    }

    /** The store's own write, which must not happen outside the locks. */
    method Write(batch: seq<Entry>, slotOf: Key -> nat)
      requires Covers(batch, slotOf) && Recorded() && Passes(trace, id, enabled, batch, slotOf)
      modifies this`data, this`trace
      ensures data == Applied(old(data), batch)
      ensures Recorded() && old(trace) <= trace && Passes(trace, id, enabled, batch, slotOf)
    {
      data := Applied(data, batch);
      PassesMore(trace, Now(), id, enabled, batch, slotOf);
      trace := trace + [Now()];
    }

    /** Locks the slot of one key, if it has one. `alloc` is the allocator. */
    method LockKey(slot: nat, alloc: map<nat, Tracker> -> nat, locks: seq<Held>, ghost ids: seq<nat>,
                   ghost base: Handles)
      returns (more: seq<Held>, ghost moreIds: seq<nat>)
      requires table.Valid() && Holding(table.intents, base, locks, ids) && alloc(table.trackers) !in table.trackers
      requires Recorded() && OnlyLocks(trace, id)
      modifies table, table.slots, this`trace
      ensures Recorded() && OnlyLocks(trace, id) && old(trace) <= trace
      ensures table.Valid() && Holding(table.intents, base, more, moreIds)
      ensures StayLocked(old(table.slots[..]), table.slots[..])
      ensures slot < table.slots.Length ==> table.slots[slot].Lock?
    {
      more, moreIds := locks, ids;
      ghost var unused := Unused(table.intents.Keys);
      var room := alloc(table.trackers);
      ghost var before := table.Value();
      var t := table.LockSlotForWrite(slot, id, room, unused);
      if t.Some? {
        LockKeepsLocks(before, unused, slot, id, room);
        assert table.slots[..] == Locked(before, unused, slot, id, room).slots;
        HoldMore(before.intents, base, locks, ids, unused, table.intents[unused], table.intents);
        more, moreIds := locks + [Held(slot, t.value)], ids + [unused];
        assert LockStage(trace[|trace| - 1], Now(), id);
        trace := trace + [Now()];
      }
    }

    /** While the table is in use, the slots of the batch's keys are locked. */
    ghost predicate Covers(batch: seq<Entry>, slotOf: Key -> nat)
      reads this, table, table.slots
    {
      enabled ==> AllLocked(table.slots[..], batch, slotOf)
    }

    /** The slot of an entry's key, when the table is in use. */
    method LockEntry(e: Entry, slotOf: Key -> nat, alloc: map<nat, Tracker> -> nat, locks: seq<Held>,
                     ghost ids: seq<nat>, ghost base: Handles, ghost batch: seq<Entry>)
      returns (more: seq<Held>, ghost moreIds: seq<nat>)
      requires table.Valid() && Holding(table.intents, base, locks, ids) && alloc(table.trackers) !in table.trackers
      requires Covers(batch, slotOf) && Recorded() && OnlyLocks(trace, id)
      modifies table, table.slots, this`trace
      ensures Recorded() && OnlyLocks(trace, id) && old(trace) <= trace
      ensures table.Valid() && Holding(table.intents, base, more, moreIds)
      ensures Covers(batch + [e], slotOf)
    {
      more, moreIds := locks, ids;
      if enabled { more, moreIds := LockKey(slotOf(e.key), alloc, locks, ids, base); }
    }

    method ReleaseOne(lock: Held, ghost i: nat, ghost batch: seq<Entry>, ghost slotOf: Key -> nat)
      requires table.Valid() && i in table.intents
      requires table.intents[i].slot == lock.slot && table.intents[i].addr == lock.tracker
      requires Recorded() && Passes(trace, id, enabled, batch, slotOf)
      modifies table, table.slots, this`trace
      ensures table.Valid() && table.intents == old(table.intents) - {i}
      ensures Recorded() && Passes(trace, id, enabled, batch, slotOf) && old(trace) <= trace
    {
      table.ReleaseWriteIntent(lock.slot, lock.tracker, i);
      assert Releasable(trace[|trace| - 1].table, i);
      assert ReleaseStage(trace[|trace| - 1], Now());
      PassesMore(trace, Now(), id, enabled, batch, slotOf);
      trace := trace + [Now()];
    }

    /** Releases every lock, in the order they were taken. */
    method ReleaseAll(locks: seq<Held>, ghost ids: seq<nat>, ghost base: Handles, ghost batch: seq<Entry>,
                      ghost slotOf: Key -> nat)
      requires table.Valid() && Holding(table.intents, base, locks, ids)
      requires Recorded() && Passes(trace, id, enabled, batch, slotOf)
      modifies table, table.slots, this`trace
      ensures table.Valid() && table.intents == base
      ensures Recorded() && Passes(trace, id, enabled, batch, slotOf) && old(trace) <= trace
    {
      for i := 0 to |locks|
        invariant table.Valid() && Holding(table.intents, base, locks[i..], ids[i..])
        invariant Recorded() && Passes(trace, id, enabled, batch, slotOf) && old(trace) <= trace
      {
        HoldLess(table.intents, base, locks[i..], ids[i..]);
        assert locks[i..][1..] == locks[i + 1..] && ids[i..][1..] == ids[i + 1..];
        ReleaseOne(locks[i], ids[i], batch, slotOf);
      }
      assert ids[|locks|..] == [];
    }

    /** Takes the next entry off the buffers, each read inside its bounds. */
    static method Step(keys: seq<byte>, values: seq<byte>, ko: nat, vo: nat, ghost batch: seq<Entry>,
                       ghost count: nat, ghost i: nat)
      returns (r: Walked, ko': nat, vo': nat)
      requires i < count && Partway(keys, values, ko, vo, batch, count, i)
      ensures r.Bad? ==> Walk(keys, values, 0, 0, count) == r
      ensures r.Entries? ==> |r.entries| == 1 && ko' <= |keys| && vo' <= |values|
                             && Partway(keys, values, ko', vo', batch + [r.entries[0]], count, i + 1)
    {
      ko', vo' := ko, vo;
      var k := ReadFrame(keys, ko);
      if k.Truncated? { return Bad(KeysTruncated), ko, vo; }
      if k.Overruns? { return Bad(KeyOverruns), ko, vo; }
      var v := ReadFrame(values, vo);
      if v.Truncated? { return Bad(ValuesTruncated), ko, vo; }
      if v.Overruns? { return Bad(ValueOverruns), ko, vo; }
      AfterAfter(batch, [Entry(k.bytes, v.bytes)], Walk(keys, values, k.next, v.next, count - i - 1));
      return Entries([Entry(k.bytes, v.bytes)]), k.next, v.next;
    }

    /** The loop: decode, lock, add to the batch, until done or something fails. */
    method Gather(keys: seq<byte>, values: seq<byte>, count: nat, slotOf: Key -> nat,
                  alloc: map<nat, Tracker> -> nat, rejects: nat -> bool)
      returns (status: Status, batch: seq<Entry>, locks: seq<Held>, ghost ids: seq<nat>)
      requires table.Valid() && forall m :: alloc(m) !in m
      requires Recorded() && OnlyLocks(trace, id)
      modifies table, table.slots, this`trace
      ensures Recorded() && OnlyLocks(trace, id) && old(trace) <= trace
      ensures table.Valid() && Holding(table.intents, old(table.intents), locks, ids)
      ensures status == Ok || status == PutFailed || status.Malformed?
      ensures status == Ok ==> Walk(keys, values, 0, 0, count) == Entries(batch)
      ensures status.Malformed? ==> Walk(keys, values, 0, 0, count) == Bad(status.fault)
      ensures status == PutFailed ==> exists i :: rejects(i)
      ensures status == Ok ==> Covers(batch, slotOf)
    {
      status, batch, locks, ids := Ok, [], [], [];
      var ko, vo := 0, 0;
      StartOfWalk(keys, values, count);
      for i := 0 to count
        invariant table.Valid() && Holding(table.intents, old(table.intents), locks, ids)
        invariant Partway(keys, values, ko, vo, batch, count, i)
        invariant Covers(batch, slotOf) && Recorded() && OnlyLocks(trace, id) && old(trace) <= trace
      {
        var r;
        r, ko, vo := Step(keys, values, ko, vo, batch, count, i);
        if r.Bad? { return Malformed(r.fault), batch, locks, ids; }
        locks, ids := LockEntry(r.entries[0], slotOf, alloc, locks, ids, old(table.intents), batch);
        if rejects(i) { return PutFailed, batch, locks, ids; }
        batch := batch + [r.entries[0]];
      }
      EndOfWalk(keys, values, ko, vo, batch, count);
    }

    /** The whole call. Either every entry of the buffers is written, in order, or
    nothing is; on every path exactly the locks that were taken are gone again; and
    the stages it passed through, from the first to the last, are locks, releases and
    at most the one write, made while the slot of each key of the batch is locked. */
    method PutManySync(keys: seq<byte>, values: seq<byte>, count: nat, slotOf: Key -> nat,
                       alloc: map<nat, Tracker> -> nat, rejects: nat -> bool, writeFails: bool)
      returns (status: Status)
      requires table.Valid() && forall m :: alloc(m) !in m
      modifies this, table, table.slots
      ensures table.Valid() && table.intents == old(table.intents)
      ensures status == Ok ==> Walk(keys, values, 0, 0, count).Entries?
                               && data == Applied(old(data), Walk(keys, values, 0, 0, count).entries)
      ensures status != Ok ==> data == old(data)
      ensures Recorded() && trace[0] == old(Now())
      ensures status == Ok ==> Passes(trace, id, enabled, Walk(keys, values, 0, 0, count).entries, slotOf)
      ensures (forall i :: !rejects(i)) ==>
                status == match Walk(keys, values, 0, 0, count)
                          case Bad(f) => Malformed(f)
                          case Entries(_) => if writeFails then WriteFailed else Ok
    {
      var batch, locks;
      ghost var ids;
      trace := [Now()];
      status, batch, locks, ids := Gather(keys, values, count, slotOf, alloc, rejects);
      LocksPass(trace, id, enabled, batch, slotOf);
      if status == Ok {
        if writeFails { status := WriteFailed; } else { Write(batch, slotOf); }
      }
      ReleaseAll(locks, ids, old(table.intents), batch, slotOf);
    }
  }

  /** From the entry list to the store: encoded, handed over and decoded, a batch
  that is written has the effect of putting the entries one after the other. A key
  or value whose length does not fit its word is refused before anything is sent. */
  method PutEntries(db: Database, es: seq<Entry>, slotOf: Key -> nat, alloc: map<nat, Tracker> -> nat, writeFails: bool)
    returns (status: Status)
    requires db.table.Valid() && forall m :: alloc(m) !in m
    modifies db, db.table, db.table.slots
    ensures db.table.Valid() && db.table.intents == old(db.table.intents)
    ensures status == if es == [] then Ok
                      else if !Short(Keys(es)) || !Short(Values(es)) then TooLong
                      else if writeFails then WriteFailed else Ok
    ensures db.data == if status == Ok then Applied(old(db.data), es) else old(db.data)
  {
    if |es| == 0 { return Ok; }
    var keys := PutManyFrames.Encode(Keys(es));
    var values := PutManyFrames.Encode(Values(es));
    if keys == None || values == None { return TooLong; }
    FramesRoundTrip(es);
    status := db.PutManySync(keys.value, values.value, |es|, slotOf, alloc, _ => false, writeFails);
  }
}
