/** Where freshness ends: a key that shares its slot can have a stale version
published, so being alone in the slot is exactly what the guarantee needs. */
module FreshnessLimits {
  import opened SlotWords
  import opened WriteIntents
  import opened Freshness
  import opened FreshnessProofs
  import opened FreshnessTheorems

  lemma {:induction false} Chain(cfg: Config, w: World, run: seq<Act>, mid: World, rest: seq<Act>, w': World)
    requires Reaches(cfg, w, run, mid) && Reaches(cfg, mid, rest, w')
    ensures Reaches(cfg, w, run + rest, w')
    decreases |run|
  {
    if run == [] {
      assert run + rest == rest;
    } else {
      assert (run + rest)[1..] == run[1..] + rest;
      Chain(cfg, Next(cfg, w, run[0]), run[1..], mid, rest, w');
    }
  }

  lemma One(cfg: Config, w: World, a: Act)
    requires Able(cfg, w, a)
    ensures Reaches(cfg, w, [a], Next(cfg, w, a))
  {
    assert [a][1..] == [];
  }

  lemma Extend(cfg: Config, w: World, run: seq<Act>, mid: World, a: Act)
    requires Reaches(cfg, w, run, mid) && Able(cfg, mid, a)
    ensures Reaches(cfg, w, run + [a], Next(cfg, mid, a))
  {
    One(cfg, mid, a);
    Chain(cfg, w, run, mid, [a], Next(cfg, mid, a));
  }

  predicate Calm(w: World, slot: nat) {
    w.table.section.Idle? && w.snaps == map[] && slot < |w.table.slots| && !w.table.slots[slot].Lock?
  }

  function Intents(writes: map<nat, Val>, id: nat): map<nat, nat> { map k | k in writes :: id }

  function LockRun(id: nat, slot: nat, writes: map<nat, Val>): seq<Act> {
    [TableStep(LockLoad(id, slot, 0)), TableStep(LockStore(7)), Write(writes, Intents(writes, id))]
  }

  function UnlockRun(id: nat): seq<Act> {
    [TableStep(ReleaseCount(id)), TableStep(ReleaseSettle), TableStep(ReleaseWake), TableStep(ReleaseDrop)]
  }

  lemma LockCycle(cfg: Config, w: World, id: nat, slot: nat, writes: map<nat, Val>) returns (w': World)
    requires Calm(w, slot) && w.table.intents == map[] && w.table.trackers == map[]
    requires forall k :: k in writes ==> cfg.slotOf(k) == slot
    ensures Reaches(cfg, w, LockRun(id, slot, writes), w')
    ensures w'.log == w.log + [Commit(writes)] && w'.readers == w.readers && w'.snaps == w.snaps
    ensures var t := w.table;
            w'.table == Install(t, id, slot, 0, 7).(section := Idle)
  {
    var w1 := Next(cfg, w, TableStep(LockLoad(id, slot, 0)));
    One(cfg, w, TableStep(LockLoad(id, slot, 0)));
    var w2 := Next(cfg, w1, TableStep(LockStore(7)));
    Extend(cfg, w, [TableStep(LockLoad(id, slot, 0))], w1, TableStep(LockStore(7)));
    assert w2.table == Install(w.table, id, slot, 0, 7);
    assert Covered(cfg, w2.table, writes, Intents(writes, id));
    Extend(cfg, w, [TableStep(LockLoad(id, slot, 0)), TableStep(LockStore(7))], w2, Write(writes, Intents(writes, id)));
    w' := Next(cfg, w2, Write(writes, Intents(writes, id)));
  }

  lemma UnlockCycle(cfg: Config, w: World, id: nat, slot: nat, t: Table) returns (w': World)
    requires t.section.Idle? && slot < |t.slots| && t.intents == map[] && t.trackers == map[]
    requires w.table == Install(t, id, slot, 0, 7)
    ensures Reaches(cfg, w, UnlockRun(id), w')
    ensures w'.log == w.log && w'.readers == w.readers && w'.snaps == w.snaps
    ensures w'.table.slots == t.slots[slot := Settled(t.settleGen)] && w'.table.section.Idle?
    ensures w'.table.intents == map[] && w'.table.trackers == map[]
  {
    var mid := SettleHalf(cfg, w, id, slot, t);
    w' := DropHalf(cfg, mid, slot, t);
    var count := [TableStep(ReleaseCount(id)), TableStep(ReleaseSettle)];
    var drop := [TableStep(ReleaseWake), TableStep(ReleaseDrop)];
    Chain(cfg, w, count, mid, drop, w');
    assert count + drop == UnlockRun(id);
  }

  /** The lock of `t` is settled; its tracker still waits to be woken and dropped. */
  predicate Unlocked(w: World, slot: nat, t: Table)
    requires slot < |t.slots|
  {
    var h := Handle(slot, 7, |t.homes|);
    && w.table.slots == t.slots[slot := Settled(t.settleGen)] && w.table.section == Waking(h)
    && w.table.intents == map[] && w.table.trackers.Keys == {7}
    && Live(w.table.trackers, h) && w.table.trackers[7].refcount == 1
  }

  lemma SettleHalf(cfg: Config, w: World, id: nat, slot: nat, t: Table) returns (w': World)
    requires t.section.Idle? && slot < |t.slots| && t.intents == map[] && t.trackers == map[]
    requires w.table == Install(t, id, slot, 0, 7)
    ensures Reaches(cfg, w, [TableStep(ReleaseCount(id)), TableStep(ReleaseSettle)], w')
    ensures w' == w.(table := w'.table) && Unlocked(w', slot, t)
  {
    var w1 := Next(cfg, w, TableStep(ReleaseCount(id)));
    One(cfg, w, TableStep(ReleaseCount(id)));
    assert w1.table.section == Settling(Handle(slot, 7, |t.homes|));
    w' := Next(cfg, w1, TableStep(ReleaseSettle));
    Extend(cfg, w, [TableStep(ReleaseCount(id))], w1, TableStep(ReleaseSettle));
    assert [TableStep(ReleaseCount(id))] + [TableStep(ReleaseSettle)]
        == [TableStep(ReleaseCount(id)), TableStep(ReleaseSettle)];
  }

  lemma DropHalf(cfg: Config, w: World, slot: nat, t: Table) returns (w': World)
    requires slot < |t.slots| && Unlocked(w, slot, t)
    ensures Reaches(cfg, w, [TableStep(ReleaseWake), TableStep(ReleaseDrop)], w')
    ensures w' == w.(table := w'.table) && w'.table.slots == w.table.slots && w'.table.section.Idle?
    ensures w'.table.intents == map[] && w'.table.trackers == map[]
  {
    var w1 := Next(cfg, w, TableStep(ReleaseWake));
    One(cfg, w, TableStep(ReleaseWake));
    assert w1.table.section.Dropping?;
    w' := Next(cfg, w1, TableStep(ReleaseDrop));
    assert w'.table.trackers.Keys == {};
    Extend(cfg, w, [TableStep(ReleaseWake)], w1, TableStep(ReleaseDrop));
    assert [TableStep(ReleaseWake)] + [TableStep(ReleaseDrop)] == [TableStep(ReleaseWake), TableStep(ReleaseDrop)];
  }

  lemma WriteCycle(cfg: Config, w: World, id: nat, slot: nat, writes: map<nat, Val>) returns (w': World)
    requires Calm(w, slot) && w.table.intents == map[] && w.table.trackers == map[]
    requires forall k :: k in writes ==> cfg.slotOf(k) == slot
    ensures Reaches(cfg, w, LockRun(id, slot, writes) + UnlockRun(id), w')
    ensures w'.log == w.log + [Commit(writes)] && w'.readers == w.readers
    ensures Calm(w', slot) && w'.table.slots == w.table.slots[slot := Settled(w.table.settleGen)]
    ensures w'.table.intents == map[] && w'.table.trackers == map[]
  {
    var mid := LockCycle(cfg, w, id, slot, writes);
    assert Install(w.table, id, slot, 0, 7).(section := Idle) == Install(w.table, id, slot, 0, 7);
    w' := UnlockCycle(cfg, mid, id, slot, w.table);
    Chain(cfg, w, LockRun(id, slot, writes), mid, UnlockRun(id), w');
  }

  function ReadRun(r: nat, k: nat): seq<Act> {
    [Begin(r, k, 0, true), Observe(r), Fetch(r, 0), Judge(r), GateOpen(r, 0)]
  }

  /** A reader that observed and read while the log was as it is in `w`. */
  function ReadAs(cfg: Config, w: World, k: nat, v: nat, stage: Stage): Reader
    requires cfg.slotOf(k) < |w.table.slots|
  {
    Reader(k, Newest, stage, w.table.slots[cfg.slotOf(k)], v, 0, |w.log|, |w.log|, Latest(w.log))
  }

  lemma JudgeHalf(cfg: Config, w0: World, w: World, r: nat, k: nat, v: nat) returns (w': World)
    requires Calm(w0, cfg.slotOf(k)) && w == Put(w0, r, ReadAs(cfg, w0, k, v, Fetched))
    ensures Reaches(cfg, w, [Judge(r), GateOpen(r, 0)], w')
    ensures w' == Put(w0, r, ReadAs(cfg, w0, k, v, Ready))
  {
    var w1 := Next(cfg, w, Judge(r));
    One(cfg, w, Judge(r));
    assert w1 == Put(w0, r, ReadAs(cfg, w0, k, v, Judged));
    w' := Next(cfg, w1, GateOpen(r, 0));
    Extend(cfg, w, [Judge(r)], w1, GateOpen(r, 0));
    assert [Judge(r)] + [GateOpen(r, 0)] == [Judge(r), GateOpen(r, 0)];
  }

  lemma ReadCycle(cfg: Config, w: World, r: nat, k: nat, v: nat) returns (w': World)
    requires Calm(w, cfg.slotOf(k)) && r !in w.readers && Current(w.log, k) == Present(v)
    ensures Reaches(cfg, w, ReadRun(r, k), w')
    ensures w' == Put(w, r, ReadAs(cfg, w, k, v, Ready))
  {
    var mid := FetchHalf(cfg, w, r, k, v);
    w' := JudgeHalf(cfg, w, mid, r, k, v);
    Chain(cfg, w, [Begin(r, k, 0, true), Observe(r), Fetch(r, 0)], mid, [Judge(r), GateOpen(r, 0)], w');
    assert [Begin(r, k, 0, true), Observe(r), Fetch(r, 0)] + [Judge(r), GateOpen(r, 0)] == ReadRun(r, k);
  }

  lemma FetchHalf(cfg: Config, w: World, r: nat, k: nat, v: nat) returns (w': World)
    requires Calm(w, cfg.slotOf(k)) && r !in w.readers && Current(w.log, k) == Present(v)
    ensures Reaches(cfg, w, [Begin(r, k, 0, true), Observe(r), Fetch(r, 0)], w')
    ensures w' == Put(w, r, ReadAs(cfg, w, k, v, Fetched))
  {
    var run := [Begin(r, k, 0, true), Observe(r), Fetch(r, 0)];
    var w1 := Next(cfg, w, run[0]);
    One(cfg, w, run[0]);
    var w2 := Next(cfg, w1, run[1]);
    Extend(cfg, w, run[..1], w1, run[1]);
    assert run[..1] + [run[1]] == run[..2];
    w' := Next(cfg, w2, run[2]);
    Extend(cfg, w, run[..2], w2, run[2]);
    assert run[..2] + [run[2]] == run;
  }

  /** A read with no snapshot open and no writer in its slot publishes what it read,
  whatever the slot held before. */
  lemma PublishCycle(cfg: Config, w: World, r: nat, k: nat, v: nat) returns (w': World)
    requires Calm(w, cfg.slotOf(k)) && r !in w.readers && Current(w.log, k) == Present(v)
    ensures Reaches(cfg, w, ReadRun(r, k) + [PublishCas(r)], w')
    ensures w' == w.(table := w.table.(slots := w.table.slots[cfg.slotOf(k) := Version(v)]))
  {
    var mid := ReadCycle(cfg, w, r, k, v);
    Extend(cfg, w, ReadRun(r, k), mid, PublishCas(r));
    w' := Next(cfg, mid, PublishCas(r));
    assert mid.readers - {r} == w.readers;
  }

  /** Two keys written together as 1 and 5, then `a` again as 2. */
  function First(a: nat, b: nat): Change { Commit(map[a := Present(1), b := Present(5)]) }
  function Second(a: nat): Change { Commit(map[a := Present(2)]) }

  lemma Values(a: nat, b: nat)
    requires a != b
    ensures Current([First(a, b)], a) == Present(1) && Current([First(a, b)], b) == Present(5)
    ensures Current([First(a, b), Second(a)], a) == Present(2) && Current([First(a, b), Second(a)], b) == Present(5)
    ensures NoReuse([First(a, b), Second(a)], a) && NoReuse([First(a, b), Second(a)], b)
  {
    var log := [First(a, b), Second(a)];
    assert [First(a, b)][..0] == [] && log[..1] == [First(a, b)];
    assert Latest([First(a, b)]) == 1 && Latest(log) == 2;
    ViewCommit([First(a, b)], Second(a).writes, b, 0);
    assert [First(a, b)] + [Second(a)] == log;
  }

  lemma NoWipeJoin(xs: seq<Act>, ys: seq<Act>, k: nat)
    requires NoWipe(xs, k) && NoWipe(ys, k)
    ensures NoWipe(xs + ys, k)
  {
  }

  /** Both keys are written once, and the version of `b` is published. */
  lemma OtherPublished(cfg: Config, n: nat, a: nat, b: nat) returns (run: seq<Act>, w: World)
    requires a != b && cfg.slotOf(a) == cfg.slotOf(b) < n
    ensures Reaches(cfg, Start(n), run, w) && NoWipe(run, a) && w.log == [First(a, b)] && w.readers == map[]
    ensures Calm(w, cfg.slotOf(a)) && w.table.intents == map[] && w.table.trackers == map[]
    ensures w.table.slots[cfg.slotOf(a)] == Version(5)
  {
    var slot := cfg.slotOf(a);
    Values(a, b);
    var run1 := LockRun(0, slot, First(a, b).writes) + UnlockRun(0);
    var run2 := ReadRun(0, b) + [PublishCas(0)];
    var w1 := WriteCycle(cfg, Start(n), 0, slot, First(a, b).writes);
    assert w1.log == [First(a, b)];
    w := PublishCycle(cfg, w1, 0, b, 5);
    Chain(cfg, Start(n), run1, w1, run2, w);
    NoWipeJoin(run1, run2, a);
    run := run1 + run2;
  }

  /** The reader of `a` has observed the version `b` published, and read 1. */
  lemma ReaderLags(cfg: Config, n: nat, a: nat, b: nat) returns (run: seq<Act>, w: World)
    requires a != b && cfg.slotOf(a) == cfg.slotOf(b) < n
    ensures Reaches(cfg, Start(n), run, w) && NoWipe(run, a) && w.log == [First(a, b)]
    ensures Calm(w, cfg.slotOf(a)) && w.table.intents == map[] && w.table.trackers == map[]
    ensures w.readers.Keys == {1} && w.readers[1].key == a && w.readers[1].stage == Ready
    ensures w.readers[1].observed == Version(5) && w.readers[1].version == 1
  {
    Values(a, b);
    var run1, w1 := OtherPublished(cfg, n, a, b);
    w := ReadCycle(cfg, w1, 1, a, 1);
    run := run1 + ReadRun(1, a);
    Chain(cfg, Start(n), run1, w1, ReadRun(1, a), w);
    NoWipeJoin(run1, ReadRun(1, a), a);
  }

  /** While that reader is under way, `a` is written again. */
  lemma Overtaken(cfg: Config, n: nat, a: nat, b: nat) returns (run: seq<Act>, w: World)
    requires a != b && cfg.slotOf(a) == cfg.slotOf(b) < n
    ensures Reaches(cfg, Start(n), run, w) && NoWipe(run, a) && w.log == [First(a, b), Second(a)]
    ensures Calm(w, cfg.slotOf(a)) && w.table.slots[cfg.slotOf(a)].Settled?
    ensures w.readers.Keys == {1} && w.readers[1].key == a && w.readers[1].stage == Ready
    ensures w.readers[1].observed == Version(5) && w.readers[1].version == 1
  {
    var run1, w1 := ReaderLags(cfg, n, a, b);
    var run2 := LockRun(1, cfg.slotOf(a), Second(a).writes) + UnlockRun(1);
    w := WriteCycle(cfg, w1, 1, cfg.slotOf(a), Second(a).writes);
    assert [First(a, b)] + [Second(a)] == [First(a, b), Second(a)];
    Chain(cfg, Start(n), run1, w1, run2, w);
    NoWipeJoin(run1, run2, a);
    run := run1 + run2;
  }

  /** A reader of `a` observes the version a colliding key `b` published, reads
  `a`, is overtaken by a write of `a`, and after `b` is published again swaps its
  superseded version in. No version was reused. */
  lemma CollisionPublishesStale(cfg: Config, n: nat, a: nat, b: nat) returns (run: seq<Act>, w: World, r: nat)
    requires a != b && cfg.slotOf(a) == cfg.slotOf(b) < n
    ensures Reaches(cfg, Start(n), run, w) && NoWipe(run, a) && NoReuse(w.log, a)
    ensures WillPublish(cfg, w, r) && w.readers[r].key == a
    ensures !Fresh(w, a, w.readers[r].version)
  {
    Values(a, b);
    var run1, w1 := Overtaken(cfg, n, a, b);
    var run2 := ReadRun(2, b) + [PublishCas(2)];
    w := PublishCycle(cfg, w1, 2, b, 5);
    Chain(cfg, Start(n), run1, w1, run2, w);
    NoWipeJoin(run1, run2, a);
    run, r := run1 + run2, 1;
  }

  /** With versions never reused: no run ever publishes anything but the current
  version of `k` if and only if no other key shares its slot. */
  lemma FreshExactlyWhenAlone(cfg: Config, n: nat, k: nat)
    requires cfg.slotOf(k) < n
    ensures (forall run, w, r ::
               Reaches(cfg, Start(n), run, w) && NoWipe(run, k) && NoReuse(w.log, k) && WillPublish(cfg, w, r)
               && w.readers[r].key == k ==>
                 Fresh(w, k, w.readers[r].version))
        <==> Alone(cfg, k)
  {
    if Alone(cfg, k) {
      forall run, w, r |
          Reaches(cfg, Start(n), run, w) && NoWipe(run, k) && NoReuse(w.log, k) && WillPublish(cfg, w, r)
          && w.readers[r].key == k
        ensures Fresh(w, k, w.readers[r].version)
      {
        PublishedVersionStaysCurrent(cfg, n, run, w, r, [], Next(cfg, w, PublishCas(r)));
      }
    } else {
      var other: nat :| cfg.slotOf(other) == cfg.slotOf(k) && other != k;
      var run, w, r := CollisionPublishesStale(cfg, n, k, other);
    }
  }
}
