/** Why a published version is current. */
module FreshnessProofs {
  import opened SlotWords
  import opened WriteIntents
  import opened IntentSafety
  import opened Freshness

  // ---- Reading histories

  predicate Writes(c: Change, k: nat) { c.Commit? && k in c.writes }
  predicate Wipes(c: Change, k: nat) { c.Clear? && k in c.keys }

  /** Nobody committed `k` from position `n` on. */
  ghost predicate Quiet(log: seq<Change>, k: nat, n: nat) {
    forall i :: n <= i < |log| ==> !Writes(log[i], k)
  }

  ghost predicate NotWiped(log: seq<Change>, k: nat, n: nat) {
    forall i :: n <= i < |log| ==> !Wipes(log[i], k)
  }

  lemma {:induction false} LatestMonotone(log: seq<Change>, n: nat)
    requires n <= |log|
    ensures Latest(log[..n]) <= Latest(log)
    decreases |log|
  {
    if n < |log| {
      assert log[..|log| - 1][..n] == log[..n];
      LatestMonotone(log[..|log| - 1], n);
    } else {
      assert log[..n] == log;
    }
  }

  /** Once nothing touches a key any more, every read at a recent enough sequence
  number returns what was current at that point. */
  lemma {:induction false} ViewQuiet(log: seq<Change>, k: nat, n: nat, q: nat)
    requires n <= |log| && Quiet(log, k, n) && NotWiped(log, k, n) && q >= Latest(log[..n])
    ensures View(log, k, q) == Current(log[..n], k)
    decreases |log|
  {
    if |log| > n {
      var rest := log[..|log| - 1];
      assert rest[..n] == log[..n];
      assert !Writes(log[|log| - 1], k) && !Wipes(log[|log| - 1], k);
      ViewQuiet(rest, k, n, q);
    } else {
      assert log[..n] == log;
      ViewAbove(log, k, q);
    }
  }

  lemma {:induction false} ViewAbove(log: seq<Change>, k: nat, q: nat)
    requires q >= Latest(log)
    ensures View(log, k, q) == Current(log, k)
    decreases |log|
  {
    if log != [] {
      var rest := log[..|log| - 1];
      LatestMonotone(log, |log| - 1);
      ViewAbove(rest, k, q);
      ViewAbove(rest, k, Latest(log));
    }
  }

  /** A read below the latest sequence number does not see a commit made now. */
  lemma ViewCommit(log: seq<Change>, writes: map<nat, Val>, k: nat, q: nat)
    ensures q <= Latest(log) ==> View(log + [Commit(writes)], k, q) == View(log, k, q)
    ensures k !in writes ==> View(log + [Commit(writes)], k, q) == View(log, k, q)
    ensures Latest(log + [Commit(writes)]) == Latest(log) + 1
    ensures k !in writes ==> Current(log + [Commit(writes)], k) == Current(log, k)
  {
    var log' := log + [Commit(writes)];
    assert log'[..|log'| - 1] == log;
    if k !in writes { ViewAbove(log, k, Latest(log')); }
  }

  lemma ViewClear(log: seq<Change>, keys: set<nat>, k: nat, q: nat)
    requires k !in keys
    ensures View(log + [Clear(keys)], k, q) == View(log, k, q)
    ensures Latest(log + [Clear(keys)]) == Latest(log)
  {
    var log' := log + [Clear(keys)];
    assert log'[..|log'| - 1] == log;
  }

  /** A version was committed for `k` among the first `n` changes. */
  ghost predicate Wrote(log: seq<Change>, k: nat, v: nat, n: nat) {
    exists i :: 0 <= i < n && i < |log| && Writes(log[i], k) && log[i].writes[k] == Present(v)
  }

  /** No version is committed twice for `k`. */
  ghost predicate NoReuse(log: seq<Change>, k: nat) {
    forall i, j :: 0 <= i < j < |log| && Writes(log[i], k) && Writes(log[j], k) && log[i].writes[k].Present? ==>
      log[i].writes[k] != log[j].writes[k]
  }

  /** Where a version that a read returned comes from. */
  lemma {:induction false} ViewSource(log: seq<Change>, k: nat, q: nat) returns (i: nat)
    requires View(log, k, q).Present?
    ensures i < |log| && Writes(log[i], k) && log[i].writes[k] == View(log, k, q)
    ensures Latest(log[..i + 1]) <= q
    ensures NotWiped(log, k, i)
    ensures forall j :: i < j < |log| && Writes(log[j], k) ==> q < Latest(log[..j + 1])
    decreases |log|
  {
    var last := |log| - 1;
    var rest := log[..last];
    if Writes(log[last], k) && Latest(log) <= q {
      i := last;
      assert log[..i + 1] == log;
    } else {
      i := ViewSource(rest, k, q);
      assert rest[..i + 1] == log[..i + 1];
      forall j | i < j < |log| && Writes(log[j], k) ensures q < Latest(log[..j + 1]) {
        if j == last { assert log[..j + 1] == log; } else { assert rest[..j + 1] == log[..j + 1]; }
      }
    }
  }

  /** A current version was committed last, with no later change to the key. */
  lemma CurrentSource(log: seq<Change>, k: nat) returns (i: nat)
    requires Current(log, k).Present?
    ensures i < |log| && Writes(log[i], k) && log[i].writes[k] == Current(log, k)
    ensures Quiet(log, k, i + 1) && NotWiped(log, k, i)
  {
    i := ViewSource(log, k, Latest(log));
    forall j | i + 1 <= j < |log| ensures !Writes(log[j], k) { LatestMonotone(log, j + 1); }
  }

  // ---- What readers know

  predicate Cold(w: Word) { w.Empty? || w.Settled? }

  predicate HasVersion(s: Stage) { s.Fetched? || s.Judged? || s.Open? || s.Bounded? || s.Ready? }
  predicate IsLatest(s: Stage) { s.Judged? || s.Open? || s.Bounded? || s.Ready? }

  ghost predicate Above(snaps: map<nat, Snapshot>, q: nat) {
    forall id :: id in snaps ==> snaps[id].seqno >= q
  }

  /** A reader's version was read no earlier than its slot; past the gates every
  open snapshot is at least that recent. */
  ghost predicate Reads(log: seq<Change>, snaps: map<nat, Snapshot>, d: Reader) {
    && (!d.stage.Begun? ==> d.since <= |log|)
    && (HasVersion(d.stage) && !d.observed.Lock? ==>
          d.since <= d.at <= |log| && View(log[..d.at], d.key, d.asOf) == Present(d.version))
    && (d.stage.Fetched? && !d.observed.Lock? && d.snap.Newest? ==> d.asOf == Latest(log[..d.at]))
    && (d.stage.Fetched? && !d.observed.Lock? && d.snap.AsOf? ==> d.asOf == d.snap.seqno)
    && (IsLatest(d.stage) && !d.observed.Lock? ==> d.asOf >= Latest(log[..d.since]))
    && (d.stage.Bounded? ==> d.bound >= Latest(log[..d.since]))
    && (d.stage.Ready? ==> Above(snaps, Latest(log[..d.since])))
  }

  ghost predicate Swept(sweeps: map<nat, Sweep>, gen: nat, slot: nat) {
    forall id :: id in sweeps && sweeps[id].gen == gen ==> slot < sweeps[id].next
  }

  /** A settled value enters a slot at most once; so a slot that still shows the
  cold value a reader observed has not been locked since, and the key's value
  has not been committed since. */
  ghost predicate Unmoved(t: Table, log: seq<Change>, slot: nat, d: Reader) {
    !d.stage.Begun? ==>
      && slot < |t.slots|
      && (d.observed.Settled? ==> d.observed.gen < t.settleGen && Swept(t.sweeps, d.observed.gen, slot))
      && (Cold(d.observed) && t.slots[slot] == d.observed ==> Quiet(log, d.key, d.since))
  }

  ghost predicate Uncancelled(t: Table) {
    Inv(t) && t.cut == {} && !Cancels(t.section)
  }

  ghost predicate Snapshots(log: seq<Change>, snaps: map<nat, Snapshot>) {
    forall id :: id in snaps ==> snaps[id].seqno <= Latest(log)
  }

  ghost predicate Safe(cfg: Config, w: World) {
    && Uncancelled(w.table)
    && Snapshots(w.log, w.snaps)
    && (forall r :: r in w.readers ==> Reads(w.log, w.snaps, w.readers[r]))
    && (forall r :: r in w.readers ==> Unmoved(w.table, w.log, cfg.slotOf(w.readers[r].key), w.readers[r]))
  }

  lemma UncancelledKeeps(t: Table, a: Step)
    requires Uncancelled(t) && Can(t, a) && !a.CancelStart?
    ensures Uncancelled(Do(t, a))
  {
    StepKeeps(t, a);
    NoCancelBegins(t, a);
  }

  /** How a mutex or sweep step can change a slot. */
  ghost predicate SlotMoves(t: Table, t': Table, i: nat)
    requires i < |t.slots| == |t'.slots|
  {
    || t'.slots[i] == t.slots[i]
    || t'.slots[i].Lock?
    || (t'.slots[i] == Settled(t.settleGen) && t.settleGen < t'.settleGen)
    || (exists id :: id in t.sweeps && t.sweeps[id].next == i && t'.slots[i] == Settled(t.sweeps[id].gen))
  }

  /** A sweep stays where it is, or leaves its slot locked or settled to its own
  generation and moves on by one. */
  predicate Advances(t: Table, t': Table, w: Sweep, w': Sweep) {
    && w'.gen == w.gen
    && (w'.next == w.next
        || (w'.next == w.next + 1 && w.next < |t'.slots|
            && (t'.slots[w.next].Lock? || t'.slots[w.next] == Settled(w.gen))))
  }

  ghost predicate SweepsMove(t: Table, t': Table) {
    && (forall id :: id in t.sweeps ==> id in t'.sweeps && Advances(t, t', t.sweeps[id], t'.sweeps[id]))
    && (forall id :: id in t'.sweeps && id !in t.sweeps ==> t'.sweeps[id].gen == t.settleGen)
  }

  ghost predicate Moves(t: Table, t': Table) {
    && |t'.slots| == |t.slots| && t'.settleGen >= t.settleGen && SweepsMove(t, t')
    && forall i :: 0 <= i < |t.slots| ==> SlotMoves(t, t', i)
  }

  lemma StillMoves(t: Table, t': Table)
    requires t'.slots == t.slots && t'.sweeps == t.sweeps && t'.settleGen == t.settleGen
    ensures Moves(t, t')
  {
  }

  lemma CountStill(t: Table, a: Step)
    requires Can(t, a) && (a.LockLoad? || a.ReleaseCount? || a.ReleaseWake? || a.ReleaseDrop? || a.TakeRef?
                           || a.DropRef? || a.AddWake?)
    ensures var t' := Do(t, a); t'.slots == t.slots && t'.sweeps == t.sweeps && t'.settleGen == t.settleGen
  {
  }

  lemma LockStoreMoves(t: Table, addr: nat)
    requires t.section.Locking?
    ensures Moves(t, StoreLock(t, addr))
  {
  }

  lemma ReleaseSettleMoves(t: Table)
    requires t.section.Settling?
    ensures Moves(t, SettleOut(t, t.section.h))
  {
  }

  lemma SweepStartMoves(t: Table, id: nat)
    requires id !in t.sweeps
    ensures Moves(t, Mint(t, id))
  {
  }

  lemma SweepLoadMoves(t: Table, id: nat)
    requires id in t.sweeps && t.sweeps[id].next < |t.slots|
    ensures Moves(t, LoadSwept(t, id, t.sweeps[id]))
  {
  }

  lemma SweepCasMoves(t: Table, id: nat)
    requires id in t.sweeps && t.sweeps[id].next < |t.slots|
    ensures Moves(t, CasSwept(t, id, t.sweeps[id]))
  {
  }

  lemma TableMoves(t: Table, a: Step)
    requires !Cancels(t.section) && Can(t, a) && !a.Populate? && !a.CancelStart?
    ensures Moves(t, Do(t, a))
  {
    if a.LockStore? { LockStoreMoves(t, a.addr); }
    else if a.ReleaseSettle? { ReleaseSettleMoves(t); }
    else if a.SweepStart? { SweepStartMoves(t, a.id); }
    else if a.SweepLoad? { SweepLoadMoves(t, a.id); }
    else if a.SweepCas? { SweepCasMoves(t, a.id); }
    else { CountStill(t, a); StillMoves(t, Do(t, a)); }
  }

  // ---- Every step is safe

  lemma UnmovedTable(t: Table, t': Table, log: seq<Change>, slot: nat, d: Reader)
    requires Moves(t, t') && Unmoved(t, log, slot, d)
    ensures Unmoved(t', log, slot, d)
  {
    if !d.stage.Begun? {
      assert SlotMoves(t, t', slot);
      if d.observed.Settled? {
        assert Swept(t.sweeps, d.observed.gen, slot);
        assert SweepsMove(t, t');
      }
    }
  }

  lemma TableKeeps(cfg: Config, w: World, a: Step)
    requires Safe(cfg, w) && Able(cfg, w, TableStep(a))
    ensures Safe(cfg, Next(cfg, w, TableStep(a)))
  {
    var w' := Next(cfg, w, TableStep(a));
    UncancelledKeeps(w.table, a);
    TableMoves(w.table, a);
    forall r | r in w'.readers
      ensures Unmoved(w'.table, w'.log, cfg.slotOf(w'.readers[r].key), w'.readers[r])
    {
      UnmovedTable(w.table, w'.table, w.log, cfg.slotOf(w.readers[r].key), w.readers[r]);
    }
  }

  lemma PublishKeepsSafe(cfg: Config, w: World, r: nat)
    requires Safe(cfg, w) && Able(cfg, w, PublishCas(r))
    ensures Safe(cfg, Next(cfg, w, PublishCas(r)))
  {
    var w' := Next(cfg, w, PublishCas(r));
    var d := w.readers[r];
    PublishKeeps(w.table, cfg.slotOf(d.key), d.observed, d.version);
    forall o | o in w'.readers
      ensures Unmoved(w'.table, w'.log, cfg.slotOf(w'.readers[o].key), w'.readers[o])
    {
      assert Unmoved(w.table, w.log, cfg.slotOf(w.readers[o].key), w.readers[o]);
    }
  }

  lemma ReadsGrows(log: seq<Change>, c: Change, snaps: map<nat, Snapshot>, d: Reader)
    requires Reads(log, snaps, d)
    ensures Reads(log + [c], snaps, d)
  {
    var log' := log + [c];
    if !d.stage.Begun? {
      assert log'[..d.since] == log[..d.since];
      if HasVersion(d.stage) && !d.observed.Lock? { assert log'[..d.at] == log[..d.at]; }
    }
  }

  /** The slot of a key being committed is locked. */
  lemma CommitIsLocked(cfg: Config, w: World, writes: map<nat, Val>, holding: map<nat, nat>, k: nat)
    requires Safe(cfg, w) && Covered(cfg, w.table, writes, holding) && k in writes
    ensures cfg.slotOf(k) < |w.table.slots| && w.table.slots[cfg.slotOf(k)].Lock?
  {
    assert Holds(w.table, Guards);
  }

  lemma WriteKeeps(cfg: Config, w: World, writes: map<nat, Val>, holding: map<nat, nat>)
    requires Safe(cfg, w) && Able(cfg, w, Write(writes, holding))
    ensures Safe(cfg, Next(cfg, w, Write(writes, holding)))
  {
    var w' := Next(cfg, w, Write(writes, holding));
    ViewCommit(w.log, writes, 0, 0);
    forall r | r in w'.readers
      ensures Reads(w'.log, w'.snaps, w'.readers[r])
      ensures Unmoved(w'.table, w'.log, cfg.slotOf(w'.readers[r].key), w'.readers[r])
    {
      var d := w.readers[r];
      ReadsGrows(w.log, Commit(writes), w.snaps, d);
      assert Unmoved(w.table, w.log, cfg.slotOf(d.key), d);
      if d.key in writes { CommitIsLocked(cfg, w, writes, holding, d.key); }
    }
  }

  lemma WipeKeeps(cfg: Config, w: World, keys: set<nat>)
    requires Safe(cfg, w)
    ensures Safe(cfg, Next(cfg, w, Wipe(keys)))
  {
    var w' := Next(cfg, w, Wipe(keys));
    assert w'.log[..|w'.log| - 1] == w.log;
    forall r | r in w'.readers
      ensures Reads(w'.log, w'.snaps, w'.readers[r])
      ensures Unmoved(w'.table, w'.log, cfg.slotOf(w'.readers[r].key), w'.readers[r])
    {
      var d := w.readers[r];
      ReadsGrows(w.log, Clear(keys), w.snaps, d);
      assert Unmoved(w.table, w.log, cfg.slotOf(d.key), d);
    }
  }

  lemma SnapshotKeeps(cfg: Config, w: World, a: Act)
    requires Safe(cfg, w) && Able(cfg, w, a) && (a.OpenSnapshot? || a.CloseSnapshot?)
    ensures Safe(cfg, Next(cfg, w, a))
  {
    var w' := Next(cfg, w, a);
    forall r | r in w'.readers ensures Reads(w'.log, w'.snaps, w'.readers[r]) {
      var d := w.readers[r];
      assert Reads(w.log, w.snaps, d);
      if !d.stage.Begun? { LatestMonotone(w.log, d.since); }
    }
  }

  /** A step of one reader: it is enough to look at that reader. */
  lemma ReaderKeeps(cfg: Config, w: World, r: nat, d: Reader)
    requires Safe(cfg, w)
    requires Reads(w.log, w.snaps, d) && Unmoved(w.table, w.log, cfg.slotOf(d.key), d)
    ensures Safe(cfg, Put(w, r, d))
  {
  }

  lemma FetchKeeps(cfg: Config, w: World, a: Act)
    requires Safe(cfg, w) && Able(cfg, w, a) && (a.Fetch? || a.Refetch? || a.Judge?)
    ensures Safe(cfg, Next(cfg, w, a))
  {
    var w' := Next(cfg, w, a);
    if a.r in w'.readers {
      var d := w.readers[a.r];
      assert Reads(w.log, w.snaps, d) && Unmoved(w.table, w.log, cfg.slotOf(d.key), d);
      assert w.log[..|w.log|] == w.log;
      LatestMonotone(w.log, d.since);
      if a.Judge? && !d.observed.Lock? {
        assert w.log[..d.at][..d.since] == w.log[..d.since];
        LatestMonotone(w.log[..d.at], d.since);
      }
      ReaderKeeps(cfg, w, a.r, w'.readers[a.r]);
    }
  }

  lemma GateKeeps(cfg: Config, w: World, a: Act)
    requires Safe(cfg, w) && Able(cfg, w, a) && (a.GateOpen? || a.GateBound? || a.GateOldest?)
    ensures Safe(cfg, Next(cfg, w, a))
  {
    var w' := Next(cfg, w, a);
    if a.r in w'.readers {
      var d := w.readers[a.r];
      assert Reads(w.log, w.snaps, d) && Unmoved(w.table, w.log, cfg.slotOf(d.key), d);
      LatestMonotone(w.log, d.since);
      ReaderKeeps(cfg, w, a.r, w'.readers[a.r]);
    }
  }

  lemma ObserveKeeps(cfg: Config, w: World, r: nat)
    requires Safe(cfg, w) && Able(cfg, w, Observe(r))
    ensures Safe(cfg, Next(cfg, w, Observe(r)))
  {
    var d := Next(cfg, w, Observe(r)).readers[r];
    var slot := cfg.slotOf(d.key);
    assert Holds(w.table, Mints);
    if d.observed.Settled? {
      forall id | id in w.table.sweeps && w.table.sweeps[id].gen == d.observed.gen
        ensures slot < w.table.sweeps[id].next
      {
        assert Unvisited(w.table.slots, w.table.sweeps[id]);
      }
    }
    ReaderKeeps(cfg, w, r, d);
  }

  lemma SafeStep(cfg: Config, w: World, a: Act)
    requires Safe(cfg, w) && Able(cfg, w, a)
    ensures Safe(cfg, Next(cfg, w, a))
  {
    match a
    case TableStep(step) => TableKeeps(cfg, w, step);
    case Begin(r, key, snap, newest) => ReaderKeeps(cfg, w, r, Next(cfg, w, a).readers[r]);
    case Observe(r) => ObserveKeeps(cfg, w, r);
    case PublishCas(r) => PublishKeepsSafe(cfg, w, r);
    case Write(writes, holding) => WriteKeeps(cfg, w, writes, holding);
    case Wipe(keys) => WipeKeeps(cfg, w, keys);
    case OpenSnapshot(id, second) => SnapshotKeeps(cfg, w, a);
    case CloseSnapshot(id) => SnapshotKeeps(cfg, w, a);
    case Quit(r) =>
    case Fetch(r, guess) => FetchKeeps(cfg, w, a);
    case Judge(r) => FetchKeeps(cfg, w, a);
    case Refetch(r) => FetchKeeps(cfg, w, a);
    case _ => GateKeeps(cfg, w, a);
  }

  lemma SafeStart(cfg: Config, n: nat)
    ensures Safe(cfg, Start(n))
  {
    InitialHolds(n);
  }
}
