/** The freshness guarantees of the verification table, over whole runs. */
module FreshnessTheorems {
  import opened SlotWords
  import opened WriteIntents
  import opened IntentSafety
  import opened Freshness
  import opened FreshnessProofs

  /** `v` is the one accessible version of `k`: it is current, and every open
  snapshot sees it. */
  ghost predicate Fresh(w: World, k: nat, v: nat) {
    && Current(w.log, k) == Present(v)
    && forall id :: id in w.snaps ==> View(w.log, k, w.snaps[id].seqno) == Present(v)
  }

  /** No other key hashes to the slot of `k`. */
  ghost predicate Alone(cfg: Config, k: nat) {
    forall other: nat :: cfg.slotOf(other) == cfg.slotOf(k) ==> other == k
  }

  predicate Shows(cfg: Config, w: World, k: nat, word: Word) {
    cfg.slotOf(k) < |w.table.slots| && w.table.slots[cfg.slotOf(k)] == word
  }

  /** The reader's compare-and-swap will change the slot. */
  predicate WillPublish(cfg: Config, w: World, r: nat) {
    && At(w, r, Ready)
    && !w.readers[r].observed.Lock?
    && w.readers[r].observed != Version(w.readers[r].version)
    && Shows(cfg, w, w.readers[r].key, w.readers[r].observed)
  }

  /** Versions seen in the slot of a key alone in it were committed for that key. */
  ghost predicate Known(cfg: Config, w: World, k: nat) {
    && (forall u :: Shows(cfg, w, k, Version(u)) ==> Wrote(w.log, k, u, |w.log|))
    && (forall r :: (r in w.readers && w.readers[r].key == k && !w.readers[r].stage.Begun?
                     && w.readers[r].observed.Version?) ==>
          Wrote(w.log, k, w.readers[r].observed.v, w.readers[r].since))
  }

  predicate Looked(d: Reader, c: nat) { !d.stage.Begun? && d.since < c && Cold(d.observed) }

  /** Readers that looked before position `c` can no longer publish from a cold slot. */
  ghost predicate Barred(cfg: Config, w: World, slot: nat, c: nat) {
    forall r :: r in w.readers && cfg.slotOf(w.readers[r].key) == slot && slot < |w.table.slots| ==>
      !(Looked(w.readers[r], c) && w.table.slots[slot] == w.readers[r].observed)
  }

  /** Since position `c` of the history the slot of `k` has only served current versions. */
  ghost predicate Clean(cfg: Config, w: World, k: nat, c: nat) {
    && c <= |w.log| && NotWiped(w.log, k, c)
    && Barred(cfg, w, cfg.slotOf(k), c)
    && (Alone(cfg, k) && NoReuse(w.log, k) ==> forall v :: Shows(cfg, w, k, Version(v)) ==> Fresh(w, k, v))
  }

  lemma QuietIsFresh(w: World, d: Reader)
    requires d.stage.Ready? && !d.observed.Lock? && Reads(w.log, w.snaps, d)
    requires Quiet(w.log, d.key, d.since) && NotWiped(w.log, d.key, d.since)
    ensures Fresh(w, d.key, d.version)
  {
    var upto := w.log[..d.at];
    assert upto[..d.since] == w.log[..d.since];
    ViewQuiet(upto, d.key, d.since, d.asOf);
    LatestMonotone(w.log, d.since);
    ViewQuiet(w.log, d.key, d.since, Latest(w.log));
    forall id | id in w.snaps ensures View(w.log, d.key, w.snaps[id].seqno) == Present(d.version) {
      ViewQuiet(w.log, d.key, d.since, w.snaps[id].seqno);
    }
  }

  /** With versions never reused, a slot of its own and a current version in the
  slot, a reader that observed that version has read it too. */
  lemma SameVersionRead(w: World, d: Reader, u: nat)
    requires d.stage.Ready? && d.observed == Version(u) && Reads(w.log, w.snaps, d)
    requires Current(w.log, d.key) == Present(u) && NoReuse(w.log, d.key) && Wrote(w.log, d.key, u, d.since)
    ensures d.version == u
  {
    var i := CurrentSource(w.log, d.key);
    var j :| 0 <= j < d.since && j < |w.log| && Writes(w.log[j], d.key) && w.log[j].writes[d.key] == Present(u);
    assert i == j;
    assert Quiet(w.log, d.key, d.since) && NotWiped(w.log, d.key, d.since);
    QuietIsFresh(w, d);
  }

  /** The heart of the matter: what a successful publish puts into the slot. */
  lemma PublishIsFresh(cfg: Config, w: World, r: nat, c: nat)
    requires Safe(cfg, w) && WillPublish(cfg, w, r)
    requires var k := w.readers[r].key; Clean(cfg, w, k, c) && Known(cfg, w, k)
    requires var d := w.readers[r]; Cold(d.observed) || (Alone(cfg, d.key) && NoReuse(w.log, d.key))
    ensures Fresh(w, w.readers[r].key, w.readers[r].version)
  {
    var d := w.readers[r];
    assert Reads(w.log, w.snaps, d) && Unmoved(w.table, w.log, cfg.slotOf(d.key), d);
    if Cold(d.observed) {
      QuietIsFresh(w, d);
    } else {
      SameVersionRead(w, d, d.observed.v);
    }
  }

  /** And it does put it there: the slot shows the version afterwards if and only if
  the swap takes effect or the slot showed that version already; no other slot and
  nothing in the database changes. */
  lemma PublishTakesEffect(cfg: Config, w: World, r: nat)
    requires At(w, r, Ready) && cfg.slotOf(w.readers[r].key) < |w.table.slots|
    ensures Able(cfg, w, PublishCas(r))
    ensures var w', d := Next(cfg, w, PublishCas(r)), w.readers[r];
            && (Shows(cfg, w', d.key, Version(d.version))
                <==> WillPublish(cfg, w, r) || Shows(cfg, w, d.key, Version(d.version)))
            && (!WillPublish(cfg, w, r) ==> w'.table.slots == w.table.slots)
            && |w'.table.slots| == |w.table.slots|
            && (forall i :: 0 <= i < |w.table.slots| && i != cfg.slotOf(d.key) ==>
                  w'.table.slots[i] == w.table.slots[i])
            && w'.log == w.log && w'.snaps == w.snaps && w'.readers == w.readers - {r}
  {
  }

  /** What the two gates let through, when nothing comes between their steps: with no
  snapshot open, everything; else a version not dated after the oldest snapshot, if
  that snapshot has seen the latest write. */
  lemma GatesLetThrough(cfg: Config, w: World, r: nat, oldest: nat)
    requires At(w, r, Judged) && (w.snaps == map[] || IsOldest(w.snaps, oldest))
    ensures var w1 := Next(cfg, w, GateOpen(r, oldest));
            if w.snaps == map[] then At(w1, r, Ready)
            else if cfg.dated(w.snaps[oldest].second, w.readers[r].version) then r !in w1.readers
            else
              && At(w1, r, Open)
              && var w2 := Next(cfg, w1, GateBound(r));
              && At(w2, r, Bounded) && IsOldest(w2.snaps, oldest)
              && var w3 := Next(cfg, w2, GateOldest(r, oldest));
              (At(w3, r, Ready) <==> w.snaps[oldest].seqno >= Latest(w.log)) && (r in w3.readers ==> At(w3, r, Ready))
  {
  }

  /** A reader trusts what it read exactly when it read without a snapshot or at one
  that nothing was committed after; otherwise it reads again and takes the current
  version, if there is one. */
  lemma ReaderJudgesExactly(cfg: Config, w: World, r: nat)
    ensures At(w, r, Fetched) ==>
              && Able(cfg, w, Judge(r))
              && var w', d := Next(cfg, w, Judge(r)), w.readers[r];
              && (At(w', r, Judged) <==> d.snap.Newest? || d.snap.seqno >= Latest(w.log))
              && (At(w', r, Judged) || At(w', r, Outdated)) && w'.readers[r].version == d.version
    ensures At(w, r, Outdated) ==>
              && Able(cfg, w, Refetch(r))
              && var w', v := Next(cfg, w, Refetch(r)), Current(w.log, w.readers[r].key);
              && (r in w'.readers <==> v.Present?)
              && (r in w'.readers ==> At(w', r, Judged) && Present(w'.readers[r].version) == v)
  {
  }

  /** What the environment may do at any time: delete in bulk, open and close snapshots,
  start a read of any key the table has a slot for. */
  lemma EnvironmentIsFree(cfg: Config, w: World, keys: set<nat>, id: nat, second: nat, r: nat, k: nat)
    ensures Able(cfg, w, Wipe(keys)) && Next(cfg, w, Wipe(keys)).log == w.log + [Clear(keys)]
    ensures id !in w.snaps ==>
              && Able(cfg, w, OpenSnapshot(id, second))
              && Next(cfg, w, OpenSnapshot(id, second)).snaps == w.snaps[id := Snapshot(Latest(w.log), second)]
    ensures id in w.snaps ==>
              Able(cfg, w, CloseSnapshot(id)) && Next(cfg, w, CloseSnapshot(id)).snaps == w.snaps - {id}
    ensures r !in w.readers && cfg.slotOf(k) < |w.table.slots| ==>
              && Able(cfg, w, Begin(r, k, id, true))
              && var w1 := Next(cfg, w, Begin(r, k, id, true));
              && Able(cfg, w1, Observe(r))
              && Next(cfg, w1, Observe(r)).readers[r].observed == w.table.slots[cfg.slotOf(k)]
  {
  }

  /** A committed value is current at once; a snapshot keeps seeing what it saw. */
  lemma CommitIsVisible(log: seq<Change>, writes: map<nat, Val>, k: nat, q: nat)
    requires k in writes
    ensures Current(log + [Commit(writes)], k) == writes[k]
    ensures q <= Latest(log) ==> View(log + [Commit(writes)], k, q) == View(log, k, q)
  {
    ViewCommit(log, writes, k, q);
    var log' := log + [Commit(writes)];
    assert log'[..|log'| - 1] == log;
  }

  // ---- Steps

  lemma WroteGrows(log: seq<Change>, c: Change, k: nat, v: nat, n: nat)
    requires Wrote(log, k, v, n)
    ensures Wrote(log + [c], k, v, n) && Wrote(log + [c], k, v, n + 1)
  {
    var i :| 0 <= i < n && i < |log| && Writes(log[i], k) && log[i].writes[k] == Present(v);
    assert (log + [c])[i] == log[i];
  }

  lemma ReaderWrote(w: World, d: Reader)
    requires Reads(w.log, w.snaps, d) && HasVersion(d.stage) && !d.observed.Lock?
    ensures Wrote(w.log, d.key, d.version, |w.log|)
  {
    var i := ViewSource(w.log[..d.at], d.key, d.asOf);
    assert w.log[..d.at][i] == w.log[i];
  }

  lemma KnownTable(cfg: Config, w: World, t': Table, k: nat)
    requires Moves(w.table, t') && Known(cfg, w, k)
    ensures Known(cfg, w.(table := t'), k)
  {
    forall u | Shows(cfg, w.(table := t'), k, Version(u)) ensures Shows(cfg, w, k, Version(u)) {
      assert SlotMoves(w.table, t', cfg.slotOf(k));
    }
  }

  lemma KnownPublish(cfg: Config, w: World, r: nat, k: nat)
    requires Safe(cfg, w) && Able(cfg, w, PublishCas(r)) && Alone(cfg, k) && Known(cfg, w, k)
    ensures Known(cfg, Next(cfg, w, PublishCas(r)), k)
  {
    var d := w.readers[r];
    if WillPublish(cfg, w, r) && d.key == k {
      assert Reads(w.log, w.snaps, d);
      ReaderWrote(w, d);
    }
  }

  /** The acts that change neither table nor log. */
  lemma KnownAct(cfg: Config, w: World, a: Act, k: nat)
    requires Able(cfg, w, a) && Known(cfg, w, k)
    requires !a.TableStep? && !a.PublishCas? && !a.Write? && !a.Wipe?
    ensures Known(cfg, Next(cfg, w, a), k)
  {
  }

  lemma KnownStep(cfg: Config, w: World, a: Act, k: nat)
    requires Safe(cfg, w) && Able(cfg, w, a) && Alone(cfg, k) && Known(cfg, w, k)
    ensures Known(cfg, Next(cfg, w, a), k)
  {
    if a.TableStep? { TableMoves(w.table, a.step); KnownTable(cfg, w, Do(w.table, a.step), k); }
    else if a.PublishCas? { KnownPublish(cfg, w, a.r, k); }
    else if a.Write? { KnownGrows(cfg, w, Commit(a.writes), k); }
    else if a.Wipe? { KnownGrows(cfg, w, Clear(a.keys), k); }
    else { KnownAct(cfg, w, a, k); }
  }

  lemma KnownGrows(cfg: Config, w: World, c: Change, k: nat)
    requires Known(cfg, w, k)
    ensures Known(cfg, w.(log := w.log + [c]), k)
  {
    var w' := w.(log := w.log + [c]);
    forall u | Shows(cfg, w', k, Version(u)) ensures Wrote(w'.log, k, u, |w'.log|) {
      assert Shows(cfg, w, k, Version(u));
      WroteGrows(w.log, c, k, u, |w.log|);
    }
    forall r | r in w.readers && w.readers[r].key == k && !w.readers[r].stage.Begun? && w.readers[r].observed.Version?
      ensures Wrote(w'.log, k, w.readers[r].observed.v, w.readers[r].since)
    {
      WroteGrows(w.log, c, k, w.readers[r].observed.v, w.readers[r].since);
    }
  }

  lemma BarredTable(cfg: Config, w: World, t': Table, slot: nat, c: nat)
    requires Safe(cfg, w) && Moves(w.table, t') && Barred(cfg, w, slot, c)
    ensures Barred(cfg, w.(table := t'), slot, c)
  {
    forall r | r in w.readers && cfg.slotOf(w.readers[r].key) == slot && slot < |w.table.slots|
      ensures !(Looked(w.readers[r], c) && t'.slots[slot] == w.readers[r].observed)
    {
      assert SlotMoves(w.table, t', slot);
      assert Unmoved(w.table, w.log, slot, w.readers[r]);
      assert !(Looked(w.readers[r], c) && w.table.slots[slot] == w.readers[r].observed);
    }
  }

  lemma BarredPublish(cfg: Config, w: World, r: nat, slot: nat, c: nat)
    requires Able(cfg, w, PublishCas(r)) && Safe(cfg, w) && Barred(cfg, w, slot, c)
    ensures Barred(cfg, Next(cfg, w, PublishCas(r)), slot, c)
  {
  }

  /** The acts that leave the table alone. */
  lemma BarredAct(cfg: Config, w: World, a: Act, slot: nat, c: nat)
    requires Able(cfg, w, a) && !a.TableStep? && !a.PublishCas? && Barred(cfg, w, slot, c) && c <= |w.log|
    ensures Barred(cfg, Next(cfg, w, a), slot, c)
  {
  }

  lemma BarredStep(cfg: Config, w: World, a: Act, slot: nat, c: nat)
    requires Safe(cfg, w) && Able(cfg, w, a) && Barred(cfg, w, slot, c) && c <= |w.log|
    ensures Barred(cfg, Next(cfg, w, a), slot, c)
  {
    if a.TableStep? { TableMoves(w.table, a.step); BarredTable(cfg, w, Do(w.table, a.step), slot, c); }
    else if a.PublishCas? { BarredPublish(cfg, w, a.r, slot, c); }
    else { BarredAct(cfg, w, a, slot, c); }
  }

  lemma NoReuseEarlier(log: seq<Change>, log': seq<Change>, k: nat)
    requires log <= log' && NoReuse(log', k)
    ensures NoReuse(log, k)
  {
    forall i, j | 0 <= i < j < |log| && Writes(log[i], k) && Writes(log[j], k) && log[i].writes[k].Present?
      ensures log[i].writes[k] != log[j].writes[k]
    {
      assert log'[i] == log[i] && log'[j] == log[j];
    }
  }

  predicate WipesKey(a: Act, k: nat) { a.Wipe? && k in a.keys }

  /** While the slot keeps showing a fresh version, no step makes it stale: not
  colliding readers, not other keys' commits, not snapshots opened meanwhile. */
  lemma FreshStep(cfg: Config, w: World, a: Act, k: nat, v: nat)
    requires Safe(cfg, w) && Able(cfg, w, a) && !WipesKey(a, k)
    requires Shows(cfg, w, k, Version(v)) && Fresh(w, k, v)
    ensures Fresh(Next(cfg, w, a), k, v)
  {
    var w' := Next(cfg, w, a);
    match a
    case Write(writes, holding) =>
      if k in writes { CommitIsLocked(cfg, w, writes, holding, k); assert false; }
      ViewCommit(w.log, writes, k, 0);
      forall id | id in w.snaps ensures View(w'.log, k, w.snaps[id].seqno) == Present(v) {
        ViewCommit(w.log, writes, k, w.snaps[id].seqno);
      }
    case Wipe(keys) =>
      ViewClear(w.log, keys, k, Latest(w.log));
      forall id | id in w.snaps ensures View(w'.log, k, w.snaps[id].seqno) == Present(v) {
        ViewClear(w.log, keys, k, w.snaps[id].seqno);
      }
    case _ =>
  }

  lemma ShownBefore(cfg: Config, w: World, a: Act, k: nat, v: nat)
    requires Safe(cfg, w) && Able(cfg, w, a) && Shows(cfg, Next(cfg, w, a), k, Version(v))
    ensures Shows(cfg, w, k, Version(v))
         || (a.PublishCas? && WillPublish(cfg, w, a.r) && cfg.slotOf(w.readers[a.r].key) == cfg.slotOf(k)
             && w.readers[a.r].version == v)
  {
    if a.TableStep? {
      TableMoves(w.table, a.step);
      assert SlotMoves(w.table, Next(cfg, w, a).table, cfg.slotOf(k));
    }
  }

  lemma CleanStep(cfg: Config, w: World, a: Act, k: nat, c: nat)
    requires Safe(cfg, w) && Able(cfg, w, a) && Clean(cfg, w, k, c) && !WipesKey(a, k)
    requires Alone(cfg, k) ==> Known(cfg, w, k)
    ensures Clean(cfg, Next(cfg, w, a), k, c)
  {
    var w' := Next(cfg, w, a);
    BarredStep(cfg, w, a, cfg.slotOf(k), c);
    if Alone(cfg, k) && NoReuse(w'.log, k) {
      NoReuseEarlier(w.log, w'.log, k);
      forall v | Shows(cfg, w', k, Version(v)) ensures Fresh(w', k, v) {
        ShownBefore(cfg, w, a, k, v);
        if Shows(cfg, w, k, Version(v)) {
          FreshStep(cfg, w, a, k, v);
        } else {
          PublishIsFresh(cfg, w, a.r, c);
        }
      }
    }
  }

  // ---- Whole runs

  predicate NoWipe(run: seq<Act>, k: nat) { forall i :: 0 <= i < |run| ==> !WipesKey(run[i], k) }

  lemma {:induction false} RunIsSafe(cfg: Config, w: World, run: seq<Act>, w': World)
    requires Safe(cfg, w) && Reaches(cfg, w, run, w')
    ensures Safe(cfg, w')
    decreases |run|
  {
    if run != [] {
      SafeStep(cfg, w, run[0]);
      RunIsSafe(cfg, Next(cfg, w, run[0]), run[1..], w');
    }
  }

  lemma {:induction false} RunIsKnown(cfg: Config, w: World, run: seq<Act>, w': World, k: nat)
    requires Safe(cfg, w) && Reaches(cfg, w, run, w') && Alone(cfg, k) && Known(cfg, w, k)
    ensures Known(cfg, w', k)
    decreases |run|
  {
    if run != [] {
      SafeStep(cfg, w, run[0]);
      KnownStep(cfg, w, run[0], k);
      RunIsKnown(cfg, Next(cfg, w, run[0]), run[1..], w', k);
    }
  }

  lemma {:induction false} RunIsClean(cfg: Config, w: World, run: seq<Act>, w': World, k: nat, c: nat)
    requires Safe(cfg, w) && Reaches(cfg, w, run, w') && NoWipe(run, k) && Clean(cfg, w, k, c)
    requires Alone(cfg, k) ==> Known(cfg, w, k)
    ensures Clean(cfg, w', k, c)
    decreases |run|
  {
    if run != [] {
      assert !WipesKey(run[0], k);
      SafeStep(cfg, w, run[0]);
      CleanStep(cfg, w, run[0], k, c);
      if Alone(cfg, k) { KnownStep(cfg, w, run[0], k); }
      RunIsClean(cfg, Next(cfg, w, run[0]), run[1..], w', k, c);
    }
  }

  /** The slot of `k` shows `Version(v)` before and after every step of the run. */
  predicate ShowsThroughout(cfg: Config, w: World, run: seq<Act>, w': World, k: nat, v: nat)
    decreases |run|
  {
    && Shows(cfg, w, k, Version(v))
    && if run == [] then w == w'
       else Able(cfg, w, run[0]) && ShowsThroughout(cfg, Next(cfg, w, run[0]), run[1..], w', k, v)
  }

  lemma {:induction false} FreshThroughout(cfg: Config, w: World, run: seq<Act>, w': World, k: nat, v: nat)
    requires Safe(cfg, w) && ShowsThroughout(cfg, w, run, w', k, v) && NoWipe(run, k) && Fresh(w, k, v)
    ensures Fresh(w', k, v)
    decreases |run|
  {
    if run != [] {
      assert !WipesKey(run[0], k);
      SafeStep(cfg, w, run[0]);
      FreshStep(cfg, w, run[0], k, v);
      FreshThroughout(cfg, Next(cfg, w, run[0]), run[1..], w', k, v);
    }
  }

  lemma StartClean(cfg: Config, n: nat, k: nat)
    ensures Safe(cfg, Start(n)) && Known(cfg, Start(n), k) && Clean(cfg, Start(n), k, 0)
  {
    SafeStart(cfg, n);
  }

  /** In every run without bulk deletes of the key, a publish that takes effect
  from a cold slot, or for a key alone in its slot whose versions are not reused,
  installs the key's current version, which every open snapshot sees too; and so
  it stays for as long as the slot shows it. */
  lemma PublishedVersionStaysCurrent(
      cfg: Config, n: nat, before: seq<Act>, w: World, r: nat, after: seq<Act>, w': World)
    requires Reaches(cfg, Start(n), before, w) && WillPublish(cfg, w, r)
    requires var d := w.readers[r];
             && NoWipe(before, d.key) && NoWipe(after, d.key)
             && (Cold(d.observed) || (Alone(cfg, d.key) && NoReuse(w.log, d.key)))
             && ShowsThroughout(cfg, Next(cfg, w, PublishCas(r)), after, w', d.key, d.version)
    ensures Fresh(w, w.readers[r].key, w.readers[r].version)
    ensures Fresh(w', w.readers[r].key, w.readers[r].version)
  {
    var k := w.readers[r].key;
    StartClean(cfg, n, k);
    RunIsSafe(cfg, Start(n), before, w);
    RunIsClean(cfg, Start(n), before, w, k, 0);
    if Alone(cfg, k) {
      RunIsKnown(cfg, Start(n), before, w, k);
      PublishIsFresh(cfg, w, r, 0);
    } else {
      assert Unmoved(w.table, w.log, cfg.slotOf(k), w.readers[r]) && Reads(w.log, w.snaps, w.readers[r]);
      QuietIsFresh(w, w.readers[r]);
    }
    SafeStep(cfg, w, PublishCas(r));
    FreshThroughout(cfg, Next(cfg, w, PublishCas(r)), after, w', k, w.readers[r].version);
  }

  /** In every run without bulk deletes of the key, for a key alone in its slot and
  never reused versions: whatever version the slot shows, at any moment, is the
  one current version, seen by every open snapshot. So a fast-path hit agrees
  with the caller's own snapshot. */
  lemma VerifiedVersionIsCurrent(cfg: Config, n: nat, run: seq<Act>, w: World, k: nat, v: nat)
    requires Reaches(cfg, Start(n), run, w) && NoWipe(run, k) && Alone(cfg, k) && NoReuse(w.log, k)
    requires Shows(cfg, w, k, Version(v))
    ensures Fresh(w, k, v)
  {
    StartClean(cfg, n, k);
    RunIsClean(cfg, Start(n), run, w, k, 0);
  }

  // ---- Bulk delete, then sweep

  /** At the visit the slot becomes a word that no reader of this slot has seen. */
  lemma VisitBars(cfg: Config, w: World, t': Table, k: nat, id: nat, c: nat)
    requires Safe(cfg, w) && Moves(w.table, t') && id in w.table.sweeps && c <= |w.log|
    requires w.table.sweeps[id].next <= cfg.slotOf(k) && id in t'.sweeps && t'.sweeps[id].next > cfg.slotOf(k)
    ensures Barred(cfg, w.(table := t'), cfg.slotOf(k), c)
    ensures forall v :: !Shows(cfg, w.(table := t'), k, Version(v))
  {
    var slot := cfg.slotOf(k);
    assert Advances(w.table, t', w.table.sweeps[id], t'.sweeps[id]);
    forall r | r in w.readers && cfg.slotOf(w.readers[r].key) == slot
      ensures !(Looked(w.readers[r], c) && t'.slots[slot] == w.readers[r].observed)
    {
      assert Unmoved(w.table, w.log, slot, w.readers[r]);
    }
  }

  /** The history from the sweep's beginning: the slot has only served current
  versions, unless the key was deleted again. */
  ghost predicate SweepCleans(cfg: Config, w: World, k: nat, id: nat, c: nat) {
    && id in w.table.sweeps && c <= |w.log| && NotWiped(w.log, k, c)
    && (w.table.sweeps[id].next <= cfg.slotOf(k) || Clean(cfg, w, k, c))
  }

  lemma SweepCleansStep(cfg: Config, w: World, a: Act, k: nat, id: nat, c: nat)
    requires Safe(cfg, w) && Able(cfg, w, a) && !WipesKey(a, k) && SweepCleans(cfg, w, k, id, c)
    requires Alone(cfg, k) ==> Known(cfg, w, k)
    ensures SweepCleans(cfg, Next(cfg, w, a), k, id, c)
  {
    var w' := Next(cfg, w, a);
    if a.TableStep? { TableMoves(w.table, a.step); }
    if w.table.sweeps[id].next > cfg.slotOf(k) {
      CleanStep(cfg, w, a, k, c);
    } else if w'.table.sweeps[id].next > cfg.slotOf(k) {
      assert a.TableStep?;
      VisitBars(cfg, w, w'.table, k, id, c);
    }
  }

  lemma {:induction false} RunSweepCleans(cfg: Config, w: World, run: seq<Act>, w': World, k: nat, id: nat, c: nat)
    requires Safe(cfg, w) && Reaches(cfg, w, run, w') && NoWipe(run, k) && SweepCleans(cfg, w, k, id, c)
    requires Alone(cfg, k) && Known(cfg, w, k)
    ensures SweepCleans(cfg, w', k, id, c)
    decreases |run|
  {
    if run != [] {
      assert !WipesKey(run[0], k);
      SafeStep(cfg, w, run[0]);
      SweepCleansStep(cfg, w, run[0], k, id, c);
      KnownStep(cfg, w, run[0], k);
      RunSweepCleans(cfg, Next(cfg, w, run[0]), run[1..], w', k, id, c);
    }
  }

  /** The slot shows no version committed before the delete at `j`, and nobody who
  looked before `c` can bring one back from a cold slot. */
  ghost predicate Forgotten(cfg: Config, w: World, k: nat, j: nat, c: nat) {
    && Barred(cfg, w, cfg.slotOf(k), c)
    && forall u :: Shows(cfg, w, k, Version(u)) ==> !Wrote(w.log, k, u, j)
  }

  /** A version read from before a delete was read before it. */
  lemma ReadBefore(log: seq<Change>, snaps: map<nat, Snapshot>, d: Reader, j: nat)
    requires Reads(log, snaps, d) && HasVersion(d.stage) && !d.observed.Lock? && NoReuse(log, d.key)
    requires j < |log| && Wipes(log[j], d.key) && Wrote(log, d.key, d.version, j)
    ensures d.since <= d.at <= j
  {
    var upto := log[..d.at];
    var m := ViewSource(upto, d.key, d.asOf);
    assert upto[m] == log[m];
    var i :| 0 <= i < j && Writes(log[i], d.key) && log[i].writes[d.key] == Present(d.version);
    assert m == i;
    assert forall x :: 0 <= x < |upto| ==> upto[x] == log[x];
  }

  /** No publish brings back a version from before the delete. */
  lemma ForgottenPublish(cfg: Config, w: World, r: nat, k: nat, j: nat, c: nat)
    requires Safe(cfg, w) && WillPublish(cfg, w, r) && w.readers[r].key == k && Known(cfg, w, k)
    requires j < c <= |w.log| && Wipes(w.log[j], k) && NoReuse(w.log, k) && Forgotten(cfg, w, k, j, c)
    ensures !Wrote(w.log, k, w.readers[r].version, j)
  {
    var d := w.readers[r];
    assert Reads(w.log, w.snaps, d);
    assert d.observed.Version? ==> Wrote(w.log, k, d.observed.v, d.since);
    if Wrote(w.log, k, d.version, j) {
      ReadBefore(w.log, w.snaps, d, j);
      assert false;
    }
  }

  lemma WroteStays(log: seq<Change>, log': seq<Change>, k: nat, u: nat, j: nat)
    requires log <= log' && j <= |log|
    ensures Wrote(log', k, u, j) ==> Wrote(log, k, u, j)
  {
  }

  lemma ForgottenStep(cfg: Config, w: World, a: Act, k: nat, j: nat, c: nat)
    requires Safe(cfg, w) && Able(cfg, w, a) && Alone(cfg, k) && Known(cfg, w, k)
    requires j < c <= |w.log| && Wipes(w.log[j], k) && NoReuse(w.log, k) && Forgotten(cfg, w, k, j, c)
    ensures Forgotten(cfg, Next(cfg, w, a), k, j, c)
  {
    var w' := Next(cfg, w, a);
    BarredStep(cfg, w, a, cfg.slotOf(k), c);
    forall u | Shows(cfg, w', k, Version(u)) ensures !Wrote(w'.log, k, u, j) {
      ShownBefore(cfg, w, a, k, u);
      WroteStays(w.log, w'.log, k, u, j);
      if !Shows(cfg, w, k, Version(u)) { ForgottenPublish(cfg, w, a.r, k, j, c); }
    }
  }

  /** The sweep has not come to the slot yet, or the slot has forgotten. */
  ghost predicate SweepForgets(cfg: Config, w: World, k: nat, id: nat, j: nat, c: nat) {
    && id in w.table.sweeps && j < c <= |w.log| && Wipes(w.log[j], k)
    && (w.table.sweeps[id].next <= cfg.slotOf(k) || Forgotten(cfg, w, k, j, c))
  }

  lemma SweepForgetsStep(cfg: Config, w: World, a: Act, k: nat, id: nat, j: nat, c: nat)
    requires Safe(cfg, w) && Able(cfg, w, a) && SweepForgets(cfg, w, k, id, j, c)
    requires Alone(cfg, k) && Known(cfg, w, k) && NoReuse(w.log, k)
    ensures SweepForgets(cfg, Next(cfg, w, a), k, id, j, c)
  {
    var w' := Next(cfg, w, a);
    if a.TableStep? { TableMoves(w.table, a.step); }
    if w.table.sweeps[id].next > cfg.slotOf(k) {
      ForgottenStep(cfg, w, a, k, j, c);
    } else if w'.table.sweeps[id].next > cfg.slotOf(k) {
      assert a.TableStep?;
      VisitBars(cfg, w, w'.table, k, id, c);
    }
  }

  lemma {:induction false} RunSweepForgets(
      cfg: Config, w: World, run: seq<Act>, w': World, k: nat, id: nat, j: nat, c: nat)
    requires Safe(cfg, w) && Reaches(cfg, w, run, w') && SweepForgets(cfg, w, k, id, j, c)
    requires Alone(cfg, k) && Known(cfg, w, k) && NoReuse(w'.log, k)
    ensures SweepForgets(cfg, w', k, id, j, c)
    decreases |run|
  {
    if run != [] {
      LogGrows(cfg, w, run, w');
      NoReuseEarlier(w.log, w'.log, k);
      SafeStep(cfg, w, run[0]);
      SweepForgetsStep(cfg, w, run[0], k, id, j, c);
      KnownStep(cfg, w, run[0], k);
      RunSweepForgets(cfg, Next(cfg, w, run[0]), run[1..], w', k, id, j, c);
    }
  }

  lemma {:induction false} LogGrows(cfg: Config, w: World, run: seq<Act>, w': World)
    requires Reaches(cfg, w, run, w')
    ensures w.log <= w'.log
    decreases |run|
  {
    if run != [] {
      assert w.log <= Next(cfg, w, run[0]).log;
      LogGrows(cfg, Next(cfg, w, run[0]), run[1..], w');
    }
  }

  /** In every run, once a sweep begun after a bulk delete has passed the slot (and
  so once it has returned), no version committed before that delete can verify
  for the key, whichever readers were between observing and publishing, whichever
  slots were locked and skipped, and whatever is deleted later, swept or not. As
  long as the key is not deleted again, a version the slot does show is current.
  The key is alone in its slot and its versions are not reused. */
  lemma {:induction false} SweptVersionNeverVerifies(
      cfg: Config, n: nat, before: seq<Act>, w0: World, id: nat, after: seq<Act>, w: World, k: nat, u: nat, i: nat,
      j: nat)
    requires Reaches(cfg, Start(n), before, w0) && Able(cfg, w0, TableStep(SweepStart(id)))
    requires Reaches(cfg, Next(cfg, w0, TableStep(SweepStart(id))), after, w)
    requires Alone(cfg, k) && NoReuse(w.log, k)
    requires id in w.table.sweeps && w.table.sweeps[id].next > cfg.slotOf(k)
    requires i < j < |w0.log|
    requires Writes(w0.log[i], k) && w0.log[i].writes[k] == Present(u) && Wipes(w0.log[j], k)
    ensures !Shows(cfg, w, k, Version(u))
    ensures NoWipe(after, k) ==> forall v :: Shows(cfg, w, k, Version(v)) ==> Fresh(w, k, v)
  {
    var w1 := Next(cfg, w0, TableStep(SweepStart(id)));
    StartClean(cfg, n, k);
    RunIsSafe(cfg, Start(n), before, w0);
    RunIsKnown(cfg, Start(n), before, w0, k);
    SafeStep(cfg, w0, TableStep(SweepStart(id)));
    KnownStep(cfg, w0, TableStep(SweepStart(id)), k);
    RunSweepForgets(cfg, w1, after, w, k, id, j, |w0.log|);
    LogGrows(cfg, w1, after, w);
    assert w.log[i] == w0.log[i];
    assert Wrote(w.log, k, u, j);
    if NoWipe(after, k) { RunSweepCleans(cfg, w1, after, w, k, id, |w0.log|); }
  }
}
