/** The transaction-log snapshot of a backup directory: every collected entry is
written below a staging directory, which a rename then publishes. The process or
the machine may stop after any step. */
module LogSnapshot {
  import opened Wrappers
  import opened Bytes

  datatype Path = Path(store: seq<char>, name: seq<char>)
  type Dir = map<Path, seq<byte>>

  /** A collected entry: contents captured inline, or the first `limit` bytes of a
  source file. `disk` is what that file holds; a rotated file holds no more. */
  datatype Source = Source(path: Path, inlined: seq<byte>, immutable: bool, disk: seq<byte>, limit: nat)

  predicate Collected(es: seq<Source>) {
    && (forall i, j :: 0 <= i < j < |es| ==> es[i].path != es[j].path)
    && (forall i :: 0 <= i < |es| && es[i].immutable ==> es[i].limit == |es[i].disk|)
  }

  function Wanted(e: Source): seq<byte> {
    if e.inlined != [] then e.inlined else if e.limit <= |e.disk| then e.disk[..e.limit] else e.disk
  }

  /** How many bytes the writer means to write. */
  function Goal(e: Source): nat { if e.inlined != [] then |e.inlined| else e.limit }

  datatype Phase =
    | Next(i: nat)             // about to start entry `i`
    | Writing(i: nat, n: nat)  // its destination holds the first `n` bytes
    | Written(i: nat)          // whole, perhaps not synced
    | Failed(i: nat)           // the copy failed, the source is to be looked for
    | Syncing                  // every entry handled, directories to be synced
    | Renamed                  // published, the parent to be synced
    | Done | Aborting | Aborted

  datatype State = State(
    phase: Phase,
    staging: Dir,
    final: Option<Dir>,
    syncedFiles: set<Path>,
    syncedDirs: set<seq<char>>,
    syncedBase: bool,
    syncedParent: bool,
    purged: set<nat>,          // entries whose source is gone
    unsure: set<nat>,          // entries whose existence test itself failed
    skipped: set<nat>,
    stuck: set<Path>)          // partial files that could not be removed

  function Initial(): State { State(Next(0), map[], None, {}, {}, false, false, {}, {}, {}, {}) }

  datatype Step =
    | Purge(j: nat)                  // retention unlinks a source
    | Create | Link | Write(k: nat) | Finish
    | Fail                           // opening, reading, writing, syncing or renaming fails
    | Skip(statFails: bool, removes: bool)
    | GiveUp                         // the source is still there, or no directory could be made
    | SyncFile | EndEntries | SyncDir(store: seq<char>) | SyncBase | Rename | SyncParent | Cleanup

  predicate Can(es: seq<Source>, sync: bool, s: State, a: Step) {
    var p := s.phase;
    match a
    case Purge(j) => j < |es| && es[j].inlined == []
    case Create => p.Next? && p.i < |es| && (es[p.i].inlined == [] ==> p.i !in s.purged)
    case Link => p.Next? && p.i < |es| && es[p.i].inlined == [] && es[p.i].immutable && p.i !in s.purged
    case Write(k) => p.Writing? && p.i < |es| && 0 < k && p.n + k <= Goal(es[p.i]) && p.n + k <= |Wanted(es[p.i])|
    case Finish => p.Writing? && p.i < |es| && p.n == Goal(es[p.i])
    case Fail => (p.Next? && p.i < |es|) || p.Writing? || p.Written? || p.Syncing? || p.Renamed?
    case Skip(statFails, removes) => p.Failed? && (p.i in s.purged || statFails)
    case GiveUp => (p.Failed? && p.i !in s.purged) || (p.Next? && p.i < |es|)
    case SyncFile => p.Written?
    case EndEntries => p.Next? && p.i == |es| && |es| > 0
    case SyncDir(store) => p.Syncing? && sync
    case SyncBase => p.Syncing? && sync && forall e <- es :: e.path.store in s.syncedDirs
    case Rename => p.Syncing? && (sync ==> s.syncedBase)
    case SyncParent => p.Renamed?
    case Cleanup => p.Aborting?
  }

  /** A failure while an entry is copied is looked into; any other aborts. */
  function Broken(es: seq<Source>, p: Phase): Phase {
    if (p.Next? || p.Writing?) && p.i < |es| && es[p.i].inlined == [] then Failed(p.i) else Aborting
  }

  function Do(es: seq<Source>, sync: bool, s: State, a: Step): State
    requires Can(es, sync, s, a)
  {
    var p := s.phase;
    match a
    case Purge(j) => s.(purged := s.purged + {j})
    case Create => s.(phase := Writing(p.i, 0), staging := s.staging[es[p.i].path := []])
    case Link => s.(phase := Written(p.i), staging := s.staging[es[p.i].path := es[p.i].disk])
    case Write(k) =>
      s.(phase := Writing(p.i, p.n + k), staging := s.staging[es[p.i].path := Wanted(es[p.i])[..p.n + k]])
    case Finish => s.(phase := Written(p.i))
    case Fail => s.(phase := Broken(es, p))
    case Skip(statFails, removes) => Skipped(es, s, p.i, removes)
    case GiveUp => s.(phase := Aborting)
    case SyncFile =>
      s.(phase := Next(p.i + 1),
         syncedFiles := if sync && p.i < |es| then s.syncedFiles + {es[p.i].path} else s.syncedFiles)
    case EndEntries => s.(phase := Syncing)
    case SyncDir(store) => s.(syncedDirs := s.syncedDirs + {store})
    case SyncBase => s.(syncedBase := true)
    case Rename => s.(phase := Renamed, final := Some(s.staging), staging := map[])
    case SyncParent => s.(phase := Done, syncedParent := sync)
    case Cleanup => s.(phase := Aborted, staging := map[])
  }

  /** A purged entry is left out, and its partial destination removed if it can be. */
  function Skipped(es: seq<Source>, s: State, i: nat, removes: bool): State {
    if i >= |es| then s
    else
      s.(phase := Next(i + 1),
         staging := if removes then s.staging - {es[i].path} else s.staging,
         stuck := if removes then s.stuck else s.stuck + {es[i].path},
         unsure := if i in s.purged then s.unsure else s.unsure + {i},
         skipped := s.skipped + {i})
  }

  // ---- Runs

  predicate Runs(es: seq<Source>, sync: bool, s: State, steps: seq<Step>)
    decreases |steps|
  {
    steps == [] || (Can(es, sync, s, steps[0]) && Runs(es, sync, Do(es, sync, s, steps[0]), steps[1..]))
  }

  function After(es: seq<Source>, sync: bool, s: State, steps: seq<Step>): State
    requires Runs(es, sync, s, steps)
    decreases |steps|
  {
    if steps == [] then s else After(es, sync, Do(es, sync, s, steps[0]), steps[1..])
  }

  // ---- What a snapshot must hold

  /** Every entry that was not skipped, in full, and nothing else but what is left
  of skipped entries that could not be removed. */
  ghost predicate Complete(es: seq<Source>, dir: Dir, skipped: set<nat>, stuck: set<Path>) {
    && (forall i :: 0 <= i < |es| && i !in skipped ==> es[i].path in dir && dir[es[i].path] == Wanted(es[i]))
    && (forall p :: p in dir && p !in stuck ==> exists i :: 0 <= i < |es| && i !in skipped && es[i].path == p)
  }

  /** The first `n` entries are handled: in full, and synced if asked, or skipped. */
  ghost predicate Handled(es: seq<Source>, sync: bool, s: State, n: nat) {
    && (forall i :: 0 <= i < n && i < |es| && i !in s.skipped ==>
          && es[i].path in s.staging && s.staging[es[i].path] == Wanted(es[i])
          && Goal(es[i]) == |Wanted(es[i])|
          && (sync ==> es[i].path in s.syncedFiles))
    && (forall i :: i in s.skipped ==> i < n)
  }

  /** Nothing is staged but handled entries, what could not be removed, and the
  entry being written. */
  ghost predicate OnlyThese(es: seq<Source>, s: State, n: nat, open: bool) {
    forall p :: p in s.staging && p !in s.stuck ==>
      exists i :: 0 <= i < |es| && es[i].path == p && ((i < n && i !in s.skipped) || (open && i == n))
  }

  predicate Open(p: Phase) { p.Writing? || p.Written? || p.Failed? }

  predicate Copying(p: Phase) { p.Next? || Open(p) }

  /** The destination of the entry at hand holds what has been written so far. */
  predicate AtHand(es: seq<Source>, staging: Dir, p: Phase) {
    match p
    case Next(i) => i <= |es|
    case Failed(i) => i < |es|
    case Writing(i, n) =>
      i < |es| && n <= |Wanted(es[i])| && es[i].path in staging && staging[es[i].path] == Wanted(es[i])[..n]
    case Written(i) =>
      i < |es| && Goal(es[i]) == |Wanted(es[i])| && es[i].path in staging && staging[es[i].path] == Wanted(es[i])
    case _ => true
  }

  predicate StoresSynced(es: seq<Source>, dirs: set<seq<char>>) {
    forall i :: 0 <= i < |es| ==> es[i].path.store in dirs
  }

  /** Everything below the published directory has reached the disk. */
  predicate Durable(es: seq<Source>, s: State) {
    && s.syncedBase && StoresSynced(es, s.syncedDirs)
    && forall i :: 0 <= i < |es| && i !in s.skipped ==> es[i].path in s.syncedFiles
  }

  ghost predicate Staged(es: seq<Source>, sync: bool, s: State) {
    && AtHand(es, s.staging, s.phase)
    && (Copying(s.phase) ==> Handled(es, sync, s, s.phase.i) && OnlyThese(es, s, s.phase.i, Open(s.phase)))
    && (s.phase.Syncing? ==> Handled(es, sync, s, |es|) && OnlyThese(es, s, |es|, false))
    && (s.syncedBase ==> StoresSynced(es, s.syncedDirs))
  }

  ghost predicate Published(es: seq<Source>, sync: bool, s: State) {
    && (s.phase.Renamed? || s.phase.Done? ==> s.final.Some?)
    && (s.final.Some? ==>
          && !Copying(s.phase) && !s.phase.Syncing?
          && Complete(es, s.final.value, s.skipped, s.stuck) && (sync ==> Durable(es, s)))
    && (s.phase.Done? && sync ==> s.syncedParent)
  }

  ghost predicate Inv(es: seq<Source>, sync: bool, s: State) {
    s.skipped <= s.purged + s.unsure && Staged(es, sync, s) && Published(es, sync, s)
  }

  lemma CreateKeeps(es: seq<Source>, sync: bool, s: State, a: Step)
    requires Collected(es) && Inv(es, sync, s) && (a.Create? || a.Link?) && Can(es, sync, s, a)
    ensures Inv(es, sync, Do(es, sync, s, a))
  {
    var i := s.phase.i;
    var s' := Do(es, sync, s, a);
    assert forall j :: 0 <= j < i ==> es[j].path != es[i].path;
    assert a.Link? ==> es[i].disk == Wanted(es[i]);
    assert Handled(es, sync, s', i);
    assert OnlyThese(es, s', i, true);
  }

  lemma WriteKeeps(es: seq<Source>, sync: bool, s: State, a: Step)
    requires Collected(es) && Inv(es, sync, s) && (a.Write? || a.Finish?) && Can(es, sync, s, a)
    ensures Inv(es, sync, Do(es, sync, s, a))
  {
    var i := s.phase.i;
    var s' := Do(es, sync, s, a);
    assert forall j :: 0 <= j < i ==> es[j].path != es[i].path;
    if a.Finish? { assert Wanted(es[i])[..s.phase.n] == Wanted(es[i]); }
    assert Handled(es, sync, s', i);
    assert OnlyThese(es, s', i, true);
  }

  lemma SkipKeeps(es: seq<Source>, sync: bool, s: State, a: Step)
    requires Collected(es) && Inv(es, sync, s) && a.Skip? && Can(es, sync, s, a)
    ensures Inv(es, sync, Do(es, sync, s, a))
  {
    var i := s.phase.i;
    var s' := Do(es, sync, s, a);
    assert forall j :: 0 <= j < i ==> es[j].path != es[i].path;
    assert Handled(es, sync, s', i + 1);
    assert OnlyThese(es, s', i + 1, false);
  }

  lemma SyncFileKeeps(es: seq<Source>, sync: bool, s: State)
    requires Inv(es, sync, s) && Can(es, sync, s, SyncFile)
    ensures Inv(es, sync, Do(es, sync, s, SyncFile))
  {
    var i := s.phase.i;
    var s' := Do(es, sync, s, SyncFile);
    assert Handled(es, sync, s', i + 1);
    assert OnlyThese(es, s', i + 1, false);
  }

  lemma RenameKeeps(es: seq<Source>, sync: bool, s: State)
    requires Inv(es, sync, s) && Can(es, sync, s, Rename)
    ensures Inv(es, sync, Do(es, sync, s, Rename))
  {
    assert Complete(es, s.staging, s.skipped, s.stuck);
  }

  lemma PlainKeeps(es: seq<Source>, sync: bool, s: State, a: Step)
    requires Inv(es, sync, s) && Can(es, sync, s, a)
    requires !a.Create? && !a.Link? && !a.Write? && !a.Finish? && !a.Skip? && !a.SyncFile? && !a.Rename?
    ensures Inv(es, sync, Do(es, sync, s, a))
  {
    var s' := Do(es, sync, s, a);
    if Copying(s'.phase) {
      assert Handled(es, sync, s', s'.phase.i);
      assert OnlyThese(es, s', s'.phase.i, Open(s'.phase));
    }
  }

  lemma {:induction false} StepKeeps(es: seq<Source>, sync: bool, s: State, a: Step)
    requires Collected(es) && Inv(es, sync, s) && Can(es, sync, s, a)
    ensures Inv(es, sync, Do(es, sync, s, a))
  {
    match a
    case Create => CreateKeeps(es, sync, s, a);
    case Link => CreateKeeps(es, sync, s, a);
    case Write(_) => WriteKeeps(es, sync, s, a);
    case Finish => WriteKeeps(es, sync, s, a);
    case Skip(_, _) => SkipKeeps(es, sync, s, a);
    case SyncFile => SyncFileKeeps(es, sync, s);
    case Rename => RenameKeeps(es, sync, s);
    case _ => PlainKeeps(es, sync, s, a);
  }

  lemma {:induction false} RunKeeps(es: seq<Source>, sync: bool, s: State, steps: seq<Step>)
    requires Collected(es) && Inv(es, sync, s) && Runs(es, sync, s, steps)
    ensures Inv(es, sync, After(es, sync, s, steps))
    decreases |steps|
  {
    if steps != [] {
      StepKeeps(es, sync, s, steps[0]);
      RunKeeps(es, sync, Do(es, sync, s, steps[0]), steps[1..]);
    }
  }

  // ---- Crashes

  /** If the process stops after any run, the final directory is absent or holds
  every collected entry in full, but for entries skipped because their source was
  gone or could not be looked for; and a run that reports success has published. */
  lemma CrashLeavesAllOrNothing(es: seq<Source>, sync: bool, steps: seq<Step>)
    requires Collected(es) && Runs(es, sync, Initial(), steps)
    ensures var s := After(es, sync, Initial(), steps);
            && (s.final.Some? ==> Complete(es, s.final.value, s.skipped, s.stuck))
            && s.skipped <= s.purged + s.unsure
            && (s.phase.Done? ==> s.final.Some?)
  {
    assert Inv(es, sync, Initial());
    RunKeeps(es, sync, Initial(), steps);
  }

  /** What may be found below the published name after the machine lost power: a
  file that was synced has its contents, a directory that was synced has exactly
  its entries, and nothing else is certain. */
  ghost predicate Image(es: seq<Source>, s: State, dir: Dir, found: Dir) {
    && (forall p :: p in found ==> exists i :: 0 <= i < |es| && es[i].path.store == p.store)
    && (forall p :: p in found && s.syncedBase && p.store in s.syncedDirs ==> p in dir)
    && (forall p :: p in dir && s.syncedBase && p.store in s.syncedDirs ==> p in found)
    && (forall p :: p in found && p in dir && p in s.syncedFiles ==> found[p] == dir[p])
  }

  /** What may be found at the final path: until its parent, the root of all log
  snapshots, is synced, the rename may be lost; and if the root's own entry is not
  durable, as when this snapshot was the first to need it, the root may be lost with
  all it holds, because the directory above it is never synced. */
  ghost predicate Survives(es: seq<Source>, s: State, rootDurable: bool, found: Option<Dir>) {
    match found
    case None => s.final == None || !s.syncedParent || !rootDurable
    case Some(dir) => s.final.Some? && Image(es, s, s.final.value, dir)
  }

  /** With syncing on, even a power failure after any step leaves all or nothing. */
  lemma PowerLossLeavesAllOrNothing(es: seq<Source>, steps: seq<Step>, rootDurable: bool, found: Option<Dir>)
    requires Collected(es) && Runs(es, true, Initial(), steps)
    requires Survives(es, After(es, true, Initial(), steps), rootDurable, found)
    ensures var s := After(es, true, Initial(), steps);
            found.Some? ==> Complete(es, found.value, s.skipped, s.stuck)
  {
    assert Inv(es, true, Initial());
    RunKeeps(es, true, Initial(), steps);
    var s := After(es, true, Initial(), steps);
    if found.Some? { ImageIsComplete(es, s, s.final.value, found.value); }
  }

  /** After a reported success the snapshot is certain to survive a power failure if
  and only if the root's own entry was durable. */
  lemma SuccessSurvivesExactlyWhenRootDurable(es: seq<Source>, steps: seq<Step>, rootDurable: bool)
    requires Collected(es) && Runs(es, true, Initial(), steps) && After(es, true, Initial(), steps).phase.Done?
    ensures (forall found :: Survives(es, After(es, true, Initial(), steps), rootDurable, found) ==> found.Some?)
            <==> rootDurable
  {
    assert Inv(es, true, Initial());
    RunKeeps(es, true, Initial(), steps);
    if !rootDurable { assert Survives(es, After(es, true, Initial(), steps), rootDurable, None); }
  }

  lemma {:induction false} FirstStep(es: seq<Source>, sync: bool, s: State, a: Step, rest: seq<Step>)
    requires Can(es, sync, s, a) && Runs(es, sync, Do(es, sync, s, a), rest)
    ensures Runs(es, sync, s, [a] + rest)
    ensures After(es, sync, s, [a] + rest) == After(es, sync, Do(es, sync, s, a), rest)
  {
    assert ([a] + rest)[1..] == rest;
  }

  /** From the last entry on: directories, rename, parent. */
  lemma {:induction false} PublishRun(es: seq<Source>, sync: bool, s: State) returns (steps: seq<Step>)
    requires es != [] && s.phase == Next(|es|)
    ensures Runs(es, sync, s, steps) && var r := After(es, sync, s, steps); r.phase.Done? && r.skipped == s.skipped
  {
    var s1 := Do(es, sync, s, EndEntries);
    var s2, before := s1, [];
    if sync { before, s2 := DirsRun(es, s1, |es|); }
    var s3 := if sync then Do(es, sync, s2, SyncBase) else s2;
    var s4 := Do(es, sync, s3, Rename);
    steps := [SyncParent] + [];
    FirstStep(es, sync, s4, SyncParent, []);
    FirstStep(es, sync, s3, Rename, steps);
    steps := [Rename] + steps;
    if sync {
      FirstStep(es, sync, s2, SyncBase, steps);
      steps := [SyncBase] + steps;
      Joined(es, sync, s1, before, steps);
      steps := before + steps;
    }
    FirstStep(es, sync, s, EndEntries, steps);
    steps := [EndEntries] + steps;
  }

  lemma {:induction false} Joined(es: seq<Source>, sync: bool, s: State, xs: seq<Step>, ys: seq<Step>)
    requires Runs(es, sync, s, xs) && Runs(es, sync, After(es, sync, s, xs), ys)
    ensures Runs(es, sync, s, xs + ys) && After(es, sync, s, xs + ys) == After(es, sync, After(es, sync, s, xs), ys)
    decreases |xs|
  {
    if xs == [] {
      assert xs + ys == ys;
    } else {
      assert (xs + ys)[1..] == xs[1..] + ys;
      Joined(es, sync, Do(es, sync, s, xs[0]), xs[1..], ys);
    }
  }

  /** The store directories of the first `n` entries, one by one. */
  lemma {:induction false} DirsRun(es: seq<Source>, s: State, n: nat) returns (steps: seq<Step>, r: State)
    requires s.phase.Syncing? && n <= |es|
    ensures Runs(es, true, s, steps) && r == After(es, true, s, steps) && r == s.(syncedDirs := r.syncedDirs)
    ensures forall i :: 0 <= i < n ==> es[i].path.store in r.syncedDirs
    decreases n
  {
    steps, r := [], s;
    if n > 0 {
      steps, r := DirsRun(es, s, n - 1);
      var a := SyncDir(es[n - 1].path.store);
      FirstStep(es, true, r, a, []);
      Joined(es, true, s, steps, [a] + []);
      steps, r := steps + ([a] + []), Do(es, true, r, a);
    }
  }

  /** One entry: written from memory or copied whole. */
  lemma {:induction false} EntryRun(es: seq<Source>, sync: bool, s: State) returns (steps: seq<Step>)
    requires s.phase.Next? && s.phase.i < |es| && s.purged == {} && Goal(es[s.phase.i]) == |Wanted(es[s.phase.i])|
    ensures Runs(es, sync, s, steps)
    ensures var r := After(es, sync, s, steps);
            r.phase == Next(s.phase.i + 1) && r.skipped == s.skipped && r.purged == {}
  {
    var e := es[s.phase.i];
    var s1 := Do(es, sync, s, Create);
    var s2 := if Goal(e) == 0 then s1 else Do(es, sync, s1, Write(Goal(e)));
    var s3 := Do(es, sync, s2, Finish);
    FirstStep(es, sync, s3, SyncFile, []);
    steps := [SyncFile] + [];
    FirstStep(es, sync, s2, Finish, steps);
    steps := [Finish] + steps;
    if Goal(e) != 0 {
      FirstStep(es, sync, s1, Write(Goal(e)), steps);
      steps := [Write(Goal(e))] + steps;
    }
    FirstStep(es, sync, s, Create, steps);
    steps := [Create] + steps;
  }

  lemma {:induction false} EntriesRun(es: seq<Source>, sync: bool, n: nat) returns (steps: seq<Step>)
    requires n <= |es| && forall i :: 0 <= i < n ==> Goal(es[i]) == |Wanted(es[i])|
    ensures Runs(es, sync, Initial(), steps)
    ensures var r := After(es, sync, Initial(), steps); r.phase == Next(n) && r.skipped == {} && r.purged == {}
    decreases n
  {
    steps := [];
    if n > 0 {
      steps := EntriesRun(es, sync, n - 1);
      var more := EntryRun(es, sync, After(es, sync, Initial(), steps));
      Joined(es, sync, Initial(), steps, more);
      steps := steps + more;
    }
  }

  /** A snapshot can succeed: whatever was collected, as long as no file is shorter
  than recorded, some run ends in success with no entry skipped, and so with every
  entry published in full. */
  lemma SnapshotCanSucceed(es: seq<Source>, sync: bool) returns (steps: seq<Step>)
    requires Collected(es) && es != [] && forall i :: 0 <= i < |es| ==> Goal(es[i]) == |Wanted(es[i])|
    ensures Runs(es, sync, Initial(), steps)
    ensures var s := After(es, sync, Initial(), steps);
            && s.phase.Done? && s.skipped == {} && s.final.Some?
            && forall i :: 0 <= i < |es| ==> es[i].path in s.final.value && s.final.value[es[i].path] == Wanted(es[i])
  {
    var copy := EntriesRun(es, sync, |es|);
    var publish := PublishRun(es, sync, After(es, sync, Initial(), copy));
    Joined(es, sync, Initial(), copy, publish);
    steps := copy + publish;
    CrashLeavesAllOrNothing(es, sync, steps);
  }

  /** The first snapshot below a backup directory, whatever it holds: every step
  succeeds, everything the code syncs is synced, success is reported, and a power
  failure may leave nothing. */
  lemma FirstSnapshotMayVanish(es: seq<Source>) returns (steps: seq<Step>)
    requires Collected(es) && es != [] && forall i :: 0 <= i < |es| ==> Goal(es[i]) == |Wanted(es[i])|
    ensures Runs(es, true, Initial(), steps) && After(es, true, Initial(), steps).phase.Done?
    ensures Survives(es, After(es, true, Initial(), steps), false, None)
  {
    steps := SnapshotCanSucceed(es, true);
  }

  lemma ImageIsComplete(es: seq<Source>, s: State, dir: Dir, found: Dir)
    requires Complete(es, dir, s.skipped, s.stuck) && Durable(es, s) && Image(es, s, dir, found)
    ensures Complete(es, found, s.skipped, s.stuck)
  {
    forall p | p in found ensures p in dir {
      var i :| 0 <= i < |es| && es[i].path.store == p.store;
    }
  }

  /** A rotated file that is still there can be linked, which stages it whole. */
  lemma LinkStagesWhole(es: seq<Source>, sync: bool, s: State)
    requires Collected(es) && s.phase.Next? && s.phase.i < |es| && s.phase.i !in s.purged
    requires es[s.phase.i].immutable && es[s.phase.i].inlined == []
    ensures Can(es, sync, s, Link)
    ensures var e, s' := es[s.phase.i], Do(es, sync, s, Link);
            s'.phase == Written(s.phase.i) && e.path in s'.staging && s'.staging[e.path] == Wanted(e)
  {
    var e := es[s.phase.i];
    assert e.disk == Wanted(e);
  }

  /** A copy that failed because its source was purged does not fail the snapshot: the
  entry is skipped, its destination removed, and the next entry is up. One whose
  source is still there aborts it, and the staging directory goes. */
  lemma FailedCopyIsLookedInto(es: seq<Source>, sync: bool, s: State)
    requires s.phase.Failed? && s.phase.i < |es|
    ensures s.phase.i in s.purged ==>
              && Can(es, sync, s, Skip(false, true)) && !Can(es, sync, s, GiveUp)
              && var s' := Do(es, sync, s, Skip(false, true));
              s'.phase == Next(s.phase.i + 1) && es[s.phase.i].path !in s'.staging && s.phase.i in s'.skipped
    ensures s.phase.i !in s.purged ==>
              && Can(es, sync, s, GiveUp) && !Can(es, sync, s, Skip(false, true))
              && var s' := Do(es, sync, s, GiveUp);
              && s'.phase == Aborting && Can(es, sync, s', Cleanup)
              && var s2 := Do(es, sync, s', Cleanup); s2.phase == Aborted && s2.staging == map[] && s2.final == s.final
  {
  }

  /** An entry whose copy fails is looked into; a failure outside a copy aborts. */
  lemma FailuresAreNoticed(es: seq<Source>, sync: bool, s: State)
    requires (s.phase.Next? || s.phase.Writing? || s.phase.Written?) && s.phase.i < |es|
    ensures Can(es, sync, s, Fail)
    ensures Do(es, sync, s, Fail).phase
            == if es[s.phase.i].inlined == [] && !s.phase.Written? then Failed(s.phase.i) else Aborting
  {
  }
}
