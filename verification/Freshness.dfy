/** Cached-version freshness: the verification table together with the database.

The write-intent lifecycle runs beside an MVCC database and any number of
`getSync` readers. A reader loads its slot, reads the key (at its snapshot or at
the latest sequence), decides which version is the latest, passes the two
snapshot gates, and publishes with one compare-and-swap; every database or slot
access is a step of its own. Writers commit a batch only while they hold an
intent on the slot of every key in it. `clear` deletes without any intent and
then sweeps. Keys share slots as `slotOf` says.

`since`, `at` and `asOf` are bookkeeping of when a reader looked; no step
depends on them. */
module Freshness {
  import opened SlotWords
  import opened WriteIntents

  /** What a key holds: nothing, a value without a usable version, or a version. */
  datatype Val = Absent | Unversioned | Present(v: nat)

  datatype Change = Commit(writes: map<nat, Val>) | Clear(keys: set<nat>)

  /** The database's latest sequence number: bulk deletes do not advance it. */
  function Latest(log: seq<Change>): nat {
    if log == [] then 0
    else Latest(log[..|log| - 1]) + (if log[|log| - 1].Commit? then 1 else 0)
  }

  /** What a read of `k` at sequence number `q` returns. Bulk deletes remove older
  data whatever snapshots are open. */
  function View(log: seq<Change>, k: nat, q: nat): Val {
    if log == [] then Absent
    else
      var rest := log[..|log| - 1];
      match log[|log| - 1]
      case Clear(keys) => if k in keys then Absent else View(rest, k, q)
      case Commit(writes) => if k in writes && Latest(log) <= q then writes[k] else View(rest, k, q)
  }

  function Current(log: seq<Change>, k: nat): Val { View(log, k, Latest(log)) }

  datatype Snapshot = Snapshot(seqno: nat, second: nat)
  datatype ReadAt = Newest | AsOf(seqno: nat)

  datatype Stage = Begun | Observed | Fetched | Outdated | Judged | Open | Bounded | Ready

  datatype Reader = Reader(key: nat, snap: ReadAt, stage: Stage, observed: Word, version: nat, bound: nat,
                           since: nat, at: nat, asOf: nat)

  datatype World = World(table: Table, log: seq<Change>, snaps: map<nat, Snapshot>, readers: map<nat, Reader>)

  /** `slotOf` is the hash, `dated(s, v)` says that version `v` lies after second `s`. */
  datatype Config = Config(slotOf: nat -> nat, dated: (nat, nat) -> bool)

  datatype Act =
    | TableStep(step: Step)
    | Begin(r: nat, key: nat, snap: nat, newest: bool)
    | Observe(r: nat)
    | Fetch(r: nat, guess: nat)
    | Judge(r: nat)
    | Refetch(r: nat)
    | GateOpen(r: nat, oldest: nat)
    | GateBound(r: nat)
    | GateOldest(r: nat, oldest: nat)
    | PublishCas(r: nat)
    | Quit(r: nat)
    | Write(writes: map<nat, Val>, holding: map<nat, nat>)
    | Wipe(keys: set<nat>)
    | OpenSnapshot(id: nat, second: nat)
    | CloseSnapshot(id: nat)

  function Start(n: nat): World { World(Initial(n), [], map[], map[]) }

  predicate IsOldest(snaps: map<nat, Snapshot>, id: nat) {
    id in snaps && forall other :: other in snaps ==> snaps[id].seqno <= snaps[other].seqno
  }

  predicate At(w: World, r: nat, stage: Stage) { r in w.readers && w.readers[r].stage == stage }

  /** A writer holds an intent on the slot of every key it is about to write. */
  predicate Covered(cfg: Config, t: Table, writes: map<nat, Val>, holding: map<nat, nat>) {
    forall k :: k in writes ==>
      k in holding && holding[k] in t.intents && t.intents[holding[k]].slot == cfg.slotOf(k)
  }

  /** Runs without `cancelForDB`; publishing is the readers' business. */
  predicate Able(cfg: Config, w: World, a: Act) {
    match a
    case TableStep(step) => !step.Populate? && !step.CancelStart? && Can(w.table, step)
    case Begin(r, key, snap, newest) =>
      r !in w.readers && (newest || snap in w.snaps) && cfg.slotOf(key) < |w.table.slots|
    case Observe(r) => At(w, r, Begun) && cfg.slotOf(w.readers[r].key) < |w.table.slots|
    case Fetch(r, guess) => At(w, r, Observed)
    case Judge(r) => At(w, r, Fetched)
    case Refetch(r) => At(w, r, Outdated)
    case GateOpen(r, oldest) => At(w, r, Judged) && (w.snaps == map[] || IsOldest(w.snaps, oldest))
    case GateBound(r) => At(w, r, Open)
    case GateOldest(r, oldest) => At(w, r, Bounded) && (w.snaps == map[] || IsOldest(w.snaps, oldest))
    case PublishCas(r) => At(w, r, Ready) && cfg.slotOf(w.readers[r].key) < |w.table.slots|
    case Quit(r) => r in w.readers
    case Write(writes, holding) => Covered(cfg, w.table, writes, holding)
    case Wipe(keys) => true
    case OpenSnapshot(id, second) => id !in w.snaps
    case CloseSnapshot(id) => id in w.snaps
  }

  function Put(w: World, r: nat, d: Reader): World { w.(readers := w.readers[r := d]) }
  function Drop(w: World, r: nat): World { w.(readers := w.readers - {r}) }

  /** Take a value read at sequence `q`; a value without a version ends the populate. */
  function Took(w: World, r: nat, val: Val, q: nat, stage: Stage): World
    requires r in w.readers
  {
    if !val.Present? then Drop(w, r)
    else Put(w, r, w.readers[r].(stage := stage, version := val.v, at := |w.log|, asOf := q))
  }

  function Next(cfg: Config, w: World, a: Act): World
    requires Able(cfg, w, a)
  {
    match a
    case TableStep(step) => w.(table := Do(w.table, step))
    case Begin(r, key, snap, newest) =>
      Put(w, r, Reader(key, if newest then Newest else AsOf(w.snaps[snap].seqno), Begun, Empty, 0, 0, 0, 0, 0))
    case Observe(r) =>
      var d := w.readers[r];
      Put(w, r, d.(stage := Observed, observed := w.table.slots[cfg.slotOf(d.key)], since := |w.log|))
    case Fetch(r, guess) =>
      var d := w.readers[r];
      var q := if d.snap.Newest? then Latest(w.log) else d.snap.seqno;
      // Behind a lock the reader may see its own uncommitted write.
      Took(w, r, if d.observed.Lock? then Present(guess) else View(w.log, d.key, q), q, Fetched)
    case Judge(r) =>
      var d := w.readers[r];
      Put(w, r, d.(stage := if d.snap.Newest? || d.snap.seqno >= Latest(w.log) then Judged else Outdated))
    case Refetch(r) => Took(w, r, Current(w.log, w.readers[r].key), Latest(w.log), Judged)
    case GateOpen(r, oldest) =>
      var d := w.readers[r];
      if w.snaps == map[] then Put(w, r, d.(stage := Ready))
      else if cfg.dated(w.snaps[oldest].second, d.version) then Drop(w, r)
      else Put(w, r, d.(stage := Open))
    case GateBound(r) => Put(w, r, w.readers[r].(stage := Bounded, bound := Latest(w.log)))
    case GateOldest(r, oldest) =>
      var d := w.readers[r];
      var seqno := if w.snaps == map[] then 0 else w.snaps[oldest].seqno;
      if seqno < d.bound then Drop(w, r) else Put(w, r, d.(stage := Ready))
    case PublishCas(r) =>
      var d := w.readers[r];
      Drop(w, r).(table := Publish(w.table, cfg.slotOf(d.key), d.observed, d.version))
    case Quit(r) => Drop(w, r)
    case Write(writes, holding) => w.(log := w.log + [Commit(writes)])
    case Wipe(keys) => w.(log := w.log + [Clear(keys)])
    case OpenSnapshot(id, second) => w.(snaps := w.snaps[id := Snapshot(Latest(w.log), second)])
    case CloseSnapshot(id) => w.(snaps := w.snaps - {id})
  }

  predicate Reaches(cfg: Config, w: World, run: seq<Act>, w': World)
    decreases |run|
  {
    if run == [] then w == w'
    else Able(cfg, w, run[0]) && Reaches(cfg, Next(cfg, w, run[0]), run[1..], w')
  }
}
