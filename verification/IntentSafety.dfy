/** What every run of the write-intent lifecycle keeps: reference counts, lock
words, the life of each tracker, and exactly-once wake-up. Each part of the
invariant is a predicate of just the components it constrains. */
module IntentSafety {
  import opened SlotWords
  import opened WriteIntents

  type Trackers = map<nat, Tracker>
  type Handles = map<nat, Handle>

  ghost function On(handles: Handles, addr: nat): set<nat> {
    set id | id in handles && handles[id].addr == addr
  }

  /** The mutex holder is in the middle of a release of `addr`. */
  predicate ReleaseOf(c: Section, addr: nat) {
    (c.Settling? || c.Waking? || c.Dropping?) && c.h.addr == addr
  }

  predicate NoRepeat(xs: seq<nat>) {
    forall i, j :: 0 <= i < j < |xs| ==> xs[i] != xs[j]
  }

  /** Every handle denotes its own allocation. */
  ghost predicate AllLive(trackers: Trackers, handles: Handles) {
    forall id :: id in handles ==> Live(trackers, handles[id])
  }

  /** What the mutex holder relies on. */
  ghost predicate Sound(slots: seq<SlotWord>, trackers: Trackers, intents: Handles, c: Section, cut: set<nat>) {
    && (c.Settling? || c.Waking? || c.Dropping? ==> Live(trackers, c.h))
    && (c.Unparking? ==> c.addr in trackers && trackers[c.addr].inc in cut)
    && (c.Locking? ==>
          && c.slot < |slots| && c.id !in intents
          && (slots[c.slot].Lock? || c.seen.Lock? ==> slots[c.slot] == c.seen))
  }

  /** Holders are the held intents; references are holders, temporaries, and the
  one a release in progress is about to drop. */
  ghost predicate Counted(trackers: Trackers, intents: Handles, refs: Handles, c: Section) {
    forall a :: a in trackers ==>
      && trackers[a].holders == |On(intents, a)|
      && trackers[a].refcount == |On(intents, a)| + |On(refs, a)| + (if ReleaseOf(c, a) then 1 else 0)
      && trackers[a].refcount >= 1
  }

  predicate NamesHeld(t: Tracker, i: nat, w: SlotWord, c: Section)
    requires w.Lock?
  {
    t.slot == i && t.tag == w.tag && (t.holders >= 1 || (c.Settling? && c.h.addr == w.addr))
  }

  /** A lock word names a live tracker of that slot that still has a holder, or
  whose last holder is just releasing it. */
  ghost predicate Named(slots: seq<SlotWord>, trackers: Trackers, c: Section) {
    forall i :: 0 <= i < |slots| && slots[i].Lock? ==>
      slots[i].addr in trackers && NamesHeld(trackers[slots[i].addr], i, slots[i], c)
  }

  predicate LockedBy(slots: seq<SlotWord>, trackers: Trackers, h: Handle) {
    h.addr in trackers && h.slot < |slots| && slots[h.slot] == Lock(h.addr, trackers[h.addr].tag)
  }

  /** As long as an intent is held its slot holds its tracker's lock word, unless
  a cancel of the installing database settled it. */
  ghost predicate Guarded(slots: seq<SlotWord>, trackers: Trackers, intents: Handles, c: Section, cut: set<nat>) {
    && (forall id :: id in intents && intents[id].inc !in cut ==> LockedBy(slots, trackers, intents[id]))
    && (c.Settling? && c.h.inc !in cut ==> LockedBy(slots, trackers, c.h))
  }

  /** No lock word belongs to a cancelled tracker. */
  ghost predicate Uncut(slots: seq<SlotWord>, trackers: Trackers, cut: set<nat>) {
    forall i :: 0 <= i < |slots| && slots[i].Lock? && slots[i].addr in trackers ==> trackers[slots[i].addr].inc !in cut
  }

  predicate AtHome(trackers: Trackers, homes: seq<nat>, n: nat)
    requires n < |homes|
  {
    homes[n] in trackers && trackers[homes[n]].inc == n
  }

  /** Every allocation is live once or was freed once, never both. */
  ghost predicate Tracked(trackers: Trackers, homes: seq<nat>, buried: seq<nat>, cut: set<nat>) {
    && (forall a :: a in trackers ==> trackers[a].inc < |homes| && homes[trackers[a].inc] == a)
    && NoRepeat(buried)
    && (forall n :: n in buried ==> n < |homes|)
    && (forall n: nat :: n < |homes| ==> (AtHome(trackers, homes, n) <==> n !in buried))
    && (forall n :: n in cut ==> n < |homes|)
  }

  /** An accepted callback waits on its tracker or ran, never both and never twice. */
  ghost predicate Parked(trackers: Trackers, homes: seq<nat>, accepted: map<nat, nat>, ran: seq<nat>) {
    && NoRepeat(ran)
    && (forall cb :: cb in ran ==> cb in accepted)
    && (forall cb :: cb in accepted ==> accepted[cb] < |homes|)
    && (forall a :: a in trackers ==> NoRepeat(trackers[a].waiting))
    && (forall a, cb :: a in trackers && cb in trackers[a].waiting ==>
          cb in accepted && accepted[cb] == trackers[a].inc && cb !in ran)
    && (forall cb :: cb in accepted && cb !in ran ==>
          AtHome(trackers, homes, accepted[cb]) && cb in trackers[homes[accepted[cb]]].waiting)
  }

  predicate Ending(c: Section, addr: nat) { (c.Settling? || c.Waking?) && c.h.addr == addr }

  /** A tracker is woken once nobody holds it, and not before, cancels apart. */
  ghost predicate Awake(trackers: Trackers, c: Section, cut: set<nat>) {
    forall a :: a in trackers ==>
      && (trackers[a].woken ==> trackers[a].waiting == [])
      && (trackers[a].holders == 0 && !Ending(c, a) ==> trackers[a].woken)
      && (trackers[a].woken && trackers[a].inc !in cut ==> trackers[a].holders == 0 && !Ending(c, a))
      && (Ending(c, a) ==> trackers[a].holders == 0)
  }

  /** A callback runs only when its tracker is woken. */
  ghost predicate RanWoken(trackers: Trackers, accepted: map<nat, nat>, ran: seq<nat>) {
    forall cb, a :: cb in ran && cb in accepted && a in trackers && trackers[a].inc == accepted[cb] ==>
      trackers[a].woken
  }

  predicate Unvisited(slots: seq<SlotWord>, w: Sweep) {
    forall j :: w.next <= j < |slots| ==> slots[j] != Settled(w.gen)
  }

  /** Settle generations in use were minted, and a sweep's generation is not yet
  in any slot it has still to visit. */
  ghost predicate Minted(slots: seq<SlotWord>, sweeps: map<nat, Sweep>, settleGen: nat) {
    && (forall i :: 0 <= i < |slots| && slots[i].Settled? ==> slots[i].gen < settleGen)
    && (forall id :: id in sweeps ==> sweeps[id].gen < settleGen && Unvisited(slots, sweeps[id]))
    && (forall id :: id in sweeps && sweeps[id].loaded ==> !sweeps[id].seen.Lock?)
    && (forall id, id' :: id in sweeps && id' in sweeps && id != id' ==> sweeps[id].gen != sweeps[id'].gen)
  }

  datatype Part = Alive | Relied | Counts | Names | Guards | Cuts | Lives | Parks | Wakes | Order | Mints

  ghost predicate Holds(s: Table, p: Part) {
    match p
    case Alive => !s.fault && AllLive(s.trackers, s.intents) && AllLive(s.trackers, s.refs)
    case Relied => Sound(s.slots, s.trackers, s.intents, s.section, s.cut)
    case Counts => Counted(s.trackers, s.intents, s.refs, s.section)
    case Names => Named(s.slots, s.trackers, s.section)
    case Guards => Guarded(s.slots, s.trackers, s.intents, s.section, s.cut)
    case Cuts => Uncut(s.slots, s.trackers, s.cut)
    case Lives => Tracked(s.trackers, s.homes, s.buried, s.cut)
    case Parks => Parked(s.trackers, s.homes, s.accepted, s.ran)
    case Wakes => Awake(s.trackers, s.section, s.cut)
    case Order => RanWoken(s.trackers, s.accepted, s.ran)
    case Mints => Minted(s.slots, s.sweeps, s.settleGen)
  }

  /** The whole invariant. */
  ghost predicate Inv(s: Table) { forall p: Part :: Holds(s, p) }

  // ---- Parts of the invariant under the basic changes

  lemma OnAdd(handles: Handles, id: nat, h: Handle, addr: nat)
    requires id !in handles
    ensures |On(handles[id := h], addr)| == |On(handles, addr)| + (if h.addr == addr then 1 else 0)
  {
    assert On(handles[id := h], addr) == if h.addr == addr then On(handles, addr) + {id} else On(handles, addr);
  }

  lemma OnRemove(handles: Handles, id: nat, addr: nat)
    requires id in handles
    ensures |On(handles - {id}, addr)| == |On(handles, addr)| - (if handles[id].addr == addr then 1 else 0)
  {
    assert On(handles - {id}, addr) == On(handles, addr) - {id};
  }

  lemma NobodyOnFresh(trackers: Trackers, handles: Handles, addr: nat)
    requires AllLive(trackers, handles) && addr !in trackers
    ensures |On(handles, addr)| == 0
  {
    assert On(handles, addr) == {};
  }

  lemma MintedReword(slots: seq<SlotWord>, sweeps: map<nat, Sweep>, gen: nat, i: nat, w: SlotWord)
    requires Minted(slots, sweeps, gen) && i < |slots| && !w.Settled?
    ensures Minted(slots[i := w], sweeps, gen)
  {
    forall id | id in sweeps ensures Unvisited(slots[i := w], sweeps[id]) { assert Unvisited(slots, sweeps[id]); }
  }

  lemma MintedSettle(slots: seq<SlotWord>, sweeps: map<nat, Sweep>, gen: nat, i: nat)
    requires Minted(slots, sweeps, gen) && i < |slots|
    ensures Minted(slots[i := Settled(gen)], sweeps, gen + 1)
  {
    forall id | id in sweeps ensures Unvisited(slots[i := Settled(gen)], sweeps[id]) {
      assert Unvisited(slots, sweeps[id]);
    }
  }

  lemma MintedMove(slots: seq<SlotWord>, sweeps: map<nat, Sweep>, gen: nat, id: nat, w: Sweep)
    requires Minted(slots, sweeps, gen) && id in sweeps
    requires w.gen == sweeps[id].gen && w.next >= sweeps[id].next && (w.loaded ==> !w.seen.Lock?)
    ensures Minted(slots, sweeps[id := w], gen)
  {
    assert Unvisited(slots, sweeps[id]);
    assert Unvisited(slots, w);
  }

  lemma MintedVisit(slots: seq<SlotWord>, sweeps: map<nat, Sweep>, gen: nat, id: nat)
    requires Minted(slots, sweeps, gen) && id in sweeps && sweeps[id].next < |slots|
    ensures Minted(slots[sweeps[id].next := Settled(sweeps[id].gen)],
                   sweeps[id := sweeps[id].(next := sweeps[id].next + 1, loaded := false)], gen)
  {
    var w := sweeps[id];
    var slots' := slots[w.next := Settled(w.gen)];
    var w' := w.(next := w.next + 1, loaded := false);
    forall k | k in sweeps ensures Unvisited(slots', if k == id then w' else sweeps[k]) {
      assert Unvisited(slots, sweeps[k]);
    }
  }

  lemma ParkedSame(trackers: Trackers, homes: seq<nat>, accepted: map<nat, nat>, ran: seq<nat>, a: nat, t: Tracker)
    requires Parked(trackers, homes, accepted, ran) && a in trackers
    requires t.inc == trackers[a].inc && t.waiting == trackers[a].waiting
    ensures Parked(trackers[a := t], homes, accepted, ran)
  {
  }

  lemma TrackedSame(trackers: Trackers, homes: seq<nat>, buried: seq<nat>, cut: set<nat>, a: nat, t: Tracker)
    requires Tracked(trackers, homes, buried, cut) && a in trackers && t.inc == trackers[a].inc
    ensures Tracked(trackers[a := t], homes, buried, cut)
  {
    forall n: nat | n < |homes| ensures AtHome(trackers[a := t], homes, n) == AtHome(trackers, homes, n) {}
  }

  lemma TrackedBury(trackers: Trackers, homes: seq<nat>, buried: seq<nat>, cut: set<nat>, a: nat)
    requires Tracked(trackers, homes, buried, cut) && a in trackers
    ensures Tracked(trackers - {a}, homes, buried + [trackers[a].inc], cut)
  {
    var inc := trackers[a].inc;
    assert AtHome(trackers, homes, inc);
    forall n: nat | n < |homes|
      ensures AtHome(trackers - {a}, homes, n) <==> n !in buried + [inc]
    {
      assert AtHome(trackers, homes, n) <==> n !in buried;
    }
  }

  lemma TrackedBirth(trackers: Trackers, homes: seq<nat>, buried: seq<nat>, cut: set<nat>, a: nat, t: Tracker)
    requires Tracked(trackers, homes, buried, cut) && a !in trackers && t.inc == |homes|
    ensures Tracked(trackers[a := t], homes + [a], buried, cut)
  {
    forall n: nat | n < |homes| + 1
      ensures AtHome(trackers[a := t], homes + [a], n) <==> n !in buried
    {
      if n < |homes| { assert AtHome(trackers, homes, n) <==> n !in buried; }
    }
  }

  lemma ParkedBirth(trackers: Trackers, homes: seq<nat>, accepted: map<nat, nat>, ran: seq<nat>, a: nat, t: Tracker)
    requires Parked(trackers, homes, accepted, ran) && a !in trackers && t.inc == |homes| && t.waiting == []
    ensures Parked(trackers[a := t], homes + [a], accepted, ran)
  {
    forall cb | cb in accepted && cb !in ran
      ensures AtHome(trackers[a := t], homes + [a], accepted[cb])
    {
      assert AtHome(trackers, homes, accepted[cb]);
    }
  }

  lemma ParkedBury(trackers: Trackers, homes: seq<nat>, accepted: map<nat, nat>, ran: seq<nat>, a: nat)
    requires Parked(trackers, homes, accepted, ran) && a in trackers && trackers[a].waiting == []
    ensures Parked(trackers - {a}, homes, accepted, ran)
  {
    forall cb | cb in accepted && cb !in ran
      ensures AtHome(trackers - {a}, homes, accepted[cb])
    {
      assert AtHome(trackers, homes, accepted[cb]);
      assert cb in trackers[homes[accepted[cb]]].waiting;
    }
  }

  lemma ParkedWake(trackers: Trackers, homes: seq<nat>, accepted: map<nat, nat>, ran: seq<nat>, a: nat)
    requires Parked(trackers, homes, accepted, ran) && a in trackers
    requires forall b :: b in trackers ==> trackers[b].inc < |homes| && homes[trackers[b].inc] == b
    ensures Parked(trackers[a := trackers[a].(woken := true, waiting := [])], homes, accepted,
                   ran + trackers[a].waiting)
  {
    var t := trackers[a];
    var ran' := ran + t.waiting;
    assert NoRepeat(ran') by {
      forall i, j | 0 <= i < j < |ran'| ensures ran'[i] != ran'[j] {
        if i < |ran| <= j { assert ran'[j] == t.waiting[j - |ran|] && ran'[j] in t.waiting && ran'[i] in ran; }
      }
    }
    forall cb | cb in accepted && cb !in ran'
      ensures AtHome(trackers, homes, accepted[cb]) && homes[accepted[cb]] != a
    {
      assert cb !in t.waiting;
    }
    forall b, cb | b in trackers && b != a && cb in trackers[b].waiting
      ensures cb !in ran'
    {
      assert cb in accepted && accepted[cb] == trackers[b].inc;
    }
  }

  lemma ParkedAccept(trackers: Trackers, homes: seq<nat>, accepted: map<nat, nat>, ran: seq<nat>, a: nat, cb: nat)
    requires Parked(trackers, homes, accepted, ran) && a in trackers && cb !in accepted
    requires trackers[a].inc < |homes| && homes[trackers[a].inc] == a
    ensures Parked(trackers[a := trackers[a].(waiting := trackers[a].waiting + [cb])], homes,
                   accepted[cb := trackers[a].inc], ran)
  {
    var t := trackers[a].(waiting := trackers[a].waiting + [cb]);
    var trackers' := trackers[a := t];
    var accepted' := accepted[cb := t.inc];
    assert AtHome(trackers', homes, t.inc);
    forall x | x in accepted' && x !in ran && x != cb
      ensures AtHome(trackers', homes, accepted'[x]) && x in trackers'[homes[accepted'[x]]].waiting
    {
      assert AtHome(trackers, homes, accepted[x]);
    }
  }

  // ---- Every step keeps every part

  lemma CountedJoin(trackers: Trackers, intents: Handles, refs: Handles, c: Section, id: nat, h: Handle)
    requires Counted(trackers, intents, refs, c) && c.Locking? && id !in intents && h.addr in trackers
    ensures var t := trackers[h.addr];
            Counted(trackers[h.addr := t.(holders := t.holders + 1, refcount := t.refcount + 1)], intents[id := h],
                    refs, Idle)
  {
    forall a | a in trackers ensures |On(intents[id := h], a)| == |On(intents, a)| + (if h.addr == a then 1 else 0) {
      OnAdd(intents, id, h, a);
    }
  }

  lemma CountedInstall(trackers: Trackers, intents: Handles, refs: Handles, c: Section, id: nat, h: Handle, t: Tracker)
    requires Counted(trackers, intents, refs, c) && c.Locking? && id !in intents && h.addr !in trackers
    requires AllLive(trackers, intents) && AllLive(trackers, refs) && t.holders == t.refcount == 1
    ensures Counted(trackers[h.addr := t], intents[id := h], refs, Idle)
  {
    NobodyOnFresh(trackers, intents, h.addr);
    NobodyOnFresh(trackers, refs, h.addr);
    forall a | a in trackers[h.addr := t]
      ensures |On(intents[id := h], a)| == |On(intents, a)| + (if h.addr == a then 1 else 0)
    {
      OnAdd(intents, id, h, a);
    }
  }

  lemma CountedOut(trackers: Trackers, intents: Handles, refs: Handles, id: nat, t: Tracker, c: Section)
    requires Counted(trackers, intents, refs, Idle) && id in intents && intents[id].addr in trackers
    requires t == trackers[intents[id].addr].(holders := trackers[intents[id].addr].holders - 1)
    requires (c.Settling? || c.Dropping?) && c.h == intents[id]
    ensures Counted(trackers[intents[id].addr := t], intents - {id}, refs, c)
  {
    forall a | a in trackers
      ensures |On(intents - {id}, a)| == |On(intents, a)| - (if intents[id].addr == a then 1 else 0)
    {
      OnRemove(intents, id, a);
    }
  }

  lemma CountedTake(trackers: Trackers, intents: Handles, refs: Handles, id: nat, h: Handle)
    requires Counted(trackers, intents, refs, Idle) && id !in refs && h.addr in trackers
    ensures var t := trackers[h.addr];
            Counted(trackers[h.addr := t.(refcount := t.refcount + 1)], intents, refs[id := h], Idle)
  {
    forall a | a in trackers ensures |On(refs[id := h], a)| == |On(refs, a)| + (if h.addr == a then 1 else 0) {
      OnAdd(refs, id, h, a);
    }
  }

  lemma CountedUnref(s: Table, addr: nat, refs': Handles, c': Section)
    requires Counted(s.trackers, s.intents, s.refs, s.section) && addr in s.trackers && c'.Idle?
    requires (s.section.Dropping? && s.section.h.addr == addr && refs' == s.refs)
          || (s.section.Idle? && exists id :: id in s.refs && s.refs[id].addr == addr && refs' == s.refs - {id})
    ensures Counted(Unref(s, addr).trackers, s.intents, refs', c')
    ensures s.trackers[addr].refcount == 1 ==>
              s.trackers[addr].holders == 0 && |On(s.intents, addr)| == 0 && |On(refs', addr)| == 0
  {
    if s.section.Idle? {
      var id :| id in s.refs && s.refs[id].addr == addr && refs' == s.refs - {id};
      forall a | a in s.trackers
        ensures |On(refs', a)| == |On(s.refs, a)| - (if addr == a then 1 else 0)
      {
        OnRemove(s.refs, id, a);
      }
    }
    forall a | a in Unref(s, addr).trackers
      ensures var t := Unref(s, addr).trackers[a];
              && t.holders == |On(s.intents, a)| && t.refcount == |On(s.intents, a)| + |On(refs', a)| && t.refcount >= 1
    {
      assert a in s.trackers && (s.section.Idle? ==> !ReleaseOf(s.section, a));
    }
  }

  lemma PublishKeeps(s: Table, slot: nat, observed: SlotWord, version: nat)
    requires Inv(s) && slot < |s.slots|
    ensures Inv(Publish(s, slot, observed, version))
  {
    var s' := Publish(s, slot, observed, version);
    if s' != s {
      forall p: Part ensures Holds(s', p) {
        assert Holds(s, p);
        if p.Mints? { MintedReword(s.slots, s.sweeps, s.settleGen, slot, Version(version)); }
      }
    }
  }

  lemma SweepStartKeeps(s: Table, id: nat)
    requires Inv(s) && Can(s, SweepStart(id))
    ensures Inv(Do(s, SweepStart(id)))
  {
    var s' := Do(s, SweepStart(id));
    forall p: Part ensures Holds(s', p) { assert Holds(s, p) && Holds(s, Mints); }
  }

  lemma SweepMoveKeeps(s: Table, id: nat, w: Sweep)
    requires Inv(s) && id in s.sweeps
    requires w.gen == s.sweeps[id].gen && w.next >= s.sweeps[id].next && (w.loaded ==> !w.seen.Lock?)
    ensures Inv(SweepTo(s, id, w))
  {
    var s' := SweepTo(s, id, w);
    forall p: Part ensures Holds(s', p) {
      assert Holds(s, p);
      if p.Mints? { MintedMove(s.slots, s.sweeps, s.settleGen, id, w); }
    }
  }

  lemma SweepVisitKeeps(s: Table, id: nat)
    requires Inv(s) && id in s.sweeps && s.sweeps[id].next < |s.slots| && !s.slots[s.sweeps[id].next].Lock?
    ensures var w := s.sweeps[id];
            Inv(SweepTo(Reword(s, w.next, Settled(w.gen)), id, w.(next := w.next + 1, loaded := false)))
  {
    var w := s.sweeps[id];
    var s' := SweepTo(Reword(s, w.next, Settled(w.gen)), id, w.(next := w.next + 1, loaded := false));
    forall p: Part ensures Holds(s', p) {
      assert Holds(s, p);
      if p.Mints? { MintedVisit(s.slots, s.sweeps, s.settleGen, id); }
    }
  }

  lemma JoinSlotSide(s: Table)
    requires s.section.Locking? && s.section.seen.Lock?
    requires Sound(s.slots, s.trackers, s.intents, s.section, s.cut) && Named(s.slots, s.trackers, s.section)
    requires Guarded(s.slots, s.trackers, s.intents, s.section, s.cut)
    ensures var s' := Join(s, s.section.id, s.section.slot, s.section.seen.addr);
            Named(s'.slots, s'.trackers, s'.section) && Guarded(s'.slots, s'.trackers, s'.intents, s'.section, s'.cut)
  {
  }

  lemma JoinKeeps(s: Table)
    requires Inv(s) && s.section.Locking? && s.section.seen.Lock?
    ensures Inv(Join(s, s.section.id, s.section.slot, s.section.seen.addr))
  {
    var c := s.section;
    var a := c.seen.addr;
    var s' := Join(s, c.id, c.slot, a);
    assert Holds(s, Relied) && Holds(s, Names);
    var t := s'.trackers[a];
    forall p: Part ensures Holds(s', p) {
      assert Holds(s, p);
      match p
      case Lives => TrackedSame(s.trackers, s.homes, s.buried, s.cut, a, t);
      case Parks => ParkedSame(s.trackers, s.homes, s.accepted, s.ran, a, t);
      case Counts => CountedJoin(s.trackers, s.intents, s.refs, c, c.id, Handle(c.slot, a, t.inc));
      case Names => assert Holds(s, Guards); JoinSlotSide(s);
      case Guards => JoinSlotSide(s);
      case _ =>
    }
  }

  lemma InstallKeeps(s: Table, addr: nat)
    requires Inv(s) && s.section.Locking? && !s.section.seen.Lock? && s.section.slot < |s.slots| && addr !in s.trackers
    ensures Inv(Install(s, s.section.id, s.section.slot, s.section.db, addr))
  {
    var c := s.section;
    var s' := Install(s, c.id, c.slot, c.db, addr);
    var t := s'.trackers[addr];
    assert Holds(s, Relied) && Holds(s, Alive);
    forall p: Part ensures Holds(s', p) {
      assert Holds(s, p);
      match p
      case Lives => TrackedBirth(s.trackers, s.homes, s.buried, s.cut, addr, t);
      case Parks => ParkedBirth(s.trackers, s.homes, s.accepted, s.ran, addr, t);
      case Counts => CountedInstall(s.trackers, s.intents, s.refs, c, c.id, s'.intents[c.id], t);
      case Mints => MintedReword(s.slots, s.sweeps, s.settleGen, c.slot, s'.slots[c.slot]);
      case Guards => assert Holds(s, Lives);
      case Cuts => assert Holds(s, Lives) && Holds(s, Names);
      case Order => assert Holds(s, Parks);
      case _ =>
    }
  }

  lemma CountOutKeeps(s: Table, id: nat)
    requires Inv(s) && s.section.Idle? && id in s.intents
    ensures Inv(CountOut(s, id))
  {
    var s' := CountOut(s, id);
    assert Holds(s, Alive) && Holds(s, Counts);
    var a := s.intents[id].addr;
    var t := s'.trackers[a];
    assert s.trackers[a].holders >= 1 by { assert id in On(s.intents, a); }
    forall p: Part ensures Holds(s', p) {
      assert Holds(s, p);
      if p.Lives? { TrackedSame(s.trackers, s.homes, s.buried, s.cut, a, t); }
      else if p.Parks? { ParkedSame(s.trackers, s.homes, s.accepted, s.ran, a, t); }
      else if p.Counts? { CountedOut(s.trackers, s.intents, s.refs, id, t, s'.section); }
    }
  }

  lemma NamedSettle(slots: seq<SlotWord>, trackers: Trackers, h: Handle, gen: nat)
    requires Named(slots, trackers, Settling(h)) && Live(trackers, h)
    ensures Named(Swap(slots, h.slot, Lock(h.addr, trackers[h.addr].tag), Settled(gen)), trackers, Waking(h))
  {
  }

  lemma GuardedSettle(s: Table, h: Handle)
    requires s.section == Settling(h) && Live(s.trackers, h) && s.trackers[h.addr].holders == 0
    requires Guarded(s.slots, s.trackers, s.intents, s.section, s.cut)
    requires forall id :: id in s.intents ==> s.intents[id].addr != h.addr
    ensures Guarded(Swap(s.slots, h.slot, Lock(h.addr, s.trackers[h.addr].tag), Settled(s.settleGen)), s.trackers,
                    s.intents, Waking(h), s.cut)
  {
  }

  lemma SettleKeeps(s: Table)
    requires Inv(s) && s.section.Settling?
    ensures Inv(SettleOut(s, s.section.h))
  {
    var h := s.section.h;
    var s' := SettleOut(s, h);
    assert Holds(s, Relied) && Holds(s, Wakes);
    forall p: Part ensures Holds(s', p) {
      assert Holds(s, p);
      match p
      case Names => NamedSettle(s.slots, s.trackers, h, s.settleGen);
      case Mints => if h.slot < |s.slots| { MintedSettle(s.slots, s.sweeps, s.settleGen, h.slot); }
      case Guards => assert Holds(s, Counts); NoHolders(s, h.addr); GuardedSettle(s, h);
      case _ =>
    }
  }

  lemma NoHolders(s: Table, addr: nat)
    requires Counted(s.trackers, s.intents, s.refs, s.section) && addr in s.trackers && s.trackers[addr].holders == 0
    ensures forall id :: id in s.intents ==> s.intents[id].addr != addr
  {
    assert forall id :: id in s.intents && s.intents[id].addr == addr ==> id in On(s.intents, addr);
  }

  predicate SameButWaiters(t: Tracker, u: Tracker) { t == u.(woken := t.woken, waiting := t.waiting) }

  /** The parts that do not look at waiters. */
  predicate WaiterBlind(p: Part) { p.Alive? || p.Counts? || p.Names? || p.Guards? || p.Cuts? || p.Mints? }

  lemma WaitersOnly(s: Table, a: nat, t: Tracker, c: Section, p: Part)
    requires a in s.trackers && SameButWaiters(t, s.trackers[a]) && WaiterBlind(p) && Holds(s, p)
    requires c == s.section
          || (!s.section.Settling? && !c.Settling? && forall x :: ReleaseOf(c, x) <==> ReleaseOf(s.section, x))
    ensures Holds(s.(trackers := s.trackers[a := t], section := c), p)
  {
  }

  /** Waking a tracker, from a release or from a cancel. */
  lemma WakeParts(s: Table, addr: nat, c: Section)
    requires Inv(s) && addr in s.trackers
    requires (s.section.Waking? && s.section.h.addr == addr && c == Dropping(s.section.h))
          || (s.section.Unparking? && s.section.addr == addr && c.Cancelling?)
    ensures Inv(Wake(s, addr).(section := c))
  {
    var s' := Wake(s, addr).(section := c);
    var t := s'.trackers[addr];
    assert Holds(s, Relied) && Holds(s, Lives);
    forall p: Part ensures Holds(s', p) {
      assert Holds(s, p);
      if WaiterBlind(p) {
        WaitersOnly(s, addr, t, c, p);
        assert Holds(s.(trackers := s.trackers[addr := t], section := c), p);
      }
      else if p.Lives? { TrackedSame(s.trackers, s.homes, s.buried, s.cut, addr, t); }
      else if p.Parks? { ParkedWake(s.trackers, s.homes, s.accepted, s.ran, addr); }
      else if p.Order? { assert Holds(s, Parks); }
    }
  }

  lemma NamedUnref(s: Table, addr: nat)
    requires Named(s.slots, s.trackers, s.section) && addr in s.trackers && !s.section.Settling?
    requires s.trackers[addr].refcount == 1 ==> s.trackers[addr].holders == 0
    ensures Named(s.slots, Unref(s, addr).trackers, Idle)
  {
  }

  lemma GuardedUnref(s: Table, addr: nat)
    requires Guarded(s.slots, s.trackers, s.intents, s.section, s.cut) && addr in s.trackers && !s.section.Settling?
    requires s.trackers[addr].refcount == 1 ==> forall id :: id in s.intents ==> s.intents[id].addr != addr
    ensures Guarded(s.slots, Unref(s, addr).trackers, s.intents, Idle, s.cut)
  {
  }

  lemma AliveUnref(s: Table, addr: nat, refs: Handles)
    requires AllLive(s.trackers, s.intents) && AllLive(s.trackers, refs) && addr in s.trackers
    requires s.trackers[addr].refcount == 1 ==> |On(s.intents, addr)| == 0 && |On(refs, addr)| == 0
    ensures AllLive(Unref(s, addr).trackers, s.intents) && AllLive(Unref(s, addr).trackers, refs)
  {
    if s.trackers[addr].refcount == 1 {
      forall id | id in s.intents ensures s.intents[id].addr != addr { assert id !in On(s.intents, addr); }
      forall id | id in refs ensures refs[id].addr != addr { assert id !in On(refs, addr); }
    }
  }

  lemma AwakeUnref(s: Table, addr: nat)
    requires Awake(s.trackers, s.section, s.cut) && addr in s.trackers && (s.section.Dropping? || s.section.Idle?)
    ensures Awake(Unref(s, addr).trackers, Idle, s.cut)
  {
  }

  /** A reference to give up: that of the release in progress, or a temporary one. */
  ghost predicate Gives(s: Table, addr: nat, refs: Handles) {
    && addr in s.trackers
    && ((s.section.Dropping? && s.section.h.addr == addr && refs == s.refs)
        || (s.section.Idle? && exists id :: id in s.refs && s.refs[id].addr == addr && refs == s.refs - {id}))
  }

  lemma UnrefKeeps(s: Table, addr: nat, refs: Handles)
    requires Inv(s) && Gives(s, addr, refs)
    ensures Inv(Unref(s, addr).(section := Idle, refs := refs))
  {
    var s' := Unref(s, addr).(section := Idle, refs := refs);
    forall p: Part ensures Holds(s', p) {
      if s.trackers[addr].refcount == 1 { FreeKeeps(s, addr, refs, p); } else { DropKeeps(s, addr, refs, p); }
    }
  }

  lemma FreeKeeps(s: Table, addr: nat, refs: Handles, p: Part)
    requires Inv(s) && Gives(s, addr, refs) && s.trackers[addr].refcount == 1
    ensures Holds(Unref(s, addr).(section := Idle, refs := refs), p)
  {
    assert Holds(s, p) && Holds(s, Counts) && Holds(s, Wakes);
    CountedUnref(s, addr, refs, Idle);
    if p.Lives? { TrackedBury(s.trackers, s.homes, s.buried, s.cut, addr); }
    else if p.Parks? { ParkedBury(s.trackers, s.homes, s.accepted, s.ran, addr); }
    else if p.Alive? { AliveUnref(s, addr, refs); }
    else if p.Names? { NamedUnref(s, addr); }
    else if p.Guards? { NoHolders(s, addr); GuardedUnref(s, addr); }
    else if p.Wakes? { AwakeUnref(s, addr); }
    else if p.Cuts? { assert Holds(s, Names); }
  }

  lemma DropKeeps(s: Table, addr: nat, refs: Handles, p: Part)
    requires Inv(s) && Gives(s, addr, refs) && s.trackers[addr].refcount != 1
    ensures Holds(Unref(s, addr).(section := Idle, refs := refs), p)
  {
    assert Holds(s, p) && Holds(s, Counts);
    var t := Unref(s, addr).trackers[addr];
    if p.Lives? { TrackedSame(s.trackers, s.homes, s.buried, s.cut, addr, t); }
    else if p.Parks? { ParkedSame(s.trackers, s.homes, s.accepted, s.ran, addr, t); }
    else if p.Alive? { AliveUnref(s, addr, refs); }
    else if p.Names? { NamedUnref(s, addr); }
    else if p.Guards? { GuardedUnref(s, addr); }
    else if p.Wakes? { AwakeUnref(s, addr); }
    else if p.Counts? { CountedUnref(s, addr, refs, Idle); }
  }

  lemma TakeRefKeeps(s: Table, id: nat, slot: nat)
    requires Inv(s) && s.section.Idle? && id !in s.refs && slot < |s.slots| && s.slots[slot].Lock?
    ensures Inv(Ref(s, id, slot, s.slots[slot].addr))
  {
    var s' := Ref(s, id, slot, s.slots[slot].addr);
    assert Holds(s, Names);
    var a := s.slots[slot].addr;
    var t := s'.trackers[a];
    forall p: Part ensures Holds(s', p) {
      assert Holds(s, p);
      match p
      case Lives => TrackedSame(s.trackers, s.homes, s.buried, s.cut, a, t);
      case Parks => ParkedSame(s.trackers, s.homes, s.accepted, s.ran, a, t);
      case Counts => CountedTake(s.trackers, s.intents, s.refs, id, s'.refs[id]);
      case _ =>
    }
  }

  lemma AddWakeKeeps(s: Table, id: nat, callback: nat)
    requires Inv(s) && id in s.refs && callback !in s.accepted
    ensures Inv(Park(s, s.refs[id], callback))
  {
    var s' := Park(s, s.refs[id], callback);
    assert Holds(s, Alive) && Holds(s, Lives);
    var a := s.refs[id].addr;
    if !s.trackers[a].woken {
      var t := s'.trackers[a];
      forall p: Part ensures Holds(s', p) {
        assert Holds(s, p);
        if WaiterBlind(p) {
          WaitersOnly(s, a, t, s.section, p);
          assert Holds(s.(trackers := s.trackers[a := t], section := s.section), p);
        }
        else if p.Lives? { TrackedSame(s.trackers, s.homes, s.buried, s.cut, a, t); }
        else if p.Parks? { ParkedAccept(s.trackers, s.homes, s.accepted, s.ran, a, callback); }
        else if p.Order? { assert Holds(s, Parks); }
      }
    }
  }

  lemma GuardedCut(s: Table, i: nat)
    requires i < |s.slots| && s.slots[i].Lock? && s.slots[i].addr in s.trackers && s.section.Cancelling?
    requires Guarded(s.slots, s.trackers, s.intents, s.section, s.cut) && AllLive(s.trackers, s.intents)
    ensures Guarded(s.slots[i := Settled(s.settleGen)], s.trackers, s.intents,
                    Unparking(s.section.db, i, s.slots[i].addr),
                    s.cut + {s.trackers[s.slots[i].addr].inc})
  {
  }

  lemma VisitKeeps(s: Table)
    requires Inv(s) && s.section.Cancelling?
    ensures Inv(Visit(s, s.section.db, s.section.next))
  {
    var i := s.section.next;
    var s' := Visit(s, s.section.db, i);
    assert Holds(s, Names);
    if !s'.section.Unparking? {
      SectionOnlyKeeps(s, s'.section);
    } else {
      CutKeeps(s, i);
      assert s' == CutAt(s, i);
    }
  }

  function CutAt(s: Table, i: nat): Table
    requires i < |s.slots| && s.slots[i].Lock? && s.slots[i].addr in s.trackers && s.section.Cancelling?
  {
    var a := s.slots[i].addr;
    s.(slots := s.slots[i := Settled(s.settleGen)], settleGen := s.settleGen + 1,
       section := Unparking(s.section.db, i, a), cut := s.cut + {s.trackers[a].inc})
  }

  lemma CutKeeps(s: Table, i: nat)
    requires Inv(s) && s.section.Cancelling? && i < |s.slots| && s.slots[i].Lock? && s.slots[i].addr in s.trackers
    ensures Inv(CutAt(s, i))
  {
    var s' := CutAt(s, i);
    forall p: Part ensures Holds(s', p) {
      assert Holds(s, p);
      if p.Mints? { MintedSettle(s.slots, s.sweeps, s.settleGen, i); }
      else if p.Guards? { assert Holds(s, Alive); GuardedCut(s, i); }
      else if p.Cuts? { assert Holds(s, Lives) && Holds(s, Names); UncutCut(s, i); }
    }
  }

  lemma UncutCut(s: Table, i: nat)
    requires i < |s.slots| && s.slots[i].Lock? && s.slots[i].addr in s.trackers
    requires Uncut(s.slots, s.trackers, s.cut) && Named(s.slots, s.trackers, s.section)
    requires Tracked(s.trackers, s.homes, s.buried, s.cut)
    ensures Uncut(s.slots[i := Settled(s.settleGen)], s.trackers, s.cut + {s.trackers[s.slots[i].addr].inc})
  {
  }

  lemma SectionOnlyKeeps(s: Table, c: Section)
    requires Inv(s) && (s.section.Idle? || s.section.Cancelling?)
    requires c.Idle? || c.Cancelling?
          || (c.Locking? && c.slot < |s.slots| && c.id !in s.intents && c.seen == s.slots[c.slot])
    ensures Inv(s.(section := c))
  {
    var s' := s.(section := c);
    forall p: Part ensures Holds(s', p) { assert Holds(s, p); }
  }

  lemma LockFreeKeeps(s: Table, a: Step)
    requires Inv(s) && Can(s, a)
    requires a.Populate? || a.SweepStart? || a.SweepLoad? || a.SweepCas?
    ensures Inv(Do(s, a))
  {
    if a.Populate? { PublishKeeps(s, a.slot, a.observed, a.version); }
    else if a.SweepStart? { SweepStartKeeps(s, a.id); }
    else if a.SweepLoad? { LoadSweptKeeps(s, a.id, s.sweeps[a.id]); }
    else { CasSweptKeeps(s, a.id, s.sweeps[a.id]); }
  }

  lemma LoadSweptKeeps(s: Table, id: nat, w: Sweep)
    requires Inv(s) && id in s.sweeps && s.sweeps[id] == w && w.next < |s.slots| && !w.loaded
    ensures Inv(LoadSwept(s, id, w))
  {
    if s.slots[w.next].Lock? { SweepMoveKeeps(s, id, w.(next := w.next + 1)); }
    else { SweepMoveKeeps(s, id, w.(loaded := true, seen := s.slots[w.next])); }
  }

  lemma CasSweptKeeps(s: Table, id: nat, w: Sweep)
    requires Inv(s) && id in s.sweeps && s.sweeps[id] == w && w.next < |s.slots| && w.loaded
    ensures Inv(CasSwept(s, id, w))
  {
    assert Holds(s, Mints);
    var v := s.slots[w.next];
    if v == w.seen { SweepVisitKeeps(s, id); }
    else if v.Lock? { SweepMoveKeeps(s, id, w.(next := w.next + 1, loaded := false)); }
    else { SweepMoveKeeps(s, id, w.(seen := v)); }
  }

  lemma ReleaseKeeps(s: Table, a: Step)
    requires Inv(s) && Can(s, a)
    requires a.ReleaseCount? || a.ReleaseSettle? || a.ReleaseWake? || a.ReleaseDrop?
    ensures Inv(Do(s, a))
  {
    var c := s.section;
    assert Holds(s, Relied);
    match a
    case ReleaseCount(id) => CountOutKeeps(s, id);
    case ReleaseSettle => SettleKeeps(s);
    case ReleaseWake => WakeParts(s, c.h.addr, Dropping(c.h));
    case ReleaseDrop => UnrefKeeps(s, c.h.addr, s.refs);
  }

  lemma StepKeeps(s: Table, a: Step)
    requires Inv(s) && Can(s, a)
    ensures Inv(Do(s, a))
  {
    var c := s.section;
    match a
    case LockLoad(id, slot, db) => SectionOnlyKeeps(s, Locking(id, slot, db, s.slots[slot]));
    case LockStore(addr) =>
      assert Holds(s, Relied);
      if c.seen.Lock? { JoinKeeps(s); } else { InstallKeeps(s, addr); }
    case TakeRef(id, slot) => if s.slots[slot].Lock? { TakeRefKeeps(s, id, slot); }
    case DropRef(id) => assert Holds(s, Alive); UnrefKeeps(s, s.refs[id].addr, s.refs - {id});
    case AddWake(id, callback) => AddWakeKeeps(s, id, callback);
    case CancelStart(db) => SectionOnlyKeeps(s, Cancelling(db, 0));
    case CancelVisit => VisitKeeps(s);
    case CancelWake => assert Holds(s, Relied); WakeParts(s, c.addr, Cancelling(c.db, c.next + 1));
    case Populate(slot, observed, version) => LockFreeKeeps(s, a);
    case SweepStart(id) => LockFreeKeeps(s, a);
    case SweepLoad(id) => LockFreeKeeps(s, a);
    case SweepCas(id) => LockFreeKeeps(s, a);
    case _ => ReleaseKeeps(s, a);
  }

  // ---- Whole runs

  lemma InitialHolds(n: nat)
    ensures Inv(Initial(n))
  {
    var s := Initial(n);
    forall p: Part ensures Holds(s, p) {}
  }

  lemma {:induction false} RunKeeps(s: Table, run: seq<Step>, s': Table)
    requires Inv(s) && Runs(s, run, s')
    ensures Inv(s')
    decreases |run|
  {
    if run != [] {
      StepKeeps(s, run[0]);
      RunKeeps(Do(s, run[0]), run[1..], s');
    }
  }

  /** In every run, cancels included: no freed tracker is ever touched; counts
  are exact; a lock word names a live tracker of its own slot that is held or
  just being released by its last holder; and each allocation is either live,
  or freed exactly once. */
  lemma TrackerLifetime(n: nat, run: seq<Step>, s: Table)
    requires Runs(Initial(n), run, s)
    ensures !s.fault
    ensures forall a :: a in s.trackers ==>
              && s.trackers[a].holders == |On(s.intents, a)|
              && s.trackers[a].refcount
                 == |On(s.intents, a)| + |On(s.refs, a)| + (if ReleaseOf(s.section, a) then 1 else 0) >= 1
    ensures forall i :: 0 <= i < |s.slots| && s.slots[i].Lock? ==>
              s.slots[i].addr in s.trackers && NamesHeld(s.trackers[s.slots[i].addr], i, s.slots[i], s.section)
    ensures NoRepeat(s.buried)
    ensures forall k: nat :: k < |s.homes| ==> (k in s.buried <==> !AtHome(s.trackers, s.homes, k))
  {
    InitialHolds(n);
    RunKeeps(Initial(n), run, s);
    assert Holds(s, Alive) && Holds(s, Counts) && Holds(s, Names) && Holds(s, Lives);
  }

  /** In every run, a held intent's slot holds its lock word if and only if no
  cancel has settled that tracker; so without cancels the slot stays locked from
  the first holder's install to the last holder's release, whatever publishes
  and sweeps run in between. */
  lemma HeldSlotStaysLocked(n: nat, run: seq<Step>, s: Table, id: nat)
    requires Runs(Initial(n), run, s) && id in s.intents
    ensures LockedBy(s.slots, s.trackers, s.intents[id]) <==> s.intents[id].inc !in s.cut
  {
    InitialHolds(n);
    RunKeeps(Initial(n), run, s);
    assert Holds(s, Alive) && Holds(s, Guards) && Holds(s, Cuts);
  }

  /** In every run, an accepted callback has run at most once; it has run once its
  tracker is gone or has no holder left (outside the release in progress); and
  it has not run while a holder remains, unless a cancel woke the tracker. */
  lemma WakeExactlyOnce(n: nat, run: seq<Step>, s: Table, callback: nat)
    requires Runs(Initial(n), run, s) && callback in s.accepted
    ensures NoRepeat(s.ran)
    ensures var inc := s.accepted[callback];
            && inc < |s.homes|
            && (inc in s.buried ==> callback in s.ran)
            && (AtHome(s.trackers, s.homes, inc) && On(s.intents, s.homes[inc]) == {}
                && !Ending(s.section, s.homes[inc]) ==>
                  callback in s.ran)
            && (callback in s.ran && inc !in s.cut ==> forall id :: id in s.intents ==> s.intents[id].inc != inc)
  {
    InitialHolds(n);
    RunKeeps(Initial(n), run, s);
    assert Holds(s, Parks) && Holds(s, Lives) && Holds(s, Wakes) && Holds(s, Counts);
    var inc := s.accepted[callback];
    var a := s.homes[inc];
    if callback in s.ran && inc !in s.cut {
      assert Holds(s, Order) && Holds(s, Alive);
      forall id | id in s.intents ensures s.intents[id].inc != inc {
        assert id in On(s.intents, s.intents[id].addr);
      }
    }
  }

  /** Only a cancel of the database that installed a tracker cuts it. */
  lemma OnlyCancelCuts(s: Table, a: Step, inc: nat)
    requires Can(s, a) && inc !in s.cut && inc in Do(s, a).cut
    ensures a.CancelVisit? && s.section.next < |s.slots| && s.slots[s.section.next].Lock?
    ensures var addr := s.slots[s.section.next].addr;
            addr in s.trackers && s.trackers[addr].inc == inc && s.trackers[addr].db == s.section.db
  {
    if a.CancelVisit? { VisitCuts(s, s.section.db, s.section.next, inc); } else { CutStays(s, a); }
  }

  lemma VisitCuts(s: Table, db: nat, i: nat, inc: nat)
    requires inc !in s.cut && inc in Visit(s, db, i).cut
    ensures i < |s.slots| && s.slots[i].Lock? && s.slots[i].addr in s.trackers
    ensures s.trackers[s.slots[i].addr].inc == inc && s.trackers[s.slots[i].addr].db == db
  {
  }

  lemma CutStays(s: Table, a: Step)
    requires Can(s, a) && !a.CancelVisit?
    ensures Do(s, a).cut == s.cut
  {
    if a.LockLoad? || a.LockStore? || a.ReleaseCount? || a.ReleaseSettle? || a.ReleaseWake? || a.ReleaseDrop? {
      WriterKeepsCut(s, a);
    }
  }

  lemma WriterKeepsCut(s: Table, a: Step)
    requires Can(s, a)
    requires a.LockLoad? || a.LockStore? || a.ReleaseCount? || a.ReleaseSettle? || a.ReleaseWake? || a.ReleaseDrop?
    ensures Do(s, a).cut == s.cut
  {
  }

  predicate Cancels(c: Section) { c.Cancelling? || c.Unparking? }

  lemma NoCancelBegins(t: Table, a: Step)
    requires !Cancels(t.section) && Can(t, a) && !a.CancelStart?
    ensures !Cancels(Do(t, a).section) && Do(t, a).cut == t.cut
  {
    CutStays(t, a);
  }

  /** A run in which no cancel starts cuts nothing, */
  lemma {:induction false} UncancelledRunCutsNothing(s: Table, run: seq<Step>, s': Table)
    requires Runs(s, run, s') && !Cancels(s.section) && forall i :: 0 <= i < |run| ==> !run[i].CancelStart?
    ensures s'.cut == s.cut && !Cancels(s'.section)
    decreases |run|
  {
    if run != [] {
      NoCancelBegins(s, run[0]);
      UncancelledRunCutsNothing(Do(s, run[0]), run[1..], s');
    }
  }

  /** Trackers keep their allocation and installer; a new one is a new allocation. */
  ghost predicate Origins(t: Trackers, t': Trackers, n: nat) {
    forall x :: x in t' ==> (x in t && t'[x].inc == t[x].inc && t'[x].db == t[x].db) || t'[x].inc == n
  }

  lemma UpdateOrigins(t: Trackers, a: nat, u: Tracker, n: nat)
    requires u.inc == n || (a in t && u.inc == t[a].inc && u.db == t[a].db)
    ensures Origins(t, t, n) && Origins(t, t - {a}, n) && Origins(t, t[a := u], n)
  {
  }

  lemma LockOrigins(s: Table, addr: nat)
    requires s.section.Locking?
    ensures Origins(s.trackers, StoreLock(s, addr).trackers, |s.homes|)
  {
    var c, s' := s.section, StoreLock(s, addr);
    if c.seen.Lock? && c.seen.addr in s.trackers {
      UpdateOrigins(s.trackers, c.seen.addr, s'.trackers[c.seen.addr], |s.homes|);
    } else if !c.seen.Lock? && c.slot < |s.slots| {
      UpdateOrigins(s.trackers, addr, s'.trackers[addr], |s.homes|);
    }
  }

  lemma CountOrigins(s: Table, id: nat)
    requires id in s.intents
    ensures Origins(s.trackers, CountOut(s, id).trackers, |s.homes|)
  {
    var a := s.intents[id].addr;
    if a in s.trackers { UpdateOrigins(s.trackers, a, CountOut(s, id).trackers[a], |s.homes|); }
  }

  lemma WakeOrigins(s: Table, addr: nat)
    requires addr in s.trackers
    ensures Origins(s.trackers, Wake(s, addr).trackers, |s.homes|)
  {
    UpdateOrigins(s.trackers, addr, Wake(s, addr).trackers[addr], |s.homes|);
  }

  lemma UnrefOrigins(s: Table, addr: nat)
    requires addr in s.trackers
    ensures Origins(s.trackers, Unref(s, addr).trackers, |s.homes|)
  {
    var t := s.trackers[addr];
    UpdateOrigins(s.trackers, addr, t.(refcount := t.refcount - 1), |s.homes|);
  }

  lemma RefOrigins(s: Table, id: nat, slot: nat, addr: nat)
    ensures Origins(s.trackers, Ref(s, id, slot, addr).trackers, |s.homes|)
  {
    if addr in s.trackers { UpdateOrigins(s.trackers, addr, Ref(s, id, slot, addr).trackers[addr], |s.homes|); }
  }

  lemma ParkOrigins(s: Table, h: Handle, callback: nat)
    ensures Origins(s.trackers, Park(s, h, callback).trackers, |s.homes|)
  {
    if h.addr in s.trackers { UpdateOrigins(s.trackers, h.addr, Park(s, h, callback).trackers[h.addr], |s.homes|); }
  }


  lemma OriginsKept(s: Table, a: Step)
    requires Can(s, a)
    ensures Origins(s.trackers, Do(s, a).trackers, |s.homes|)
  {
    if a.LockStore? { LockOrigins(s, a.addr); }
    else if a.ReleaseCount? { CountOrigins(s, a.id); }
    else if a.ReleaseWake? || a.ReleaseDrop? { ReleaseOrigins(s, a); }
    else { OtherOrigins(s, a); }
  }

  lemma ReleaseOrigins(s: Table, a: Step)
    requires Can(s, a) && (a.ReleaseWake? || a.ReleaseDrop?)
    ensures Origins(s.trackers, Do(s, a).trackers, |s.homes|)
  {
    var addr := s.section.h.addr;
    if addr in s.trackers {
      if a.ReleaseWake? { WakeOrigins(s, addr); } else { UnrefOrigins(s, addr); }
    }
  }

  lemma OtherOrigins(s: Table, a: Step)
    requires Can(s, a) && !a.LockStore? && !a.ReleaseCount? && !a.ReleaseWake? && !a.ReleaseDrop?
    ensures Origins(s.trackers, Do(s, a).trackers, |s.homes|)
  {
    if a.TakeRef? { if s.slots[a.slot].Lock? { RefOrigins(s, a.id, a.slot, s.slots[a.slot].addr); } }
    else if a.DropRef? { if s.refs[a.id].addr in s.trackers { UnrefOrigins(s, s.refs[a.id].addr); } }
    else if a.AddWake? { ParkOrigins(s, s.refs[a.id], a.callback); }
    else if a.CancelWake? { if s.section.addr in s.trackers { WakeOrigins(s, s.section.addr); } }
  }

  lemma SectionStill(s: Table, a: Step)
    requires Can(s, a) && Cancels(s.section) && !a.CancelVisit? && !a.CancelWake?
    ensures Do(s, a).section == s.section
  {
  }

  lemma VisitSection(s: Table, db: nat, i: nat)
    requires s.section.Cancelling? && s.section.db == db
    ensures Cancels(Visit(s, db, i).section) ==> Visit(s, db, i).section.db == db
  {
  }

  lemma CancelSection(s: Table, a: Step)
    requires Can(s, a) && Cancels(Do(s, a).section)
    ensures (a.CancelStart? && Do(s, a).section.db == a.db)
         || (Cancels(s.section) && Do(s, a).section.db == s.section.db)
  {
    if Cancels(s.section) {
      if a.CancelVisit? { VisitSection(s, s.section.db, s.section.next); }
      else if !a.CancelWake? { SectionStill(s, a); }
    } else if !a.CancelStart? {
      NoCancelBegins(s, a);
    }
  }

  /** Only cancels of these databases have cut anything or are under way. */
  ghost predicate Blamed(s: Table, dbs: set<nat>) {
    && (Cancels(s.section) ==> s.section.db in dbs)
    && forall a :: a in s.trackers && s.trackers[a].inc in s.cut ==> s.trackers[a].db in dbs
  }

  lemma BlamedStep(s: Table, a: Step, dbs: set<nat>)
    requires Inv(s) && Can(s, a) && Blamed(s, dbs) && (a.CancelStart? ==> a.db in dbs)
    ensures Blamed(Do(s, a), dbs)
  {
    var s' := Do(s, a);
    assert Holds(s, Lives);
    if Cancels(s'.section) { CancelSection(s, a); }
    OriginsKept(s, a);
    forall x | x in s'.trackers && s'.trackers[x].inc in s'.cut ensures s'.trackers[x].db in dbs {
      if s'.trackers[x].inc !in s.cut { OnlyCancelCuts(s, a, s'.trackers[x].inc); }
    }
  }

  lemma {:induction false} BlamedRun(s: Table, run: seq<Step>, s': Table, dbs: set<nat>)
    requires Inv(s) && Runs(s, run, s') && Blamed(s, dbs)
    requires forall i :: 0 <= i < |run| && run[i].CancelStart? ==> run[i].db in dbs
    ensures Blamed(s', dbs)
    decreases |run|
  {
    if run != [] {
      StepKeeps(s, run[0]);
      BlamedStep(s, run[0], dbs);
      BlamedRun(Do(s, run[0]), run[1..], s', dbs);
    }
  }

  /** In every run, an intent's slot holds its lock word for as long as the intent
  is held, unless the database that installed its tracker has been cancelled. */
  lemma HeldUnlessInstallerCancelled(n: nat, run: seq<Step>, s: Table, id: nat)
    requires Runs(Initial(n), run, s) && id in s.intents
    ensures s.intents[id].addr in s.trackers
    ensures CancelStart(s.trackers[s.intents[id].addr].db) !in run ==> LockedBy(s.slots, s.trackers, s.intents[id])
  {
    InitialHolds(n);
    RunKeeps(Initial(n), run, s);
    assert Holds(s, Alive);
    HeldSlotStaysLocked(n, run, s, id);
    var dbs := set i | 0 <= i < |run| && run[i].CancelStart? :: run[i].db;
    BlamedRun(Initial(n), run, s, dbs);
    assert forall db :: db in dbs ==> CancelStart(db) in run;
  }

  /** A writer of another database that joined the tracker loses its lock to such
  a cancel while it still holds its intent. */
  lemma CancelUnlocksJoiners(n: nat, installer: nat, joiner: nat)
    requires n > 0 && installer != joiner
    ensures exists run, s ::
              && Runs(Initial(n), run, s)
              && LockLoad(1, 0, joiner) in run
              && (forall db :: CancelStart(db) in run ==> db == installer)
              && 1 in s.intents && s.intents[1].slot == 0 && |s.slots| == n && s.slots[0].Settled?
  {
    var run := [LockLoad(0, 0, installer), LockStore(7), LockLoad(1, 0, joiner), LockStore(8),
                CancelStart(installer), CancelVisit];
    var s2 := InstallFirst(n, installer);
    assert run[2..] == [run[2], run[3], run[4], run[5]] && run[1..][1..] == run[2..];
    var s := JoinedAndCancelled(s2, installer, joiner);
    assert Runs(Do(Initial(n), run[0]), run[1..], s);
    assert Runs(Initial(n), run, s) && LockLoad(1, 0, joiner) == run[2];
  }

  lemma JoinedAndCancelled(s: Table, installer: nat, joiner: nat) returns (s': Table)
    requires |s.slots| > 0 && s.slots[0] == Lock(7, 0) && s.section.Idle? && 1 !in s.intents && 8 !in s.trackers
    requires 7 in s.trackers && s.trackers[7].db == installer
    ensures Runs(s, [LockLoad(1, 0, joiner), LockStore(8), CancelStart(installer), CancelVisit], s')
    ensures 1 in s'.intents && s'.intents[1].slot == 0 && |s'.slots| == |s.slots| && s'.slots[0].Settled?
  {
    var run := [LockLoad(1, 0, joiner), LockStore(8), CancelStart(installer), CancelVisit];
    var mid := Do(Do(s, run[0]), run[1]);
    s' := JoinedThenCancelled(mid, installer);
    assert run[1..][1..] == [CancelStart(installer), CancelVisit];
    assert Runs(Do(s, run[0]), run[1..], s');
  }

  lemma InstallFirst(n: nat, db: nat) returns (s: Table)
    requires n > 0
    ensures s == Do(Do(Initial(n), LockLoad(0, 0, db)), LockStore(7))
    ensures |s.slots| == n && s.slots[0] == Lock(7, 0) && s.section.Idle? && 1 !in s.intents && 8 !in s.trackers
    ensures 7 in s.trackers && s.trackers[7].db == db
  {
    s := Do(Do(Initial(n), LockLoad(0, 0, db)), LockStore(7));
  }

  lemma JoinedThenCancelled(s: Table, db: nat) returns (s': Table)
    requires s.section.Idle? && |s.slots| > 0 && s.slots[0] == Lock(7, 0) && 7 in s.trackers && s.trackers[7].db == db
    ensures Runs(s, [CancelStart(db), CancelVisit], s') && |s'.slots| == |s.slots| && s'.slots[0].Settled?
            && s'.intents == s.intents
  {
    var s1 := Do(s, CancelStart(db));
    s' := Do(s1, CancelVisit);
    assert [CancelStart(db), CancelVisit][1..] == [CancelVisit] && [CancelVisit][1..] == [];
    assert Runs(s1, [CancelVisit], s');
  }
}
