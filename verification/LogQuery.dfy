/** The iterator of the log query: scanning for an entry, and `next`. */
module LogQuery {
  import opened Bytes
  import opened LogFormat
  import opened LogReader
  import opened LogCursor

  datatype Answer = Yield(timestamp: nat, endTxn: bool, data: seq<byte>) | Finished | Corrupt

  function Shown(e: LogEntry): Answer { Yield(e.timestamp, e.flags % 2 == 1, e.data) }

  // ---- Reading an entry

  datatype Fetched = Got(entry: LogEntry) | Ended | Bad

  /** The loads and bound checks at `position`. */
  function Fetch(bytes: seq<byte>, position: nat, size: nat): Fetched {
    if position + 8 > |bytes| then Bad
    else
      var timestamp := ReadUint64BE(bytes[position..position + 8]);
      if Falsy(timestamp) then Ended
      else
        var limit := if size < |bytes| then size else |bytes|;
        if position + ENTRY_HEADER > limit then Bad
        else
          var length := ReadUint32BE(bytes[position + 8..position + 12]);
          var start := position + ENTRY_HEADER;
          if start + length > limit then Bad
          else Got(LogEntry(timestamp, bytes[position + 12], bytes[start..start + length]))
  }

  /** Below a bound that is an entry boundary the fetch always finds the entry that
  belongs there; below one that cuts that entry it always fails. */
  lemma FetchAt(log: seq<LogFile>, c: nat, i: nat, size: nat)
    requires ValidStore(log) && c < |log| && i < |log[c].entries| && Offset(log[c].entries, i) < size
    ensures Fetch(log[c].bytes, Offset(log[c].entries, i), size)
            == if Offset(log[c].entries, i + 1) <= size then Got(log[c].entries[i]) else Bad
  {
    assert ValidFile(log[c]);
    EntryAt(log[c], i);
    LoadsAt(log[c].bytes, Offset(log[c].entries, i), log[c].entries[i]);
  }

  lemma FetchFinds(log: seq<LogFile>, s: Spot, m: Mark)
    requires ValidStore(log) && Stands(log, s, m) && s.position < s.size
    ensures m.index < m.upto
    ensures Fetch(log[s.logId].bytes, s.position, s.size) == Got(log[s.logId].entries[m.index])
  {
    var es := log[s.logId].entries;
    OffsetBelow(es, m.index, m.upto);
    OffsetsOrdered(es, m.index, m.upto);
    FetchAt(log, s.logId, m.index, s.size);
  }

  /** Where a zero timestamp is found the data has ended. */
  lemma FetchEnds(bytes: seq<byte>, position: nat, size: nat)
    requires position + 8 <= |bytes| && bytes[position..position + 8] == Zeros(8)
    ensures Fetch(bytes, position, size) == Ended
  {
    assert ReadUint64BE(Zeros(8)) == 0;
  }

  /** What was yielded is what lies in the mapped bytes right before the cursor: the
  timestamp, the flag byte's lowest bit, and the data up to where it stands. */
  predicate JustRead(log: seq<LogFile>, a: Answer, s: Spot, m: Mark)
    requires Stands(log, s, m)
  {
    && a.Yield? && m.index > 0
    && var bytes, at := log[s.logId].bytes, Offset(log[s.logId].entries, m.index - 1);
    && at + ENTRY_HEADER <= s.position <= |bytes|
    && a.timestamp == ReadUint64BE(bytes[at..at + 8])
    && (a.endTxn <==> bytes[at + 12] % 2 == 1)
    && a.data == bytes[at + ENTRY_HEADER..s.position]
  }

  lemma ShownIsJustRead(log: seq<LogFile>, s: Spot, m: Mark)
    requires ValidStore(log) && Stands(log, s, m) && m.index > 0
    ensures JustRead(log, Shown(log[s.logId].entries[m.index - 1]), s, m)
  {
    var f, i := log[s.logId], m.index - 1;
    assert ValidFile(f);
    EntryAt(f, i);
    ReadBefore(f.bytes, Offset(f.entries, i), f.entries[i], s.position);
  }

  lemma ReadBefore(bytes: seq<byte>, at: nat, e: LogEntry, end: nat)
    requires Fits(e) && end == at + ENTRY_HEADER + |e.data| <= |bytes| && bytes[at..end] == PrintEntry(e)
    ensures Shown(e).timestamp == ReadUint64BE(bytes[at..at + 8])
    ensures Shown(e).endTxn <==> bytes[at + 12] % 2 == 1
    ensures Shown(e).data == bytes[at + ENTRY_HEADER..end]
  {
    LoadsAt(bytes, at, e);
  }

  /** Past the entry it stands before. */
  function Passed(s: Spot, length: nat): Spot { s.(position := s.position + ENTRY_HEADER + length) }

  lemma PassStands(log: seq<LogFile>, s: Spot, m: Mark)
    requires ValidStore(log) && Stands(log, s, m) && s.position < s.size && m.index < m.upto
    ensures var r, n := Passed(s, |log[s.logId].entries[m.index].data|), m.(index := m.index + 1);
            && Stands(log, r, n) && Count(log, r, n) == Count(log, s, m) + 1
            && (r.position >= r.size ==> n.index == n.upto)
    ensures Count(log, s, m) < |Flat(log)| && Flat(log)[Count(log, s, m)] == log[s.logId].entries[m.index]
  {
    EntryInLog(log, s.logId, m.index);
    OffsetBelow(log[s.logId].entries, m.index + 1, m.upto);
  }

  // ---- Scanning for an entry the query asks for

  predicate MatchesAll(matches: nat -> bool, log: seq<LogFile>) {
    forall c, i :: 0 <= c < |log| && 0 <= i < |log[c].entries| ==> matches(log[c].entries[i].timestamp)
  }

  predicate NoneMatch(matches: nat -> bool, es: seq<LogEntry>, lo: nat, hi: nat) {
    lo <= hi <= |es| && forall j :: lo <= j < hi ==> !matches(es[j].timestamp)
  }

  /** The store and the last committed position, as a call finds them. */
  datatype Moment = Moment(log: seq<LogFile>, at: Commit)

  predicate Possible(now: Moment) { ValidStore(now.log) && CommittedAt(now.log, now.at) }

  predicate Follows(a: Moment, b: Moment) { Grows(a.log, b.log) && Later(a.at, b.at) }

  /** A query and what it finds: which timestamps it asks for, which files map. */
  datatype Query = Query(matches: nat -> bool, maps: nat -> bool)

  /** The cursor stands in the store and may read nothing uncommitted. */
  predicate Placed(now: Moment, s: Spot, m: Mark) { Stands(now.log, s, m) && Within(now.log, now.at, s, m) }

  /** What a scan needs to be exact: the query asks for everything, or the store is
  quiet, its files can be mapped, no cached size is old and the cursor may read its
  file to the end. */
  ghost predicate Exact(q: Query, now: Moment, sizes: Sizes, s: Spot, m: Mark)
    requires s.logId < |now.log| && now.at.last < |now.log|
  {
    || MatchesAll(q.matches, now.log)
    || (&& Quiet(now.log, now.at) && UpToDate(sizes, now.log) && Full(now.log, now.at, s, m)
        && forall c :: q.maps(c))
  }

  /** Reads the entry the cursor stands before and moves past it. */
  method Take(s: Spot, now: Moment, ghost m: Mark) returns (f: Fetched, r: Spot, ghost n: Mark)
    requires Possible(now) && Placed(now, s, m) && s.position < s.size
    ensures f.Got? && m.index < |now.log[s.logId].entries|
    ensures Placed(now, r, n) && Count(now.log, r, n) == Count(now.log, s, m) + 1 <= |Flat(now.log)|
    ensures Count(now.log, r, n) <= Committed(now.log, now.at)
    ensures f.entry == Flat(now.log)[Count(now.log, s, m)] && f.entry == now.log[s.logId].entries[m.index]
    ensures r.logId == s.logId && n == m.(index := m.index + 1) && r.size == s.size
    ensures r.position >= r.size ==> n.index == n.upto
  {
    FetchFinds(now.log, s, m);
    PassStands(now.log, s, m);
    ReadableIsCommitted(now.log, now.at, s.logId, m.index + 1);
    f, r, n := Fetch(now.log[s.logId].bytes, s.position, s.size), s, m.(index := m.index + 1);
    if f.Got? { r := Passed(s, |f.entry.data|); }
  }

  datatype Turned = Found(entry: LogEntry) | GoOn | Stuck(answer: Answer)

  /** One turn of the loop: the entry here is found, or it does not match. */
  method Turn(s: Spot, now: Moment, q: Query, sizes: Sizes, ghost m: Mark)
    returns (t: Turned, r: Spot, known: Sizes, ghost n: Mark)
    requires Possible(now) && Placed(now, s, m) && Exact(q, now, sizes, s, m) && s.position < s.size
    ensures Placed(now, r, n) && Count(now.log, r, n) == Count(now.log, s, m) + 1 <= |Flat(now.log)|
    ensures Count(now.log, r, n) <= Committed(now.log, now.at)
    ensures Exact(q, now, known, r, n) && !t.Stuck? && (MatchesAll(q.matches, now.log) ==> known == sizes)
    ensures var e := Flat(now.log)[Count(now.log, s, m)]; t == if q.matches(e.timestamp) then Found(e) else GoOn
    ensures t.GoOn? && r.position >= r.size ==> Waits(now.log, now.at, q.maps, r, n)
    ensures r.logId > s.logId || (r.logId == s.logId && n.index > m.index)
    ensures t.Found? ==> n.index > 0 && t.entry == now.log[r.logId].entries[n.index - 1]
  {
    var f, stop;
    known := sizes;
    f, r, n := Take(s, now, m);
    match f
    case Bad => t := Stuck(Corrupt);
    case Ended => t := Stuck(Finished);
    case Got(e) =>
      if q.matches(e.timestamp) { return Found(e), r, known, n; }
      AdvancedStands(r, now.log, now.at, q.maps, sizes, n);
      ghost var before := r;
      stop, r, known := Advance(r, now.log, now.at, q.maps, sizes);
      n := if r.logId == before.logId then n else MarkAt(now.log, now.at, before, n, r);
      t := if stop then Stuck(Finished) else GoOn;
  }

  method Scan(s: Spot, now: Moment, q: Query, sizes: Sizes, ghost m: Mark)
    returns (a: Answer, r: Spot, known: Sizes, ghost n: Mark)
    requires Possible(now) && Placed(now, s, m) && Exact(q, now, sizes, s, m)
    requires s.position >= s.size ==> Waits(now.log, now.at, q.maps, s, m)
    ensures Placed(now, r, n) && Exact(q, now, known, r, n)
    ensures MatchesAll(q.matches, now.log) ==> known == sizes
    ensures Scanned(a, q.matches, Flat(now.log), Count(now.log, s, m), Count(now.log, r, n))
    ensures Count(now.log, r, n) == Count(now.log, s, m) || Count(now.log, r, n) <= Committed(now.log, now.at)
    ensures a.Finished? ==> Waits(now.log, now.at, q.maps, r, n)
    ensures a.Yield? ==> JustRead(now.log, a, r, n)
  {
    r, known, n := s, sizes, m;
    CountWithin(now.log, r, n);
    while r.position < r.size
      invariant Placed(now, r, n)
      invariant NoneMatch(q.matches, Flat(now.log), Count(now.log, s, m), Count(now.log, r, n))
      invariant Count(now.log, r, n) == Count(now.log, s, m) || Count(now.log, r, n) <= Committed(now.log, now.at)
      invariant Exact(q, now, known, r, n) && (MatchesAll(q.matches, now.log) ==> known == sizes)
      invariant r.position >= r.size ==> Waits(now.log, now.at, q.maps, r, n)
      decreases |now.log| - r.logId, |now.log[r.logId].entries| - n.index
    {
      var t;
      t, r, known, n := Turn(r, now, q, known, n);
      match t
      case Stuck(answer) => return answer, r, known, n;
      case Found(e) =>
        ShownIsJustRead(now.log, r, n);
        return Shown(e), r, known, n;
      case GoOn =>
    }
    return Finished, r, known, n;
  }

  /** The answer is the next entry asked for, or there is none up to `hi`. */
  predicate Scanned(a: Answer, matches: nat -> bool, es: seq<LogEntry>, lo: nat, hi: nat) {
    match a
    case Corrupt => false
    case Finished => NoneMatch(matches, es, lo, hi)
    case Yield(_, _, _) =>
      lo < hi <= |es| && NoneMatch(matches, es, lo, hi - 1) && matches(es[hi - 1].timestamp) && a == Shown(es[hi - 1])
  }

  // ---- The iterator

  /** The entries a query asks for. */
  function Select(matches: nat -> bool, es: seq<LogEntry>): (r: seq<LogEntry>) {
    if es == [] then []
    else
      var e := es[|es| - 1];
      Select(matches, es[..|es| - 1]) + (if matches(e.timestamp) then [e] else [])
  }

  lemma {:induction false} SelectSkips(matches: nat -> bool, es: seq<LogEntry>, first: nat, lo: nat, hi: nat)
    requires first <= lo && NoneMatch(matches, es, lo, hi)
    ensures Select(matches, es[first..hi]) == Select(matches, es[first..lo])
    decreases hi - lo
  {
    if lo < hi {
      SelectSkips(matches, es, first, lo, hi - 1);
      var cut := es[first..hi];
      assert cut[..|cut| - 1] == es[first..hi - 1] && cut[|cut| - 1] == es[hi - 1];
    }
  }

  lemma SelectTakes(matches: nat -> bool, es: seq<LogEntry>, first: nat, lo: nat, hi: nat)
    requires first <= lo < hi <= |es| && NoneMatch(matches, es, lo, hi - 1) && matches(es[hi - 1].timestamp)
    ensures Select(matches, es[first..hi]) == Select(matches, es[first..lo]) + [es[hi - 1]]
  {
    SelectSkips(matches, es, first, lo, hi - 1);
    var cut := es[first..hi];
    assert cut[..|cut| - 1] == es[first..hi - 1] && cut[|cut| - 1] == es[hi - 1];
  }

  /** A query for everything selects everything. */
  lemma {:induction false} SelectsAll(matches: nat -> bool, es: seq<LogEntry>)
    requires forall i :: 0 <= i < |es| ==> matches(es[i].timestamp)
    ensures Select(matches, es) == es
    decreases |es|
  {
    if es != [] {
      SelectsAll(matches, es[..|es| - 1]);
      assert es == es[..|es| - 1] + [es[|es| - 1]];
    }
  }

  /** `shown` is what the query asks for of the log from `first` to `next`. */
  predicate Tells(matches: nat -> bool, es: seq<LogEntry>, first: nat, next: nat, shown: seq<LogEntry>) {
    first <= next <= |es| && shown == Select(matches, es[first..next])
  }

  lemma TellsLater(matches: nat -> bool, es: seq<LogEntry>, fs: seq<LogEntry>, first: nat, next: nat,
                   shown: seq<LogEntry>)
    requires Tells(matches, es, first, next, shown) && IsPrefix(es, fs)
    ensures Tells(matches, fs, first, next, shown)
  {
    assert es[first..next] == fs[first..next];
  }

  lemma TellsMore(a: Answer, matches: nat -> bool, es: seq<LogEntry>, first: nat, lo: nat, hi: nat,
                  shown: seq<LogEntry>)
    requires Tells(matches, es, first, lo, shown) && Scanned(a, matches, es, lo, hi)
    ensures a.Finished? ==> Tells(matches, es, first, hi, shown)
    ensures a.Yield? ==> Tells(matches, es, first, hi, shown + [es[hi - 1]])
  {
    if a.Yield? { SelectTakes(matches, es, first, lo, hi); } else { SelectSkips(matches, es, first, lo, hi); }
  }

  /** What a cursor has shown, and where it stands, is so at a later moment too. */
  lemma Resumes(matches: nat -> bool, a: Moment, b: Moment, s: Spot, m: Mark, first: nat, shown: seq<LogEntry>)
    requires Possible(a) && Possible(b) && Follows(a, b) && Placed(a, s, m)
    requires Tells(matches, Flat(a.log), first, Count(a.log, s, m), shown)
    ensures Placed(b, s, m) && Count(b.log, s, m) == Count(a.log, s, m)
    ensures Tells(matches, Flat(b.log), first, Count(a.log, s, m), shown)
    ensures Committed(a.log, a.at) <= Committed(b.log, b.at)
  {
    GrowthKeepsStand(a.log, b.log, s, m);
    GrowthKeepsWithin(a.log, b.log, a.at, b.at, s, m);
    GrowthKeepsLog(a.log, b.log);
    CommittedGrows(a.log, b.log, a.at, b.at);
    TellsLater(matches, Flat(a.log), Flat(b.log), first, Count(a.log, s, m), shown);
  }

  /** Everything `next` does: ask for more if need be, then scan. */
  method Step(spot: Spot, now: Moment, q: Query, sizes: Sizes, ghost m: Mark)
    returns (a: Answer, r: Spot, known: Sizes, ghost n: Mark)
    requires Possible(now) && Placed(now, spot, m) && Final(sizes, now.log, now.at) && Exact(q, now, sizes, spot, m)
    ensures Placed(now, r, n) && Exact(q, now, known, r, n) && Final(known, now.log, now.at)
    ensures MatchesAll(q.matches, now.log) && OnlyFrozen(sizes, now.log, now.at) ==> OnlyFrozen(known, now.log, now.at)
    ensures Scanned(a, q.matches, Flat(now.log), Count(now.log, spot, m), Count(now.log, r, n))
    ensures Count(now.log, r, n) == Count(now.log, spot, m) || Count(now.log, r, n) <= Committed(now.log, now.at)
    ensures a.Finished? ==> Waits(now.log, now.at, q.maps, r, n)
    ensures a.Yield? ==> JustRead(now.log, a, r, n)
  {
    r, known, n := spot, sizes, m;
    if r.position >= r.size {
      RefreshedStands(spot, now.log, now.at, q.maps, sizes, m);
      RefreshedSizes(spot, now.log, now.at, q.maps, sizes);
      r, known := Refresh(spot, now.log, now.at, q.maps, sizes);
      n := MarkAt(now.log, now.at, spot, m, r);
    }
    a, r, known, n := Scan(r, now, q, known, n);
  }

  /** The cursor stands in the store, and what has been yielded is exactly what the
  query asks for of the log from where the cursor began to where it stands. */
  predicate Told(matches: nat -> bool, t: Moment, s: Spot, m: Mark, first: nat, shown: seq<LogEntry>) {
    Possible(t) && Stands(t.log, s, m) && Tells(matches, Flat(t.log), first, Count(t.log, s, m), shown)
  }

  /** It can read nothing uncommitted; and unless it has not moved since it began,
  where it stands is not past the committed position. */
  predicate Bounds(t: Moment, s: Spot, m: Mark, first: nat)
    requires Possible(t) && Stands(t.log, s, m)
  {
    Within(t.log, t.at, s, m) && (Count(t.log, s, m) == first || Count(t.log, s, m) <= Committed(t.log, t.at))
  }

  /** What the answer adds to what was shown. */
  predicate Adds(a: Answer, shown: seq<LogEntry>, told: seq<LogEntry>) {
    match a
    case Corrupt => false
    case Finished => told == shown
    case Yield(timestamp, endTxn, data) =>
      && told != [] && told[..|told| - 1] == shown
      && var e := told[|told| - 1];
      timestamp == e.timestamp && data == e.data && (endTxn <==> e.flags % 2 == 1)
  }

  /** A call at a later moment, with what it does to the record of the query. */
  method Continue(spot: Spot, now: Moment, q: Query, sizes: Sizes,
                  ghost seen: Moment, ghost m: Mark, ghost first: nat, ghost shown: seq<LogEntry>)
    returns (a: Answer, r: Spot, known: Sizes, ghost n: Mark, ghost told: seq<LogEntry>)
    requires Told(q.matches, seen, spot, m, first, shown) && Bounds(seen, spot, m, first)
    requires Possible(now) && Follows(seen, now) && Final(sizes, now.log, now.at)
    requires spot.logId < |now.log| ==> Exact(q, now, sizes, spot, m)
    ensures Told(q.matches, now, r, n, first, told) && Bounds(now, r, n, first) && Adds(a, shown, told)
    ensures Exact(q, now, known, r, n) && Final(known, now.log, now.at)
    ensures MatchesAll(q.matches, now.log) && OnlyFrozen(sizes, now.log, now.at) ==> OnlyFrozen(known, now.log, now.at)
    ensures Count(now.log, r, n) >= Count(seen.log, spot, m)
    ensures a.Yield? ==> Count(now.log, r, n) <= Committed(now.log, now.at)
    ensures a.Finished? ==> Waits(now.log, now.at, q.maps, r, n)
    ensures a.Yield? ==> JustRead(now.log, a, r, n)
  {
    Resumes(q.matches, seen, now, spot, m, first, shown);
    a, r, known, n := Step(spot, now, q, sizes, m);
    ghost var es, lo, hi := Flat(now.log), Count(now.log, spot, m), Count(now.log, r, n);
    TellsMore(a, q.matches, es, first, lo, hi, shown);
    told := if a.Yield? then shown + [es[hi - 1]] else shown;
    assert a.Yield? ==> told[..|told| - 1] == shown;
  }

  /** What the queries of one log share. */
  class TransactionLog {
    var sizes: Sizes

    constructor ()
      ensures sizes == map[]
    {
      sizes := map[];
    }
  }

  class Cursor {
    const matches: nat -> bool
    const log: TransactionLog
    var spot: Spot
    ghost var mark: Mark
    ghost var seen: Moment              // as the latest call found it
    ghost var first: nat                // where in the log this cursor began
    ghost var shown: seq<LogEntry>      // the entries it has yielded

    ghost predicate Valid()
      reads this
    {
      Told(matches, seen, spot, mark, first, shown)
    }

    ghost predicate Bounded()
      reads this
      requires Valid()
    {
      Bounds(seen, spot, mark, first)
    }

    /** A query with a start. It can read nothing uncommitted if it begins no later
    than the last committed file. */
    constructor (matches: nat -> bool, log: TransactionLog, now: Moment, logId: nat, position: nat, ghost index: nat)
      requires Possible(now) && StartsAt(now.log, logId, position, index)
      requires Boundaries(log.sizes, now.log) && Final(log.sizes, now.log, now.at)
      modifies log
      ensures Valid() && seen == now && shown == [] && first == Before(now.log, logId, index)
      ensures this.matches == matches && this.log == log
      ensures (spot, log.sizes) == Started(old(log.sizes), now.log, now.at, logId, position)
      ensures logId <= now.at.last ==>
                Bounded() && Full(now.log, now.at, spot, mark) && Final(log.sizes, now.log, now.at)
      ensures OnlyFrozen(old(log.sizes), now.log, now.at) ==>
                (OnlyFrozen(log.sizes, now.log, now.at) <==> logId <= now.at.last)
    {
      this.matches, this.log := matches, log;
      ghost var m := StartedStands(log.sizes, now.log, now.at, logId, position, index);
      ghost var sizes := log.sizes;
      var p := if position == 0 then FILE_HEADER else position;
      var size := now.at.word;
      if now.at.last != logId {
        if logId !in log.sizes { log.sizes := log.sizes[logId := now.log[logId].size]; }
        size := log.sizes[logId];
      }
      spot, mark, seen, first, shown := Spot(logId, p, size), m, now, Before(now.log, logId, index), [];
      CountWithin(now.log, Spot(logId, p, size), m);
      if OnlyFrozen(sizes, now.log, now.at) {
        StartIsSoundExactly(sizes, now.log, now.at, logId, position, index);
      }
    }

    /** `next`, at a moment that follows the one of the latest call. Whatever has
    happened in between, the yielded entries stay exact and committed; and a call
    that yields nothing has a reason to. */
    method Next(now: Moment, maps: nat -> bool) returns (a: Answer)
      requires Valid() && Bounded() && Possible(now) && Follows(seen, now) && Final(log.sizes, now.log, now.at)
      requires MatchesAll(matches, now.log)
               || (Quiet(now.log, now.at) && UpToDate(log.sizes, now.log) && (forall c :: maps(c))
                   && (spot.logId < |now.log| ==> Full(now.log, now.at, spot, mark)))
      modifies this, log
      ensures Valid() && Bounded() && seen == now && first == old(first) && Adds(a, old(shown), shown)
      ensures Exact(Query(matches, maps), now, log.sizes, spot, mark) && Final(log.sizes, now.log, now.at)
      ensures MatchesAll(matches, now.log) && OnlyFrozen(old(log.sizes), now.log, now.at) ==>
                OnlyFrozen(log.sizes, now.log, now.at)
      ensures Count(now.log, spot, mark) >= old(Count(seen.log, spot, mark))
      ensures a.Yield? ==> Count(now.log, spot, mark) <= Committed(now.log, now.at)
      ensures a.Finished? ==> Waits(now.log, now.at, maps, spot, mark)
      ensures a.Yield? ==>
                && shown != [] && JustRead(now.log, a, spot, mark)
                && var e := shown[|shown| - 1];
                a.timestamp == e.timestamp && a.data == e.data && (a.endTxn <==> e.flags % 2 == 1)
    {
      var found, next, known;
      ghost var m, told;
      found, next, known, m, told :=
        Continue(spot, now, Query(matches, maps), log.sizes, seen, mark, first, shown);
      a, spot, log.sizes := found, next, known;
      mark, seen, shown := m, now, told;
    }
  }

  /** Read as a whole: a query for every entry has yielded a run of the log itself,
  with no gap and no repeat. */
  lemma YieldsTheLog(matches: nat -> bool, log: seq<LogFile>, first: nat, next: nat, shown: seq<LogEntry>)
    requires MatchesAll(matches, log) && Tells(matches, Flat(log), first, next, shown)
    ensures shown == Flat(log)[first..next] && |shown| == next - first
  {
    AllInLog(matches, log);
    SelectsAll(matches, Flat(log)[first..next]);
  }

  lemma {:induction false} AllInLog(matches: nat -> bool, log: seq<LogFile>)
    requires MatchesAll(matches, log)
    ensures forall i :: 0 <= i < |Flat(log)| ==> matches(Flat(log)[i].timestamp)
    decreases |log|
  {
    if log != [] { AllInLog(matches, log[..|log| - 1]); }
  }
}
