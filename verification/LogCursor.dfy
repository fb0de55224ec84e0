/** Where a log query stands, and how it moves between files.

The size of a file, once asked for, is kept in the file's buffer object, and all
queries of one log object share those objects. `Sizes` is that cache. */
module LogCursor {
  import opened Bytes
  import opened LogFormat
  import opened LogReader

  function End(f: LogFile): nat { Offset(f.entries, |f.entries|) }

  /** The last committed position: `count` entries of file `last`. `word` is the
  offset as loaded, which may be zero while that file has no committed entry. */
  datatype Commit = Commit(last: nat, count: nat, word: nat)

  predicate CommittedAt(log: seq<LogFile>, at: Commit) {
    && at.last < |log| && at.count <= |log[at.last].entries|
    && (at.word == Offset(log[at.last].entries, at.count) || (at.count == 0 && at.word == 0))
  }

  /** How many entries are committed. */
  function Committed(log: seq<LogFile>, at: Commit): nat
    requires at.last < |log|
  {
    Before(log, at.last, at.count)
  }

  predicate Later(a: Commit, b: Commit) { a.last < b.last || (a.last == b.last && a.count <= b.count) }

  /** How many entries of a file up to the last committed one are committed. */
  function Readable(log: seq<LogFile>, at: Commit, c: nat): nat
    requires c < |log|
  {
    if c < at.last then |log[c].entries| else at.count
  }

  /** Nothing is written beyond what is committed. */
  predicate Quiet(log: seq<LogFile>, at: Commit) {
    at.last == |log| - 1 && at.count == |log[at.last].entries|
  }

  datatype Spot = Spot(logId: nat, position: nat, size: nat)

  /** The entry the cursor stands before, and the one it may not read yet. */
  datatype Mark = Mark(index: nat, upto: nat)

  predicate Stands(log: seq<LogFile>, s: Spot, m: Mark) {
    && s.logId < |log| && m.index <= |log[s.logId].entries| && s.position == Offset(log[s.logId].entries, m.index)
    && (s.position < s.size ==> m.upto <= |log[s.logId].entries| && s.size == Offset(log[s.logId].entries, m.upto))
  }

  /** It may read nothing that is not committed, */
  predicate Within(log: seq<LogFile>, at: Commit, s: Spot, m: Mark)
    requires s.logId < |log|
  {
    s.logId <= at.last && (s.position < s.size ==> m.upto <= Readable(log, at, s.logId))
  }

  /** and all that its file holds of it. */
  predicate Full(log: seq<LogFile>, at: Commit, s: Spot, m: Mark)
    requires s.logId < |log|
  {
    s.position < s.size ==> m.upto == Readable(log, at, s.logId)
  }

  function Count(log: seq<LogFile>, s: Spot, m: Mark): nat
    requires s.logId < |log|
  {
    Before(log, s.logId, m.index)
  }

  lemma GrowthKeepsStand(a: seq<LogFile>, b: seq<LogFile>, s: Spot, m: Mark)
    requires Grows(a, b) && Stands(a, s, m)
    ensures Stands(b, s, m) && Count(a, s, m) == Count(b, s, m)
  {
    var es, fs := a[s.logId].entries, b[s.logId].entries;
    assert IsPrefix(es, fs);
    OffsetPrefix(es, fs, m.index);
    if s.position < s.size { OffsetPrefix(es, fs, m.upto); }
    GrowthKeepsLog(a, b);
  }

  lemma GrowthKeepsWithin(a: seq<LogFile>, b: seq<LogFile>, x: Commit, y: Commit, s: Spot, m: Mark)
    requires Grows(a, b) && CommittedAt(a, x) && CommittedAt(b, y) && Later(x, y)
    requires Stands(a, s, m) && Within(a, x, s, m)
    ensures s.logId < |b| && Within(b, y, s, m)
  {
    assert IsPrefix(a[s.logId].entries, b[s.logId].entries);
  }

  lemma CommittedGrows(a: seq<LogFile>, b: seq<LogFile>, x: Commit, y: Commit)
    requires Grows(a, b) && CommittedAt(a, x) && CommittedAt(b, y) && Later(x, y)
    ensures Committed(a, x) <= Committed(b, y)
  {
    GrowthKeepsLog(a, b);
    assert Before(a, x.last, x.count) == Before(b, x.last, x.count);
    assert IsPrefix(a[x.last].entries, b[x.last].entries);
    if x.last < y.last { BeforeOrdered(b, x.last, x.count, y.last, y.count); }
  }

  lemma ReadableIsCommitted(log: seq<LogFile>, at: Commit, c: nat, i: nat)
    requires CommittedAt(log, at) && c <= at.last && i <= Readable(log, at, c)
    ensures Before(log, c, i) <= Committed(log, at)
  {
    if c < at.last { BeforeOrdered(log, c, i, at.last, at.count); }
  }

  /** At the end of a file is at the start of the next. */
  lemma NextFileCount(log: seq<LogFile>, c: nat)
    requires c + 1 < |log|
    ensures Before(log, c, |log[c].entries|) == Before(log, c + 1, 0)
  {
    assert log[..c + 1][..c] == log[..c];
  }

  lemma CountWithin(log: seq<LogFile>, s: Spot, m: Mark)
    requires Stands(log, s, m)
    ensures Count(log, s, m) <= |Flat(log)|
  {
    FlatSplit(log, s.logId);
  }

  // ---- Cached sizes

  type Sizes = map<nat, nat>

  /** The size a query uses for a file: the cached one, else what the store says. */
  function SizeOf(sizes: Sizes, log: seq<LogFile>, c: nat): nat
    requires c < |log|
  {
    if c in sizes then sizes[c] else log[c].size
  }

  function Asked(sizes: Sizes, log: seq<LogFile>, c: nat): Sizes
    requires c < |log|
  {
    if c in sizes then sizes else sizes[c := log[c].size]
  }

  /** Each cached size of a file before the last committed one is its final size. */
  predicate Final(sizes: Sizes, log: seq<LogFile>, at: Commit)
    requires at.last < |log|
  {
    forall c {:trigger sizes[c]} :: c in sizes && c < at.last ==> sizes[c] == log[c].size
  }

  /** Besides, only those files have one. */
  predicate OnlyFrozen(sizes: Sizes, log: seq<LogFile>, at: Commit)
    requires at.last < |log|
  {
    Final(sizes, log, at) && forall c :: c in sizes ==> c < at.last
  }

  predicate UpToDate(sizes: Sizes, log: seq<LogFile>) {
    forall c {:trigger sizes[c]} :: c in sizes && c < |log| ==> sizes[c] == log[c].size
  }

  /** A cache of sizes of frozen files stays good while the log grows. */
  lemma OnlyFrozenGrows(sizes: Sizes, a: seq<LogFile>, b: seq<LogFile>, x: Commit, y: Commit)
    requires ValidStore(a) && ValidStore(b) && Grows(a, b) && CommittedAt(a, x) && CommittedAt(b, y) && Later(x, y)
    requires OnlyFrozen(sizes, a, x)
    ensures OnlyFrozen(sizes, b, y)
  {
    forall c | c in sizes ensures c < y.last && sizes[c] == b[c].size {
      if c > 0 { assert SizedExactly(a[c]) && SizedExactly(b[c]); }
    }
  }

  /** A cached size is an entry boundary of its file: files only grow by whole
  entries, and none is ever cut. */
  ghost predicate Boundaries(sizes: Sizes, log: seq<LogFile>) {
    forall c {:trigger sizes[c]} :: c in sizes && c < |log| ==> Boundary(log[c], c, sizes[c])
  }

  ghost predicate Boundary(f: LogFile, c: nat, size: nat) {
    if c == 0 then size == 0 else exists k :: 0 <= k <= |f.entries| && size == Offset(f.entries, k)
  }

  lemma SizeIsBoundary(sizes: Sizes, log: seq<LogFile>, c: nat)
    requires ValidStore(log) && Boundaries(sizes, log) && c < |log|
    ensures Boundary(log[c], c, SizeOf(sizes, log, c))
    ensures SizeOf(sizes, log, c) <= End(log[c])
  {
    if c in sizes { assert Boundary(log[c], c, sizes[c]); } else if c > 0 { assert SizedExactly(log[c]); }
    if c > 0 {
      var k :| 0 <= k <= |log[c].entries| && SizeOf(sizes, log, c) == Offset(log[c].entries, k);
      OffsetBelow(log[c].entries, |log[c].entries|, k);
    }
  }

  // ---- Starting

  /** The query's first place: `position` is the boundary its search returned, or
  zero for the front of the file. The search looks at the file being written, so
  the place may lie beyond what is committed, in the last committed file or after it. */
  function Started(sizes: Sizes, log: seq<LogFile>, at: Commit, logId: nat, position: nat): (Spot, Sizes)
    requires logId < |log|
  {
    var p := if position == 0 then FILE_HEADER else position;
    if at.last == logId then (Spot(logId, p, at.word), sizes)
    else (Spot(logId, p, SizeOf(sizes, log, logId)), Asked(sizes, log, logId))
  }

  predicate StartsAt(log: seq<LogFile>, logId: nat, position: nat, index: nat) {
    && logId < |log| && index <= |log[logId].entries|
    && (position == Offset(log[logId].entries, index) || (position == 0 && index == 0))
  }

  /** Wherever it begins, the cursor stands before the entry it was given. */
  lemma StartedStands(sizes: Sizes, log: seq<LogFile>, at: Commit, logId: nat, position: nat, index: nat)
    returns (m: Mark)
    requires ValidStore(log) && CommittedAt(log, at) && StartsAt(log, logId, position, index)
    requires Boundaries(sizes, log) && Final(sizes, log, at)
    ensures var (s, known) := Started(sizes, log, at, logId, position);
            && Stands(log, s, m) && m.index == index
            && (logId <= at.last ==> Within(log, at, s, m) && Full(log, at, s, m) && Final(known, log, at))
  {
    var (s, known) := Started(sizes, log, at, logId, position);
    SizeIsBoundary(sizes, log, logId);
    if logId <= at.last {
      assert logId > 0 ==> SizedExactly(log[logId]);
      m := Mark(index, Readable(log, at, logId));
    } else {
      var k :| 0 <= k <= |log[logId].entries| && s.size == Offset(log[logId].entries, k);
      m := Mark(index, k);
    }
  }

  /** A query leaves the cache to frozen files, and its first bound within what is
  committed, if and only if it begins no later than the last committed file. A
  query that begins in a later one may read any entry already written there. */
  lemma StartIsSoundExactly(sizes: Sizes, log: seq<LogFile>, at: Commit, logId: nat, position: nat, index: nat)
    requires ValidStore(log) && CommittedAt(log, at) && StartsAt(log, logId, position, index)
    requires OnlyFrozen(sizes, log, at)
    ensures var (s, known) := Started(sizes, log, at, logId, position);
            && (OnlyFrozen(known, log, at) <==> logId <= at.last)
            && (logId <= at.last ==>
                  s.position >= s.size || s.size <= Offset(log[logId].entries, Readable(log, at, logId)))
            && (logId > at.last && index < |log[logId].entries| ==>
                  s.position < s.size == End(log[logId]) && Before(log, logId, index) >= Committed(log, at))
  {
    assert logId > 0 ==> SizedExactly(log[logId]);
    if logId > at.last {
      assert logId in Started(sizes, log, at, logId, position).1;
      BeforeOrdered(log, at.last, at.count, logId, index);
      OffsetBelow(log[logId].entries, index, |log[logId].entries|);
    }
  }

  // ---- Asking for more

  /** When the known size is used up: the committed position again, and perhaps
  the next file. `maps` says which files can be mapped. */
  function Refreshed(s: Spot, log: seq<LogFile>, at: Commit, maps: nat -> bool, sizes: Sizes): (Spot, Sizes)
    requires s.logId < |log| && at.last < |log|
  {
    if at.last <= s.logId then (s.(size := at.word), sizes)
    else
      var size, known := SizeOf(sizes, log, s.logId), Asked(sizes, log, s.logId);
      var c := s.logId + 1;
      if s.position < size || !maps(c) then (s.(size := size), known)
      else if at.last > c then (Spot(c, FILE_HEADER, SizeOf(known, log, c)), Asked(known, log, c))
      else (Spot(c, FILE_HEADER, at.word), known)
  }

  method Refresh(s: Spot, now: seq<LogFile>, at: Commit, maps: nat -> bool, sizes: Sizes)
    returns (r: Spot, known: Sizes)
    requires s.logId < |now| && at.last < |now|
    ensures (r, known) == Refreshed(s, now, at, maps, sizes)
  {
    r, known := s.(size := at.word), sizes;
    if at.last > s.logId {
      if s.logId !in known { known := known[s.logId := now[s.logId].size]; }
      r := r.(size := known[s.logId]);
      if s.position >= r.size && maps(s.logId + 1) {
        var c := s.logId + 1;
        r := Spot(c, FILE_HEADER, at.word);
        if at.last > c {
          if c !in known { known := known[c := now[c].size]; }
          r := r.(size := known[c]);
        }
      }
    }
  }

  /** Where the cursor stands after a move that passes over no entry. */
  function MarkAt(log: seq<LogFile>, at: Commit, s: Spot, m: Mark, r: Spot): Mark
    requires r.logId < |log|
  {
    Mark(if r.logId == s.logId then m.index else 0, Readable(log, at, r.logId))
  }

  /** Why a cursor may have nothing to show: it has passed everything committed,
  the next file cannot be mapped, or it stands in a file without entries. */
  predicate Waits(log: seq<LogFile>, at: Commit, maps: nat -> bool, s: Spot, m: Mark)
    requires s.logId < |log| && at.last < |log|
  {
    Count(log, s, m) >= Committed(log, at) || !maps(s.logId + 1) || log[s.logId].entries == []
  }

  lemma RefreshedSizes(s: Spot, log: seq<LogFile>, at: Commit, maps: nat -> bool, sizes: Sizes)
    requires s.logId < |log| && at.last < |log|
    ensures var known := Refreshed(s, log, at, maps, sizes).1;
            && (Final(sizes, log, at) ==> Final(known, log, at))
            && (OnlyFrozen(sizes, log, at) ==> OnlyFrozen(known, log, at))
            && (UpToDate(sizes, log) ==> UpToDate(known, log))
  {
  }

  lemma FinalSizeOf(sizes: Sizes, log: seq<LogFile>, at: Commit, c: nat)
    requires ValidStore(log) && at.last < |log| && Final(sizes, log, at) && c < at.last
    ensures SizeOf(sizes, log, c) == (if c == 0 then 0 else End(log[c])) && Final(Asked(sizes, log, c), log, at)
  {
    assert c > 0 ==> SizedExactly(log[c]);
  }

  /** With final sizes, asking for more never skips or repeats an entry, lets the
  cursor read what its file holds of what is committed and no more, and leaves
  nothing to read only for a reason. */
  lemma RefreshedStands(s: Spot, log: seq<LogFile>, at: Commit, maps: nat -> bool, sizes: Sizes, m: Mark)
    requires ValidStore(log) && CommittedAt(log, at) && Stands(log, s, m) && s.position >= s.size
    requires s.logId <= at.last && Final(sizes, log, at)
    ensures var r := Refreshed(s, log, at, maps, sizes).0;
            && r.logId < |log|
            && var n := MarkAt(log, at, s, m, r);
            && Stands(log, r, n) && Within(log, at, r, n) && Full(log, at, r, n)
            && Count(log, r, n) == Count(log, s, m)
            && (r.position >= r.size ==> Waits(log, at, maps, r, n))
  {
    var r := Refreshed(s, log, at, maps, sizes).0;
    OffsetBelow(log[s.logId].entries, m.index, Readable(log, at, s.logId));
    if s.logId < at.last { FinalSizeOf(sizes, log, at, s.logId); }
    if r.logId != s.logId {
      if r.logId < at.last { FinalSizeOf(Asked(sizes, log, s.logId), log, at, r.logId); }
      NextFileCount(log, s.logId);
      OffsetBelow(log[r.logId].entries, 0, Readable(log, at, r.logId));
    }
  }

  /** The refresh leaves the cursor before the entry it stood before. */
  predicate KeepsPlace(s: Spot, m: Mark, log: seq<LogFile>, at: Commit, maps: nat -> bool, sizes: Sizes)
    requires s.logId < |log| && at.last < |log|
  {
    var r := Refreshed(s, log, at, maps, sizes).0;
    r.logId < |log| && Before(log, r.logId, MarkAt(log, at, s, m, r).index) == Count(log, s, m)
  }

  /** Wherever a cursor stands, no refresh passes over a committed entry: if and only
  if each cached size of a file before the last committed one is its final size. */
  lemma GapFreeExactlyWhenFinal(log: seq<LogFile>, at: Commit, sizes: Sizes)
    requires ValidStore(log) && CommittedAt(log, at) && Boundaries(sizes, log)
    ensures (forall s, m, maps ::
               Stands(log, s, m) && s.logId <= at.last && s.position >= s.size ==>
                 KeepsPlace(s, m, log, at, maps, sizes))
            <==> Final(sizes, log, at)
  {
    if Final(sizes, log, at) {
      forall s, m, maps | Stands(log, s, m) && s.logId <= at.last && s.position >= s.size
        ensures KeepsPlace(s, m, log, at, maps, sizes)
      {
        RefreshedStands(s, log, at, maps, sizes, m);
      }
    } else {
      var c :| c in sizes && c < at.last && sizes[c] != log[c].size;
      assert Boundary(log[c], c, sizes[c]) && c > 0;
      var k :| 0 <= k <= |log[c].entries| && sizes[c] == Offset(log[c].entries, k);
      StaleSizeSkips(log, at, sizes, c, k);
    }
  }

  /** A cursor standing at a cached size short of the file's end is sent to the next
  file, past every entry in between. */
  lemma StaleSizeSkips(log: seq<LogFile>, at: Commit, sizes: Sizes, c: nat, k: nat)
    requires ValidStore(log) && 0 < c < at.last < |log| && c in sizes && k <= |log[c].entries|
    requires sizes[c] == Offset(log[c].entries, k) != log[c].size
    ensures var s, m := Spot(c, sizes[c], sizes[c]), Mark(k, k);
            && k < |log[c].entries| && Stands(log, s, m)
            && Refreshed(s, log, at, _ => true, sizes).0.logId == c + 1
            && Before(log, c + 1, 0) == Count(log, s, m) + (|log[c].entries| - k)
            && !KeepsPlace(s, m, log, at, _ => true, sizes)
  {
    assert SizedExactly(log[c]);
    NextFileCount(log, c);
  }

  // ---- Advancing inside the loop

  /** After an entry that does not match: on to the next file if this one is read.
  The next file's size is cached even while that file still grows. */
  function Advanced(s: Spot, log: seq<LogFile>, at: Commit, maps: nat -> bool, sizes: Sizes): (bool, Spot, Sizes)
    requires s.logId < |log| && at.last < |log|
  {
    if s.position < s.size then (false, s, sizes)
    else if at.last <= s.logId then (false, s.(size := at.word), sizes)
    else
      var c := s.logId + 1;
      if !maps(c) then (true, s.(size := at.word), sizes)
      else (false, Spot(c, FILE_HEADER, SizeOf(sizes, log, c)), Asked(sizes, log, c))
  }

  method Advance(s: Spot, now: seq<LogFile>, at: Commit, maps: nat -> bool, sizes: Sizes)
    returns (stop: bool, r: Spot, known: Sizes)
    requires s.logId < |now| && at.last < |now|
    ensures (stop, r, known) == Advanced(s, now, at, maps, sizes)
  {
    stop, r, known := false, s, sizes;
    if r.position >= r.size {
      r := r.(size := at.word);
      if at.last > r.logId {
        var c := r.logId + 1;
        if !maps(c) { return true, r, known; }
        if c !in known { known := known[c := now[c].size]; }
        r := Spot(c, FILE_HEADER, known[c]);
      }
    }
  }

  /** A cursor that has used up the size it knew leaves no entry behind if and only
  if its file has not grown since that size was taken; and it may then read nothing
  uncommitted if and only if the next file is frozen, holds nothing uncommitted, or
  had its size taken before it did. */
  lemma AdvanceIsSoundExactly(s: Spot, log: seq<LogFile>, at: Commit, maps: nat -> bool, sizes: Sizes, m: Mark)
    requires ValidStore(log) && CommittedAt(log, at) && Boundaries(sizes, log) && Stands(log, s, m)
    requires s.position == s.size && 0 < s.logId < at.last && maps(s.logId + 1)
    ensures var r, c := Advanced(s, log, at, maps, sizes).1, s.logId + 1;
            && r.logId == c
            && (Before(log, c, 0) == Count(log, s, m) <==> s.size == log[s.logId].size)
            && (r.size <= Offset(log[c].entries, Readable(log, at, c)) <==>
                  || c < at.last
                  || at.count == |log[c].entries|
                  || (c in sizes && sizes[c] <= Offset(log[c].entries, at.count)))
  {
    var c := s.logId + 1;
    NextFileCount(log, s.logId);
    assert SizedExactly(log[s.logId]) && SizedExactly(log[c]);
    OffsetBelow(log[s.logId].entries, m.index, |log[s.logId].entries|);
    SizeIsBoundary(sizes, log, c);
    OffsetBelow(log[c].entries, Readable(log, at, c), |log[c].entries|);
  }

  lemma AdvancedStands(s: Spot, log: seq<LogFile>, at: Commit, maps: nat -> bool, sizes: Sizes, m: Mark)
    requires ValidStore(log) && CommittedAt(log, at) && Stands(log, s, m) && Within(log, at, s, m)
    requires Quiet(log, at) && UpToDate(sizes, log) && Full(log, at, s, m) && forall c :: maps(c)
    requires s.position >= s.size ==> m.index == |log[s.logId].entries|
    ensures var (stop, r, known) := Advanced(s, log, at, maps, sizes);
            && r.logId < |log| && !stop && UpToDate(known, log)
            && var n := if r.logId == s.logId then m else MarkAt(log, at, s, m, r);
            && Stands(log, r, n) && Within(log, at, r, n) && Full(log, at, r, n)
            && Count(log, r, n) == Count(log, s, m)
            && (r.logId == s.logId || r.logId == s.logId + 1)
            && (r.position >= r.size ==> Waits(log, at, maps, r, n))
  {
    var (stop, r, known) := Advanced(s, log, at, maps, sizes);
    if r.logId != s.logId {
      NextFileCount(log, s.logId);
      assert SizedExactly(log[r.logId]);
      OffsetBelow(log[r.logId].entries, 0, |log[r.logId].entries|);
    }
  }
}
