/** Runs in which a log query skips entries, shows uncommitted ones or fails. */
module LogQueryLimits {
  import opened Bytes
  import opened LogFormat
  import opened LogReader
  import opened LogCursor
  import opened LogQuery

  const SMALL := LogEntry(1, 0, [])
  const LARGE := LogEntry(1, 0, [0, 0, 0, 0, 0])

  function FileOf(es: seq<LogEntry>): LogFile { LogFile(0, es, Print(0, es), Offset(es, |es|)) }

  /** A store with the empty buffer and two files, or three. */
  function Two(f: seq<LogEntry>, g: seq<LogEntry>): seq<LogFile> { [LogFile(0, [], [], 0), FileOf(f), FileOf(g)] }

  function Three(f: seq<LogEntry>, g: seq<LogEntry>, h: seq<LogEntry>): seq<LogFile> {
    [LogFile(0, [], [], 0), FileOf(f), FileOf(g), FileOf(h)]
  }

  lemma TwoIsValid(f: seq<LogEntry>, g: seq<LogEntry>)
    requires Sound(f) && Sound(g)
    ensures ValidStore(Two(f, g))
  {
    var log := Two(f, g);
    forall i | 0 < i < |log| ensures ValidFile(log[i]) && SizedExactly(log[i]) { assert i == 1 || i == 2; }
  }

  lemma ThreeIsValid(f: seq<LogEntry>, g: seq<LogEntry>, h: seq<LogEntry>)
    requires Sound(f) && Sound(g) && Sound(h)
    ensures ValidStore(Three(f, g, h))
  {
    var log := Three(f, g, h);
    forall i | 0 < i < |log| ensures ValidFile(log[i]) && SizedExactly(log[i]) { assert i == 1 || i == 2 || i == 3; }
  }

  lemma Offsets()
    ensures Offset([SMALL], 1) == 26 && Offset([SMALL, SMALL], 1) == 26 && Offset([SMALL, SMALL], 2) == 39
    ensures Offset([SMALL, LARGE], 1) == 26 && Offset([SMALL, LARGE], 2) == 44
  {
  }

  // ---- The size cache

  /** How another query's advance makes a query for everything skip an entry. The
  first query, having passed the entry of file 1, advances into file 2 and so
  caches its size. The second stands at the end of file 2 with everything yielded.
  File 2 gets another entry and is rotated. Then the second query's refresh takes
  the cached size for the final one and moves on, past that entry. */
  lemma OtherQueryMakesThisOneSkip()
    ensures var early, late := Two([SMALL], [SMALL]), Three([SMALL], [SMALL, SMALL], [SMALL]);
            var was, now := Commit(2, 1, 26), Commit(3, 1, 26);
            && Possible(Moment(early, was)) && Possible(Moment(late, now)) && Grows(early, late)
            && Stands(early, Spot(1, 26, 26), Mark(1, 1)) && Stands(early, Spot(2, 26, 26), Mark(1, 1))
            && Advanced(Spot(1, 26, 26), early, was, _ => true, map[]) == (false, Spot(2, 13, 26), map[2 := 26])
            && Refreshed(Spot(2, 26, 26), late, now, _ => true, map[2 := 26]).0 == Spot(3, 13, 26)
            && Before(late, 3, 0) == Count(early, Spot(2, 26, 26), Mark(1, 1)) + 1
            && !Final(map[2 := 26], late, now)
  {
    var early, late := Two([SMALL], [SMALL]), Three([SMALL], [SMALL, SMALL], [SMALL]);
    Offsets();
    TwoIsValid([SMALL], [SMALL]);
    ThreeIsValid([SMALL], [SMALL, SMALL], [SMALL]);
    assert early[2].entries == late[2].entries[..1];
    StaleSizeSkips(late, Commit(3, 1, 26), map[2 := 26], 2, 1);
    GrowthKeepsStand(early, late, Spot(2, 26, 26), Mark(1, 1));
  }

  // ---- The advance inside the loop

  /** A query that has passed the one entry file 1 had when it asked. By the time it
  advances, file 1 has got a second entry and been rotated: that entry is left behind. */
  lemma AdvanceLeavesAnEntryBehind()
    ensures var log, at, s := Two([SMALL, SMALL], [SMALL]), Commit(2, 1, 26), Spot(1, 26, 26);
            && Possible(Moment(log, at)) && Stands(log, s, Mark(1, 1))
            && Advanced(s, log, at, _ => true, map[]).1.logId == 2
            && Before(log, 2, 0) == Count(log, s, Mark(1, 1)) + 1
  {
    Offsets();
    TwoIsValid([SMALL, SMALL], [SMALL]);
    NextFileCount(Two([SMALL, SMALL], [SMALL]), 1);
  }

  /** The second entry of file 2 is written and not committed when a query advances
  into that file. The bound it takes covers the entry, and it reads it. */
  lemma AdvanceReadsAnUncommittedEntry()
    ensures var log, at, s := Two([SMALL], [SMALL, SMALL]), Commit(2, 1, 26), Spot(1, 26, 26);
            && Possible(Moment(log, at)) && Stands(log, s, Mark(1, 1))
            && Advanced(s, log, at, _ => true, map[]).1 == Spot(2, 13, 39)
            && Fetch(log[2].bytes, 26, 39) == Got(SMALL) && Before(log, 2, 1) >= Committed(log, at)
  {
    Offsets();
    TwoIsValid([SMALL], [SMALL, SMALL]);
    FetchAt(Two([SMALL], [SMALL, SMALL]), 2, 1, 39);
  }

  // ---- A start beyond the last committed file

  /** File 1 is committed; file 2 has an entry that is not. A query whose search ends
  in file 2 caches the size of a file that still grows and shows that entry. */
  lemma StartAheadShowsUncommitted()
    ensures var log, at := Two([SMALL, SMALL], [SMALL]), Commit(1, 2, 39);
            && Possible(Moment(log, at)) && StartsAt(log, 2, 13, 0)
            && Started(map[], log, at, 2, 13) == (Spot(2, 13, 26), map[2 := 26])
            && Fetch(log[2].bytes, 13, 26) == Got(SMALL) && Before(log, 2, 0) >= Committed(log, at)
            && !OnlyFrozen(map[2 := 26], log, at)
  {
    Offsets();
    TwoIsValid([SMALL, SMALL], [SMALL]);
    FetchAt(Two([SMALL, SMALL], [SMALL]), 2, 0, 26);
    NextFileCount(Two([SMALL, SMALL], [SMALL]), 1);
    assert 2 in map[2 := 26];
  }

  /** Its next refresh bounds file 2 by the committed size of file 1, which cuts an
  entry written meanwhile: the query fails. */
  lemma StartAheadThenFails()
    ensures var log, at := Two([SMALL, SMALL], [SMALL, LARGE]), Commit(1, 2, 39);
            && Possible(Moment(log, at)) && Grows(Two([SMALL, SMALL], [SMALL]), log)
            && Refreshed(Spot(2, 26, 26), log, at, _ => true, map[2 := 26]).0 == Spot(2, 26, 39)
            && Fetch(log[2].bytes, 26, 39) == Bad
  {
    var log := Two([SMALL, SMALL], [SMALL, LARGE]);
    Offsets();
    TwoIsValid([SMALL, SMALL], [SMALL, LARGE]);
    FetchAt(log, 2, 1, 39);
    assert [SMALL] == log[2].entries[..1];
  }
}
