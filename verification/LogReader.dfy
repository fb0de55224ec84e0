/** The resumable transaction-log reader: a cursor over numbered log files that
grow and rotate while it reads.

A store is the sequence of its files; file 0 stands for the empty buffer used
before any log exists. `entries` are the entries written, in order, committed or
not. `bytes` is the mapped buffer, which may be longer than what is written, and
`size` is what a file-size query returns. Files before the last are frozen. What is
committed is everything up to the last committed position. */
module LogReader {
  import opened Bytes
  import opened LogFormat

  datatype LogFile = LogFile(header: nat, entries: seq<LogEntry>, bytes: seq<byte>, size: nat)

  /** A timestamp the reader takes for the end of the data: zero or not a number. */
  predicate Falsy(timestamp: nat) {
    IsZero(timestamp) || timestamp % NEGATIVE_ZERO > 0x7ff0_0000_0000_0000
  }

  predicate Sound(es: seq<LogEntry>) { forall i :: 0 <= i < |es| ==> Fits(es[i]) && !Falsy(es[i].timestamp) }

  predicate IsPrefix<T(==)>(a: seq<T>, b: seq<T>) { |a| <= |b| && a == b[..|a|] }

  predicate ValidFile(f: LogFile) {
    Sound(f.entries) && IsPrefix(Print(f.header, f.entries), f.bytes)
  }

  predicate SizedExactly(f: LogFile) { f.size == Offset(f.entries, |f.entries|) }

  predicate ValidStore(log: seq<LogFile>) {
    && log != [] && log[0].entries == [] && log[0].size == 0
    && (forall i {:trigger ValidFile(log[i])} :: 0 < i < |log| ==> ValidFile(log[i]))
    && (forall i {:trigger SizedExactly(log[i])} :: 0 < i < |log| ==> SizedExactly(log[i]))
  }

  /** Where entry `i` starts. */
  function Offset(es: seq<LogEntry>, i: nat): (r: nat)
    requires i <= |es|
    ensures r >= FILE_HEADER
  {
    if i == 0 then FILE_HEADER else Offset(es, i - 1) + ENTRY_HEADER + |es[i - 1].data|
  }

  /** Writes append to the last file or to new ones; earlier files stay. */
  predicate Grows(a: seq<LogFile>, b: seq<LogFile>) {
    && 0 < |a| <= |b|
    && (forall i :: 0 <= i < |a| - 1 ==> a[i].entries == b[i].entries)
    && IsPrefix(a[|a| - 1].entries, b[|a| - 1].entries)
  }

  /** All entries, in log order. */
  function Flat(log: seq<LogFile>): seq<LogEntry> {
    if log == [] then [] else Flat(log[..|log| - 1]) + log[|log| - 1].entries
  }

  /** How many entries lie before entry `i` of file `c`. */
  function Before(log: seq<LogFile>, c: nat, i: nat): nat
    requires c <= |log|
  {
    |Flat(log[..c])| + i
  }

  // ---- Offsets and bytes

  lemma {:induction false} OffsetsOrdered(es: seq<LogEntry>, i: nat, k: nat)
    requires i < k <= |es|
    ensures Offset(es, i) + ENTRY_HEADER + |es[i].data| <= Offset(es, k)
    decreases k
  {
    if k > i + 1 { OffsetsOrdered(es, i, k - 1); }
  }

  /** An offset below a boundary belongs to an earlier entry. */
  lemma OffsetBelow(es: seq<LogEntry>, i: nat, k: nat)
    requires i <= |es| && k <= |es|
    ensures Offset(es, i) < Offset(es, k) <==> i < k
  {
    if i < k { OffsetsOrdered(es, i, k); } else if k < i { OffsetsOrdered(es, k, i); }
  }

  lemma {:induction false} OffsetPrefix(a: seq<LogEntry>, b: seq<LogEntry>, i: nat)
    requires IsPrefix(a, b) && i <= |a|
    ensures Offset(a, i) == Offset(b, i)
    decreases i
  {
    if i > 0 { OffsetPrefix(a, b, i - 1); }
  }

  lemma {:induction false} PrintJoins(a: seq<LogEntry>, b: seq<LogEntry>)
    ensures PrintEntries(a + b) == PrintEntries(a) + PrintEntries(b)
    decreases |a|
  {
    if a == [] {
      assert a + b == b;
    } else {
      var all := a + b;
      assert all[0] == a[0] && all[1..] == a[1..] + b;
      PrintJoins(a[1..], b);
    }
  }

  lemma {:induction false} OffsetIsLength(es: seq<LogEntry>, i: nat)
    requires i <= |es|
    ensures Offset(es, i) == FILE_HEADER + |PrintEntries(es[..i])|
    decreases i
  {
    if i > 0 {
      OffsetIsLength(es, i - 1);
      assert es[..i] == es[..i - 1] + [es[i - 1]];
      PrintJoins(es[..i - 1], [es[i - 1]]);
      assert PrintEntries([es[i - 1]]) == PrintEntry(es[i - 1]) + [];
    }
  }

  lemma PrintSplit(header: nat, es: seq<LogEntry>, i: nat)
    requires i < |es|
    ensures Print(header, es) == Print(header, es[..i]) + PrintEntry(es[i]) + PrintEntries(es[i + 1..])
    ensures |Print(header, es[..i])| == Offset(es, i)
  {
    var rest := es[i..];
    assert rest[0] == es[i] && rest[1..] == es[i + 1..];
    assert es == es[..i] + rest;
    PrintJoins(es[..i], rest);
    OffsetIsLength(es, i);
    Rejoin(PrintHeader(header), PrintEntries(es[..i]), PrintEntry(es[i]), PrintEntries(es[i + 1..]));
  }

  lemma Rejoin(a: seq<byte>, b: seq<byte>, c: seq<byte>, d: seq<byte>)
    ensures a + (b + (c + d)) == a + b + c + d
  {
  }

  /** The mapped bytes hold entry `i` at its offset. */
  lemma EntryAt(f: LogFile, i: nat)
    requires ValidFile(f) && i < |f.entries|
    ensures var at := Offset(f.entries, i); var e := f.entries[i];
            && at + ENTRY_HEADER + |e.data| <= |f.bytes|
            && f.bytes[at..at + ENTRY_HEADER + |e.data|] == PrintEntry(e)
  {
    PrintSplit(f.header, f.entries, i);
    Middle(Print(f.header, f.entries[..i]), PrintEntry(f.entries[i]), PrintEntries(f.entries[i + 1..]), f.bytes);
  }

  lemma Middle(a: seq<byte>, b: seq<byte>, c: seq<byte>, all: seq<byte>)
    requires IsPrefix(a + b + c, all)
    ensures |a| + |b| <= |all| && all[|a|..|a| + |b|] == b
  {
    var sum := a + b + c;
    forall k | 0 <= k < |b| ensures all[|a| + k] == b[k] { assert all[..|sum|][|a| + k] == sum[|a| + k]; }
  }

  lemma SubSlice(s: seq<byte>, at: nat, part: seq<byte>, lo: nat, hi: nat)
    requires lo <= hi <= |part| && at + |part| <= |s| && s[at..at + |part|] == part
    ensures s[at + lo..at + hi] == part[lo..hi]
    ensures lo < hi ==> s[at + lo] == part[lo]
  {
    var cut := s[at..at + |part|];
    forall k | lo <= k < hi ensures s[at + k] == part[k] { assert cut[k] == s[at + k]; }
  }

  /** What the reader's loads return there. */
  lemma LoadsAt(bytes: seq<byte>, at: nat, e: LogEntry)
    requires Fits(e) && at + ENTRY_HEADER + |e.data| <= |bytes|
    requires bytes[at..at + ENTRY_HEADER + |e.data|] == PrintEntry(e)
    ensures ReadUint64BE(bytes[at..at + 8]) == e.timestamp
    ensures ReadUint32BE(bytes[at + 8..at + 12]) == |e.data|
    ensures bytes[at + 12] == e.flags
    ensures bytes[at + ENTRY_HEADER..at + ENTRY_HEADER + |e.data|] == e.data
  {
    Word64(e.timestamp);
    LengthReads(e);
    ReadLoads(bytes, at, WriteUint64BE(e.timestamp), WriteUint32BE(|e.data|), e);
  }

  lemma ReadLoads(bytes: seq<byte>, at: nat, a: seq<byte>, b: seq<byte>, e: LogEntry)
    requires |a| == 8 && |b| == 4 && ReadUint64BE(a) == e.timestamp && ReadUint32BE(b) == |e.data|
    requires at + ENTRY_HEADER + |e.data| <= |bytes|
    requires bytes[at..at + ENTRY_HEADER + |e.data|] == a + b + [e.flags] + e.data
    ensures ReadUint64BE(bytes[at..at + 8]) == e.timestamp && ReadUint32BE(bytes[at + 8..at + 12]) == |e.data|
    ensures bytes[at + 12] == e.flags && bytes[at + ENTRY_HEADER..at + ENTRY_HEADER + |e.data|] == e.data
  {
    LaidLoads(bytes, at, a, b, e.flags, e.data);
  }

  lemma LaidLoads(bytes: seq<byte>, at: nat, a: seq<byte>, b: seq<byte>, flags: byte, data: seq<byte>)
    requires |a| == 8 && |b| == 4 && at + ENTRY_HEADER + |data| <= |bytes|
    requires bytes[at..at + ENTRY_HEADER + |data|] == a + b + [flags] + data
    ensures bytes[at..at + 8] == a && bytes[at + 8..at + 12] == b && bytes[at + 12] == flags
    ensures bytes[at + ENTRY_HEADER..at + ENTRY_HEADER + |data|] == data
  {
    var p := a + b + [flags] + data;
    EntryLayout(a, b, flags, data, []);
    assert p + [] == p;
    SubSlice(bytes, at, p, 0, 8);
    SubSlice(bytes, at, p, 8, 12);
    SubSlice(bytes, at, p, 12, 13);
    SubSlice(bytes, at, p, ENTRY_HEADER, |p|);
  }

  // ---- The whole log as one sequence

  lemma {:induction false} FlatSame(a: seq<LogFile>, b: seq<LogFile>, n: nat)
    requires n <= |a| && n <= |b| && forall i :: 0 <= i < n ==> a[i].entries == b[i].entries
    ensures Flat(a[..n]) == Flat(b[..n])
    decreases n
  {
    if n > 0 {
      FlatSame(a, b, n - 1);
      assert a[..n][..n - 1] == a[..n - 1] && b[..n][..n - 1] == b[..n - 1];
    }
  }

  /** File `c` sits in the log right after everything before it. */
  lemma {:induction false} FlatSplit(log: seq<LogFile>, c: nat)
    requires c < |log|
    ensures IsPrefix(Flat(log[..c]) + log[c].entries, Flat(log))
    decreases |log|
  {
    var n := |log| - 1;
    if c == n {
    } else {
      FlatSplit(log[..n], c);
      assert log[..n][..c] == log[..c];
      PrefixOfSum(Flat(log[..c]) + log[c].entries, Flat(log[..n]), log[n].entries);
    }
  }

  lemma PrefixOfSum<T>(a: seq<T>, b: seq<T>, c: seq<T>)
    requires IsPrefix(a, b)
    ensures IsPrefix(a, b + c)
  {
  }

  lemma EntryInLog(log: seq<LogFile>, c: nat, i: nat)
    requires c < |log| && i < |log[c].entries|
    ensures Before(log, c, i) < |Flat(log)| && Flat(log)[Before(log, c, i)] == log[c].entries[i]
  {
    FlatSplit(log, c);
    var front := Flat(log[..c]) + log[c].entries;
    assert front[Before(log, c, i)] == log[c].entries[i];
  }

  /** What was written stays where it was. */
  lemma {:induction false} GrowthKeepsLog(a: seq<LogFile>, b: seq<LogFile>)
    requires Grows(a, b)
    ensures IsPrefix(Flat(a), Flat(b))
    ensures forall c, i :: 0 <= c < |a| && 0 <= i ==> Before(a, c, i) == Before(b, c, i)
  {
    var n := |a| - 1;
    FlatSame(a, b, n);
    FlatSplit(b, n);
    assert IsPrefix(Flat(a[..n]) + a[n].entries, Flat(b[..n]) + b[n].entries);
    PrefixTransitive(Flat(a), Flat(b[..n]) + b[n].entries, Flat(b));
    forall c, i | 0 <= c < |a| && 0 <= i ensures Before(a, c, i) == Before(b, c, i) { FlatSame(a, b, c); }
  }

  /** A place in an earlier file comes first. */
  lemma BeforeOrdered(log: seq<LogFile>, c: nat, i: nat, d: nat, j: nat)
    requires c < d <= |log| && i <= |log[c].entries|
    ensures Before(log, c, i) <= Before(log, d, j)
  {
    FlatSplit(log[..d], c);
    assert log[..d][..c] == log[..c];
  }

  lemma PrefixTransitive<T>(a: seq<T>, b: seq<T>, c: seq<T>)
    requires IsPrefix(a, b) && IsPrefix(b, c)
    ensures IsPrefix(a, c)
  {
  }
}
