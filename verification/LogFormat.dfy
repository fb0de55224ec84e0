/** The transaction log file: how entries are printed and how a file is parsed.
Timestamps are kept as their 64-bit patterns. */
module LogFormat {
  import opened Bytes

  const TOKEN: nat := 0x574f_4f46
  const FILE_HEADER: nat := 13
  const ENTRY_HEADER: nat := 13
  const NEGATIVE_ZERO: nat := 0x8000_0000_0000_0000

  datatype LogEntry = LogEntry(timestamp: nat, flags: byte, data: seq<byte>)
  datatype Log = Log(timestamp: nat, entries: seq<LogEntry>, size: nat)
  datatype Failure = TooSmall | ShortRead | BadToken | BadVersion(version: byte) | CorruptLength
  datatype Result<T> = Ok(value: T) | Err(why: Failure)

  /** Both doubles that compare equal to zero. */
  predicate IsZero(timestamp: nat) { timestamp == 0 || timestamp == NEGATIVE_ZERO }

  // ---- Big-endian words

  function WriteUint32BE(v: nat): (r: seq<byte>)
    ensures |r| == 4
  {
    [v / 0x100_0000 % 256, v / 0x1_0000 % 256, v / 0x100 % 256, v % 256]
  }

  function WriteUint64BE(v: nat): (r: seq<byte>)
    ensures |r| == 8
  {
    WriteUint32BE(v / WORD) + WriteUint32BE(v % WORD)
  }

  function ReadUint32BE(b: seq<byte>): (r: nat)
    requires |b| == 4
    ensures r < WORD
  {
    var b0: nat, b1: nat, b2: nat, b3: nat := b[0], b[1], b[2], b[3];
    b0 * 0x100_0000 + b1 * 0x1_0000 + b2 * 0x100 + b3
  }

  function ReadUint64BE(b: seq<byte>): (r: nat)
    requires |b| == 8
    ensures r < WORD * WORD
  {
    ReadUint32BE(b[..4]) * WORD + ReadUint32BE(b[4..])
  }

  lemma Word32(v: nat)
    ensures ReadUint32BE(WriteUint32BE(v)) == v % WORD
  {
    var a, b, c := v / 0x100, v / 0x1_0000, v / 0x100_0000;
    assert b == a / 0x100 && c == b / 0x100;
    assert v / WORD == c / 0x100;
  }

  lemma Word32Fits(v: nat)
    requires v < WORD
    ensures ReadUint32BE(WriteUint32BE(v)) == v
  {
    var r := ReadUint32BE(WriteUint32BE(v));
    assert r == v % WORD by { Word32(v); }
    assert v % WORD == v;
  }

  lemma Word32Back(b: seq<byte>)
    requires |b| == 4
    ensures WriteUint32BE(ReadUint32BE(b)) == b
  {
    var v := ReadUint32BE(b);
    var b0: nat, b1: nat, b2: nat := b[0], b[1], b[2];
    assert v / 0x100 == b0 * 0x1_0000 + b1 * 0x100 + b2;
    assert v / 0x1_0000 == b0 * 0x100 + b1;
    assert v / 0x100_0000 == b0;
  }

  lemma Word64(v: nat)
    requires v < WORD * WORD
    ensures ReadUint64BE(WriteUint64BE(v)) == v
  {
    var high, low := WriteUint32BE(v / WORD), WriteUint32BE(v % WORD);
    assert ReadUint32BE(high) == v / WORD by { Word32(v / WORD); DivBelow(v, WORD, WORD); }
    assert ReadUint32BE(low) == v % WORD by { Word32(v % WORD); }
    assert (high + low)[..4] == high && (high + low)[4..] == low;
  }

  lemma Word64Back(b: seq<byte>)
    requires |b| == 8
    ensures WriteUint64BE(ReadUint64BE(b)) == b
  {
    Word32Back(b[..4]);
    Word32Back(b[4..]);
    Recompose(ReadUint32BE(b[..4]), WORD, ReadUint32BE(b[4..]));
    assert b == b[..4] + b[4..];
  }

  /** The bytes of a word are its base-256 digits, most significant first, */
  lemma {:induction false} WordIsBigEndian(v: nat)
    ensures Value(256, WriteUint32BE(v)) == v % WORD
  {
    FourDigits(WriteUint32BE(v));
    Word32(v);
  }

  /** and a double word is its two words, high first. */
  lemma {:induction false} DoubleIsBigEndian(v: nat)
    requires v < WORD * WORD
    ensures Value(256, WriteUint64BE(v)[..4]) == v / WORD && Value(256, WriteUint64BE(v)[4..]) == v % WORD
  {
    Halves(v);
    WordIsBigEndian(v / WORD);
    WordIsBigEndian(v % WORD);
    SmallMod(v);
  }

  lemma Halves(v: nat)
    ensures WriteUint64BE(v)[..4] == WriteUint32BE(v / WORD) && WriteUint64BE(v)[4..] == WriteUint32BE(v % WORD)
  {
  }

  lemma SmallMod(v: nat)
    requires v < WORD * WORD
    ensures v / WORD % WORD == v / WORD && v % WORD % WORD == v % WORD
  {
    DivBelow(v, WORD, WORD);
  }

  lemma FourDigits(b: seq<byte>)
    requires |b| == 4
    ensures Value(256, b) == ReadUint32BE(b)
  {
    assert b[..3][..2] == b[..2] && b[..2][..1] == b[..1] && b[..1][..0] == [];
    assert Value(256, b[..1]) == b[0];
    assert Value(256, b[..2]) == Value(256, b[..1]) * 256 + b[1];
    assert Value(256, b[..3]) == Value(256, b[..2]) * 256 + b[2];
  }

  // ---- Printing

  function PrintEntry(e: LogEntry): (r: seq<byte>)
    ensures |r| == ENTRY_HEADER + |e.data|
  {
    WriteUint64BE(e.timestamp) + WriteUint32BE(|e.data|) + [e.flags] + e.data
  }

  function PrintEntries(es: seq<LogEntry>): seq<byte> {
    if es == [] then [] else PrintEntry(es[0]) + PrintEntries(es[1..])
  }

  function PrintHeader(timestamp: nat): (r: seq<byte>)
    ensures |r| == FILE_HEADER
  {
    WriteUint32BE(TOKEN) + [1] + WriteUint64BE(timestamp)
  }

  function Print(timestamp: nat, es: seq<LogEntry>): seq<byte> { PrintHeader(timestamp) + PrintEntries(es) }

  /** What the fields can hold. */
  predicate Fits(e: LogEntry) { e.timestamp < WORD * WORD && |e.data| < WORD }

  // ---- Parsing

  /** One entry at the front of `bytes`; nothing where the padding starts. */
  datatype First = Padding | Entry(entry: LogEntry)

  function ParseEntry(bytes: seq<byte>): (r: Result<First>)
    ensures r.Ok? && r.value.Entry? ==> ENTRY_HEADER + |r.value.entry.data| <= |bytes|
  {
    if |bytes| < 8 then Err(ShortRead)
    else if IsZero(ReadUint64BE(bytes[..8])) then Ok(Padding)
    else if |bytes| < ENTRY_HEADER then Err(ShortRead)
    else
      var length := ReadUint32BE(bytes[8..12]);
      if length > |bytes| - ENTRY_HEADER then Err(CorruptLength)
      else Ok(Entry(LogEntry(ReadUint64BE(bytes[..8]), bytes[12], bytes[ENTRY_HEADER..ENTRY_HEADER + length])))
  }

  datatype Body = Body(entries: seq<LogEntry>, size: nat)

  function ParseBody(bytes: seq<byte>): Result<Body>
    decreases |bytes|
  {
    if bytes == [] then Ok(Body([], 0))
    else
      match ParseEntry(bytes)
      case Err(why) => Err(why)
      case Ok(Padding) => Ok(Body([], 0))
      case Ok(Entry(e)) => Prepend(e, ParseBody(bytes[ENTRY_HEADER + |e.data|..]))
  }

  function Prepend(e: LogEntry, r: Result<Body>): Result<Body> {
    match r
    case Err(why) => r
    case Ok(body) => Ok(Body([e] + body.entries, ENTRY_HEADER + |e.data| + body.size))
  }

  function Parse(file: seq<byte>): Result<Log> {
    if file == [] then Err(TooSmall)
    else if |file| < 4 then Err(ShortRead)
    else if ReadUint32BE(file[..4]) != TOKEN then Err(BadToken)
    else if |file| < 5 then Err(ShortRead)
    else if file[4] != 1 then Err(BadVersion(file[4]))
    else if |file| < FILE_HEADER then Err(ShortRead)
    else
      match ParseBody(file[FILE_HEADER..])
      case Err(why) => Err(why)
      case Ok(body) => Ok(Log(ReadUint64BE(file[5..FILE_HEADER]), body.entries, FILE_HEADER + body.size))
  }

  /** The bounded read both header and entries go through. */
  method Read(file: seq<byte>, offset: nat, n: nat) returns (r: Result<seq<byte>>, next: nat)
    requires offset <= |file|
    ensures r == if offset + n <= |file| then Ok(file[offset..offset + n]) else Err(ShortRead)
    ensures next == if offset + n <= |file| then offset + n else |file|
  {
    next := if offset + n <= |file| then offset + n else |file|;
    if next - offset != n { return Err(ShortRead), next; }
    return Ok(file[offset..next]), next;
  }

  method ParseTransactionLog(file: seq<byte>) returns (r: Result<Log>)
    ensures r == Parse(file)
  {
    if |file| == 0 { return Err(TooSmall); }
    var offset := 0;
    var got, _ := Read(file, 0, 4);
    if got.Err? { return Err(got.why); }
    if ReadUint32BE(got.value) != TOKEN { return Err(BadToken); }
    got, offset := Read(file, 4, 1);
    if got.Err? { return Err(got.why); }
    if got.value[0] != 1 { return Err(BadVersion(got.value[0])); }
    got, offset := Read(file, 5, 8);
    if got.Err? { return Err(got.why); }
    var timestamp := ReadUint64BE(got.value);
    var body := ParseLoop(file, offset);
    match body
    case Err(why) => return Err(why);
    case Ok(b) => return Ok(Log(timestamp, b.entries, FILE_HEADER + b.size));
  }

  /** The entry loop, from `start` to the end of the file or the padding. */
  method ParseLoop(file: seq<byte>, start: nat) returns (r: Result<Body>)
    requires start <= |file|
    ensures r == ParseBody(file[start..])
  {
    var offset, size := start, |file|;
    var entries: seq<LogEntry> := [];
    AfterNone(ParseBody(file[start..]));
    while offset < size
      invariant start <= offset <= size == |file|
      invariant ParseBody(file[start..]) == After(entries, offset - start, ParseBody(file[offset..]))
      decreases size - offset
    {
      var first, next := ParseOne(file, offset);
      match first {
        case Err(why) => return Err(why);
        case Ok(Padding) =>
          assert entries + [] == entries;
          return Ok(Body(entries, offset - start));
        case Ok(Entry(e)) =>
          assert file[offset..][ENTRY_HEADER + |e.data|..] == file[next..];
          AfterOne(entries, offset - start, e, ParseBody(file[next..]));
          entries := entries + [e];
          offset := next;
      }
    }
    assert file[offset..] == [] && entries + [] == entries;
    return Ok(Body(entries, offset - start));
  }

  /** One turn of the loop: its reads, and its length check before the data read. */
  method ParseOne(file: seq<byte>, offset: nat) returns (r: Result<First>, next: nat)
    requires offset < |file|
    ensures r == ParseEntry(file[offset..])
    ensures r.Ok? && r.value.Entry? ==> next == offset + ENTRY_HEADER + |r.value.entry.data|
  {
    ghost var rest := file[offset..];
    var got;
    got, next := Read(file, offset, 8);
    if got.Err? { return Err(got.why), next; }
    assert got.value == rest[..8];
    var timestamp := ReadUint64BE(got.value);
    if IsZero(timestamp) { return Ok(Padding), next; }
    got, next := Read(file, next, 4);
    if got.Err? { return Err(got.why), next; }
    assert got.value == rest[8..12];
    var length := ReadUint32BE(got.value);
    got, next := Read(file, next, 1);
    if got.Err? { return Err(got.why), next; }
    var flags := got.value[0];
    if length > |file| - next { return Err(CorruptLength), next; }
    got, next := Read(file, next, length);
    assert got.value == rest[ENTRY_HEADER..ENTRY_HEADER + length];
    return Ok(Entry(LogEntry(timestamp, flags, got.value))), next;
  }

  /** A parse that had already taken `entries` from the first `size` bytes. */
  function After(entries: seq<LogEntry>, size: nat, r: Result<Body>): Result<Body> {
    match r
    case Err(why) => r
    case Ok(body) => Ok(Body(entries + body.entries, size + body.size))
  }

  lemma AfterNone(r: Result<Body>)
    ensures After([], 0, r) == r
  {
    if r.Ok? { assert [] + r.value.entries == r.value.entries; }
  }

  lemma AfterOne(entries: seq<LogEntry>, size: nat, e: LogEntry, r: Result<Body>)
    ensures After(entries, size, Prepend(e, r)) == After(entries + [e], size + ENTRY_HEADER + |e.data|, r)
  {
    if r.Ok? { assert entries + ([e] + r.value.entries) == (entries + [e]) + r.value.entries; }
  }

  // ---- Round trips

  lemma EntryLayout(a: seq<byte>, b: seq<byte>, flags: byte, data: seq<byte>, rest: seq<byte>)
    requires |a| == 8 && |b| == 4
    ensures var all := a + b + [flags] + data + rest;
            && all[..8] == a && all[8..12] == b && all[12] == flags
            && all[ENTRY_HEADER..ENTRY_HEADER + |data|] == data && all[ENTRY_HEADER + |data|..] == rest
  {
  }

  lemma LaidEntryReads(a: seq<byte>, b: seq<byte>, flags: byte, data: seq<byte>, rest: seq<byte>)
    requires |a| == 8 && |b| == 4 && ReadUint32BE(b) == |data|
    ensures ParseEntry(a + b + [flags] + data + rest)
            == if IsZero(ReadUint64BE(a)) then Ok(Padding) else Ok(Entry(LogEntry(ReadUint64BE(a), flags, data)))
  {
    EntryLayout(a, b, flags, data, rest);
  }

  lemma EntryReads(e: LogEntry, rest: seq<byte>)
    requires Fits(e)
    ensures ParseEntry(PrintEntry(e) + rest) == if IsZero(e.timestamp) then Ok(Padding) else Ok(Entry(e))
  {
    Word64(e.timestamp);
    assert ReadUint32BE(WriteUint32BE(|e.data|)) == |e.data| by { Word32(|e.data|); }
    LaidEntryReads(WriteUint64BE(e.timestamp), WriteUint32BE(|e.data|), e.flags, e.data, rest);
  }

  lemma ZerosRead(n: nat)
    ensures ParseBody(Zeros(n)) == if n == 0 || n >= 8 then Ok(Body([], 0)) else Err(ShortRead)
  {
    if n >= 8 {
      assert Zeros(n)[..8] == Zeros(8);
      assert ReadUint64BE(Zeros(8)) == 0;
    }
  }

  predicate AllFit(es: seq<LogEntry>) { forall i :: 0 <= i < |es| ==> Fits(es[i]) }

  predicate NoneZero(es: seq<LogEntry>) { forall i :: 0 <= i < |es| ==> !IsZero(es[i].timestamp) }

  lemma {:induction false} BodyRoundTrip(es: seq<LogEntry>, n: nat)
    requires AllFit(es)
    ensures Answers(es, n, ParseBody(PrintEntries(es) + Zeros(n)), |PrintEntries(es)|)
    decreases |es|
  {
    if es == [] {
      NothingPrinted(n);
    } else {
      BodyRoundTrip(es[1..], n);
      BodyMore(es, n);
    }
  }

  lemma {:induction false} BodyMore(es: seq<LogEntry>, n: nat)
    requires es != [] && AllFit(es)
    requires Answers(es[1..], n, ParseBody(PrintEntries(es[1..]) + Zeros(n)), |PrintEntries(es[1..])|)
    ensures Answers(es, n, ParseBody(PrintEntries(es) + Zeros(n)), |PrintEntries(es)|)
  {
    var r, size := ParseBody(PrintEntries(es[1..]) + Zeros(n)), |PrintEntries(es[1..])|;
    var all := ParseBody(PrintEntries(es) + Zeros(n));
    assert all == if IsZero(es[0].timestamp) then Ok(Body([], 0)) else Prepend(es[0], r) by { ParseMore(es, n); }
    assert |PrintEntries(es)| == ENTRY_HEADER + |es[0].data| + size by { PrintedSize(es); }
    RoundTripStep(es, n, all, r, size, |PrintEntries(es)|);
  }

  lemma {:induction false} PrintedSize(es: seq<LogEntry>)
    requires es != []
    ensures |PrintEntries(es)| == ENTRY_HEADER + |es[0].data| + |PrintEntries(es[1..])|
  {
  }

  lemma {:induction false} NothingPrinted(n: nat)
    ensures Answers([], n, ParseBody(PrintEntries([]) + Zeros(n)), 0)
  {
    ZerosRead(n);
    assert PrintEntries([]) + Zeros(n) == Zeros(n);
  }

  /** What `BodyRoundTrip` says of one parse. */
  predicate Answers(es: seq<LogEntry>, n: nat, r: Result<Body>, size: nat) {
    && (r == Ok(Body(es, size)) <==> (n == 0 || n >= 8) && NoneZero(es))
    && (NoneZero(es) && 0 < n < 8 ==> r == Err(ShortRead))
  }

  lemma {:induction false} RoundTripStep(
      es: seq<LogEntry>, n: nat, all: Result<Body>, r: Result<Body>, size: nat, total: nat)
    requires es != [] && Answers(es[1..], n, r, size)
    requires all == if IsZero(es[0].timestamp) then Ok(Body([], 0)) else Prepend(es[0], r)
    requires total == ENTRY_HEADER + |es[0].data| + size
    ensures Answers(es, n, all, total)
  {
    BodyStep(es, r, size);
    NoneZeroStep(es);
  }

  lemma {:induction false} ParseMore(es: seq<LogEntry>, n: nat)
    requires es != [] && AllFit(es)
    ensures ParseBody(PrintEntries(es) + Zeros(n))
            == if IsZero(es[0].timestamp) then Ok(Body([], 0))
               else Prepend(es[0], ParseBody(PrintEntries(es[1..]) + Zeros(n)))
  {
    var rest := PrintEntries(es[1..]) + Zeros(n);
    assert PrintEntries(es) + Zeros(n) == PrintEntry(es[0]) + rest;
    ParseFirst(es[0], rest);
  }

  lemma {:induction false} ParseFirst(e: LogEntry, rest: seq<byte>)
    requires Fits(e)
    ensures ParseBody(PrintEntry(e) + rest)
            == if IsZero(e.timestamp) then Ok(Body([], 0)) else Prepend(e, ParseBody(rest))
  {
    EntryReads(e, rest);
    assert (PrintEntry(e) + rest)[|PrintEntry(e)|..] == rest;
  }

  lemma NoneZeroStep(es: seq<LogEntry>)
    requires es != []
    ensures NoneZero(es) <==> !IsZero(es[0].timestamp) && NoneZero(es[1..])
  {
    assert es == [es[0]] + es[1..];
  }

  lemma BodyStep(es: seq<LogEntry>, r: Result<Body>, size: nat)
    requires es != []
    ensures Prepend(es[0], r) == Ok(Body(es, ENTRY_HEADER + |es[0].data| + size)) <==> r == Ok(Body(es[1..], size))
  {
    if r.Ok? {
      var all := [es[0]] + r.value.entries;
      assert all[1..] == r.value.entries;
      assert es == [es[0]] + es[1..];
    }
  }

  /** Parsing a printed log followed by `n` zero bytes gives back exactly its
  entries, and the size before the padding, if and only if the padding is empty
  or holds a whole timestamp and no entry has a zero timestamp. A shorter padding
  is a read error. */
  lemma {:induction false} PrintThenParse(timestamp: nat, es: seq<LogEntry>, n: nat)
    requires timestamp < WORD * WORD && AllFit(es)
    ensures Parse(Print(timestamp, es) + Zeros(n)) == Ok(Log(timestamp, es, |Print(timestamp, es)|))
            <==> (n == 0 || n >= 8) && NoneZero(es)
    ensures NoneZero(es) && 0 < n < 8 ==>
              Parse(Print(timestamp, es) + Zeros(n)) == Err(ShortRead)
  {
    var file := Print(timestamp, es) + Zeros(n);
    var body := PrintEntries(es) + Zeros(n);
    HeaderReads(timestamp, body);
    assert file == PrintHeader(timestamp) + body;
    BodyRoundTrip(es, n);
  }

  lemma HeaderReads(timestamp: nat, body: seq<byte>)
    requires timestamp < WORD * WORD
    ensures var file := PrintHeader(timestamp) + body;
            && ReadUint32BE(file[..4]) == TOKEN && file[4] == 1
            && ReadUint64BE(file[5..FILE_HEADER]) == timestamp && file[FILE_HEADER..] == body
  {
    var file := PrintHeader(timestamp) + body;
    Word32(TOKEN);
    Word64(timestamp);
    assert file[..4] == WriteUint32BE(TOKEN);
    assert file[5..FILE_HEADER] == WriteUint64BE(timestamp);
  }

  lemma EntryPrints(bytes: seq<byte>)
    requires ParseEntry(bytes).Ok? && ParseEntry(bytes).value.Entry?
    ensures var e := ParseEntry(bytes).value.entry;
            PrintEntry(e) == bytes[..ENTRY_HEADER + |e.data|] && Fits(e) && !IsZero(e.timestamp)
  {
    var e := ParseEntry(bytes).value.entry;
    Word64Back(bytes[..8]);
    Word32Back(bytes[8..12]);
    var n := ENTRY_HEADER + |e.data|;
    assert bytes[..n] == bytes[..8] + bytes[8..12] + [bytes[12]] + bytes[ENTRY_HEADER..n];
  }

  /** Where a parse stops: the end of the bytes, or a zero timestamp. */
  predicate Stops(bytes: seq<byte>, at: nat) {
    at == |bytes| || (at + 8 <= |bytes| && IsZero(ReadUint64BE(bytes[at..at + 8])))
  }

  predicate Prints(bytes: seq<byte>, b: Body) {
    && b.size <= |bytes| && PrintEntries(b.entries) == bytes[..b.size] && Stops(bytes, b.size)
    && AllFit(b.entries) && NoneZero(b.entries)
  }

  lemma {:induction false} BodyPrints(bytes: seq<byte>)
    requires ParseBody(bytes).Ok?
    ensures Prints(bytes, ParseBody(bytes).value)
    decreases |bytes|
  {
    if bytes != [] && ParseEntry(bytes) != Ok(Padding) {
      var e := ParseEntry(bytes).value.entry;
      EntryPrints(bytes);
      var rest := bytes[ENTRY_HEADER + |e.data|..];
      BodyPrints(rest);
      PrintsStep(bytes, e, ParseBody(rest).value);
    }
  }

  lemma PrintsStep(bytes: seq<byte>, e: LogEntry, c: Body)
    requires Fits(e) && !IsZero(e.timestamp) && ENTRY_HEADER + |e.data| <= |bytes|
    requires PrintEntry(e) == bytes[..ENTRY_HEADER + |e.data|] && Prints(bytes[ENTRY_HEADER + |e.data|..], c)
    ensures Prints(bytes, Body([e] + c.entries, ENTRY_HEADER + |e.data| + c.size))
  {
    var k := ENTRY_HEADER + |e.data|;
    var rest, es := bytes[k..], [e] + c.entries;
    assert es[1..] == c.entries && PrintEntries(es) == PrintEntry(e) + PrintEntries(c.entries);
    assert bytes[..k + c.size] == bytes[..k] + rest[..c.size];
    StopsLater(bytes, k, c.size);
  }

  lemma StopsLater(bytes: seq<byte>, k: nat, at: nat)
    requires k <= |bytes| && Stops(bytes[k..], at)
    ensures Stops(bytes, k + at)
  {
    if at + 8 <= |bytes| - k { assert bytes[k + at..k + at + 8] == bytes[k..][at..at + 8]; }
  }

  /** Printing what any successful parse returned reproduces the file up to the
  reported size, and the parse stopped there for one of the two good reasons. */
  lemma {:induction false} ParseThenPrint(file: seq<byte>)
    requires Parse(file).Ok?
    ensures var log := Parse(file).value;
            && log.size <= |file| && Print(log.timestamp, log.entries) == file[..log.size] && Stops(file, log.size)
            && log.timestamp < WORD * WORD && AllFit(log.entries) && NoneZero(log.entries)
  {
    var body := file[FILE_HEADER..];
    BodyPrints(body);
    var size := ParseBody(body).value.size;
    HeaderPrints(file);
    assert file[..FILE_HEADER + size] == file[..FILE_HEADER] + body[..size];
    StopsLater(file, FILE_HEADER, size);
  }

  lemma HeaderPrints(file: seq<byte>)
    requires |file| >= FILE_HEADER && ReadUint32BE(file[..4]) == TOKEN && file[4] == 1
    ensures PrintHeader(ReadUint64BE(file[5..FILE_HEADER])) == file[..FILE_HEADER]
  {
    Word32Back(file[..4]);
    Word64Back(file[5..FILE_HEADER]);
    assert file[..FILE_HEADER] == file[..4] + [file[4]] + file[5..FILE_HEADER];
  }

  /** What follows the reported size never matters: cutting it off parses alike. */
  lemma {:induction false} PaddingIsIgnored(file: seq<byte>)
    requires Parse(file).Ok?
    ensures var log := Parse(file).value; log.size <= |file| && Parse(file[..log.size]) == Ok(log)
  {
    ParseThenPrint(file);
    var log := Parse(file).value;
    PrintThenParse(log.timestamp, log.entries, 0);
    assert file[..log.size] == Print(log.timestamp, log.entries) + Zeros(0);
  }

  // ---- What the bytes are, and what each error means

  /** A printed file starts with "WOOF" and a one, followed by its timestamp. */
  lemma PrintLiteral(timestamp: nat, es: seq<LogEntry>)
    ensures var file := Print(timestamp, es);
            |file| >= FILE_HEADER && file[..5] == [0x57, 0x4f, 0x4f, 0x46, 1] && file[5..13] == WriteUint64BE(timestamp)
  {
    var file, head := Print(timestamp, es), PrintHeader(timestamp);
    assert WriteUint32BE(TOKEN) == [0x57, 0x4f, 0x4f, 0x46];
    assert head[..5] == [0x57, 0x4f, 0x4f, 0x46, 1] && head[5..13] == WriteUint64BE(timestamp);
    assert file[..5] == head[..5] && file[5..13] == head[5..13];
  }

  lemma TokenLiteral(b: seq<byte>)
    requires |b| == 4
    ensures ReadUint32BE(b) == TOKEN <==> b == [0x57, 0x4f, 0x4f, 0x46]
  {
    Word32Back(b);
    assert WriteUint32BE(TOKEN) == [0x57, 0x4f, 0x4f, 0x46];
    assert ReadUint32BE([0x57, 0x4f, 0x4f, 0x46]) == TOKEN;
  }

  /** Which header a file is refused for, byte by byte. */
  lemma HeaderErrors(file: seq<byte>)
    ensures Parse(file) == Err(TooSmall) <==> file == []
    ensures Parse(file) == Err(BadToken) <==> |file| >= 4 && file[..4] != [0x57, 0x4f, 0x4f, 0x46]
    ensures forall v :: Parse(file) == Err(BadVersion(v)) <==>
              |file| >= 5 && file[..4] == [0x57, 0x4f, 0x4f, 0x46] && file[4] == v && v != 1
    ensures Parse(file).Ok? ==> |file| >= FILE_HEADER && file[..5] == [0x57, 0x4f, 0x4f, 0x46, 1]
  {
    if |file| >= 4 { TokenLiteral(file[..4]); }
    if |file| >= FILE_HEADER { BodyErrors(file[FILE_HEADER..]); }
    if |file| >= 5 { assert file[..5] == file[..4] + [file[4]]; }
  }

  lemma {:induction false} BodyErrors(bytes: seq<byte>)
    ensures ParseBody(bytes).Err? ==> ParseBody(bytes).why == ShortRead || ParseBody(bytes).why == CorruptLength
    decreases |bytes|
  {
    if bytes != [] && ParseEntry(bytes).Ok? && ParseEntry(bytes).value.Entry? {
      BodyErrors(bytes[ENTRY_HEADER + |ParseEntry(bytes).value.entry.data|..]);
    }
  }

  /** A torn last entry, whose header declares more than the file still holds, is
  refused as such, after any entries. */
  lemma {:induction false} TornEntryIsRefused(es: seq<LogEntry>, torn: LogEntry, kept: nat)
    requires AllFit(es) && NoneZero(es) && Fits(torn) && !IsZero(torn.timestamp) && kept < |torn.data|
    ensures ParseBody(PrintEntries(es) + PrintEntry(torn)[..ENTRY_HEADER + kept]) == Err(CorruptLength)
    decreases |es|
  {
    var tail := PrintEntry(torn)[..ENTRY_HEADER + kept];
    if es == [] {
      TornFirst(torn, kept);
      assert PrintEntries(es) + tail == tail;
    } else {
      TornEntryIsRefused(es[1..], torn, kept);
      TornMore(es, tail);
    }
  }

  lemma {:induction false} TornMore(es: seq<LogEntry>, tail: seq<byte>)
    requires es != [] && AllFit(es) && NoneZero(es) && ParseBody(PrintEntries(es[1..]) + tail) == Err(CorruptLength)
    ensures ParseBody(PrintEntries(es) + tail) == Err(CorruptLength)
  {
    var rest := PrintEntries(es[1..]) + tail;
    var whole := PrintEntry(es[0]) + rest;
    assert ParseBody(whole) == Err(CorruptLength) by { ParseFirst(es[0], rest); }
    assert PrintEntries(es) + tail == whole by { JoinsFirst(es, tail); }
  }

  lemma {:induction false} JoinsFirst(es: seq<LogEntry>, tail: seq<byte>)
    requires es != []
    ensures PrintEntries(es) + tail == PrintEntry(es[0]) + (PrintEntries(es[1..]) + tail)
  {
  }

  lemma {:induction false} TornFirst(torn: LogEntry, kept: nat)
    requires Fits(torn) && !IsZero(torn.timestamp) && kept < |torn.data|
    ensures ParseBody(PrintEntry(torn)[..ENTRY_HEADER + kept]) == Err(CorruptLength)
  {
    Word64(torn.timestamp);
    LengthReads(torn);
    TornLaid(WriteUint64BE(torn.timestamp), WriteUint32BE(|torn.data|), torn.flags, torn.data, kept);
  }

  lemma LengthReads(e: LogEntry)
    requires Fits(e)
    ensures ReadUint32BE(WriteUint32BE(|e.data|)) == |e.data|
  {
    Word32Fits(|e.data|);
  }

  lemma {:induction false} TornLaid(a: seq<byte>, b: seq<byte>, flags: byte, data: seq<byte>, kept: nat)
    requires |a| == 8 && |b| == 4 && kept < |data| && !IsZero(ReadUint64BE(a)) && ReadUint32BE(b) == |data|
    ensures ParseBody((a + b + [flags] + data)[..ENTRY_HEADER + kept]) == Err(CorruptLength)
  {
    var cut := (a + b + [flags] + data)[..ENTRY_HEADER + kept];
    assert |cut| == ENTRY_HEADER + kept && cut[..8] == a && cut[8..12] == b;
  }
}
