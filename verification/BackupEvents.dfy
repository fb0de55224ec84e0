/** The streaming backup from end to end: the native walk over live files and
transaction logs, the header and chunk events it emits, and the tar encoder the
events drive. Short reads, read errors and aborts may strike at any point; `calm`
says that no read fails and nobody aborts. */
module BackupEvents {
  import opened Wrappers
  import opened Bytes
  import opened TarFormat
  import opened TarArchive
  import opened TarEncoder

  const CHUNK: nat := 0x10_0000
  const MODE: int := 0x1a4  // 0644 in octal

  /** A live file: `disk` is what the file holds, which may be more than `size`. */
  datatype LiveFile = LiveFile(name: seq<byte>, size: nat, replacement: seq<byte>, disk: seq<byte>)

  /** A collected log file; `present` is what the existence test finds. */
  datatype LogFile = LogFile(
    store: seq<byte>, name: seq<byte>, inlined: seq<byte>, present: bool, limit: nat, mtime: int, disk: seq<byte>)

  /** How the native walk ends. `Refused` carries the encoder's complaint. */
  datatype Ending = Done | Refused(why: Status) | ShortFile | ReadError | Aborted

  const LOGS: seq<byte> :=
    [0x74, 0x72, 0x61, 0x6e, 0x73, 0x61, 0x63, 0x74, 0x69, 0x6f, 0x6e, 0x5f, 0x6c, 0x6f, 0x67, 0x73, SLASH]

  function LogPath(l: LogFile): seq<byte> { LOGS + l.store + [SLASH] + l.name }

  function Ascii(s: string): (r: seq<byte>)
    requires forall i :: 0 <= i < |s| ==> s[i] as int < 128
    ensures |r| == |s|
  {
    seq(|s|, i requires 0 <= i < |s| => s[i] as int)
  }

  lemma LogPathIsSpelled(l: LogFile)
    ensures LogPath(l) == Ascii("transaction_logs/") + l.store + Ascii("/") + l.name
  {
    assert LOGS == Ascii("transaction_logs/") && [SLASH] == Ascii("/");
  }

  /** What the collector promises of a file: inlined contents have the declared size. */
  predicate WellSized(f: LiveFile) { f.replacement != [] ==> |f.replacement| == f.size }

  predicate Readable(f: LiveFile) { f.replacement == [] ==> f.size <= |f.disk| }

  predicate ReadableLog(l: LogFile) { l.inlined == [] && l.present ==> l.limit <= |l.disk| }

  /** The prefix of a file that belongs in the backup. */
  function Prefix(disk: seq<byte>, n: nat): seq<byte> { if n <= |disk| then disk[..n] else disk }

  function FileOf(f: LiveFile): File {
    File(f.name, f.size, MODE, 0, if f.replacement != [] then f.replacement else Prefix(f.disk, f.size))
  }

  function LogOf(l: LogFile): File {
    if l.inlined != [] then File(LogPath(l), |l.inlined|, MODE, l.mtime, l.inlined)
    else File(LogPath(l), l.limit, MODE, l.mtime, Prefix(l.disk, l.limit))
  }

  function Files(fs: seq<LiveFile>): (r: seq<File>) {
    if fs == [] then [] else Files(fs[..|fs| - 1]) + [FileOf(fs[|fs| - 1])]
  }

  /** A log purged before its header is emitted is left out. */
  function Logs(ls: seq<LogFile>): (r: seq<File>) {
    if ls == [] then []
    else
      var l := ls[|ls| - 1];
      Logs(ls[..|ls| - 1]) + (if l.inlined == [] && !l.present then [] else [LogOf(l)])
  }

  /** The encoder is between entries, having been given exactly `files`. */
  ghost predicate Between(enc: Encoder, files: seq<File>)
    reads enc
  {
    enc.Valid() && !enc.finalized && enc.remaining == 0 && enc.files == files
  }

  /** The encoder has `data` of the entry `f`, after `files`. */
  ghost predicate Within(enc: Encoder, files: seq<File>, f: File, data: seq<byte>)
    reads enc
  {
    && enc.Valid() && !enc.finalized && enc.files == files + [f.(data := data)]
    && enc.remaining == f.size - |data|
  }

  /** A header event, acknowledged, refused by the encoder, or cut by an abort
  before or after it reached the encoder. */
  method EmitFile(enc: Encoder, path: seq<byte>, size: nat, mtime: int, calm: bool, ghost files: seq<File>)
    returns (r: Ending)
    requires Between(enc, files)
    modifies enc
    ensures r.Done? || r.Aborted? || r == Refused(NameTooLong)
    ensures calm ==> !r.Aborted?
    ensures r.Done? ==> Within(enc, files, File(path, size, MODE, mtime, []), [])
    ensures r.Refused? ==> Split(path) == None
    ensures r.Done? ==> Split(path).Some?
  {
    var before: bool, after: bool := *, *;
    if before && !calm { return Aborted; }
    var status := enc.AddFile(path, size, MODE, mtime);
    if status != Ok { return Refused(status); }
    if after && !calm { return Aborted; }
    return Done;
  }

  /** A chunk event for an entry that still lacks it. */
  method EmitChunk(enc: Encoder, chunk: seq<byte>, calm: bool,
                   ghost files: seq<File>, ghost f: File, ghost data: seq<byte>)
    returns (r: Ending)
    requires Within(enc, files, f, data) && 0 < |chunk| <= f.size - |data|
    modifies enc
    ensures r.Done? || (r.Aborted? && !calm)
    ensures r.Done? ==> Within(enc, files, f, data + chunk)
  {
    var before: bool, after: bool := *, *;
    if before && !calm { return Aborted; }
    var status := enc.WriteData(chunk);
    if status != Ok { return Refused(status); }
    if after && !calm { return Aborted; }
    return Done;
  }

  /** Contents already in memory. */
  method StreamContents(enc: Encoder, contents: seq<byte>, calm: bool, ghost files: seq<File>, ghost f: File)
    returns (r: Ending)
    requires Within(enc, files, f, []) && f.size == |contents|
    modifies enc
    ensures r.Done? || (r.Aborted? && !calm)
    ensures r.Done? ==> Within(enc, files, f, contents)
  {
    var offset := 0;
    while offset < |contents|
      invariant offset <= |contents| && Within(enc, files, f, contents[..offset])
    {
      var n := if CHUNK < |contents| - offset then CHUNK else |contents| - offset;
      r := EmitChunk(enc, contents[offset..offset + n], calm, files, f, contents[..offset]);
      if r != Done { return r; }
      assert contents[..offset] + contents[offset..offset + n] == contents[..offset + n];
      offset := offset + n;
    }
    assert contents[..offset] == contents;
    return Done;
  }

  /** One read of up to `toRead` bytes, short reads included. */
  method Read(disk: seq<byte>, at: nat, toRead: nat, calm: bool) returns (r: Ending, piece: seq<byte>)
    requires at <= |disk| && 0 < toRead
    ensures calm ==> !r.ReadError?
    ensures r.Done? || r.ShortFile? || r.ReadError?
    ensures r.Done? ==> 0 < |piece| <= toRead && at + |piece| <= |disk| && disk[..at] + piece == disk[..at + |piece|]
    ensures r.ShortFile? ==> |disk| == at
  {
    var broken: bool := *;
    if broken && !calm { return ReadError, []; }
    if at == |disk| { return ShortFile, []; }
    var n: int := *;
    if n <= 0 || n > toRead || at + n > |disk| { n := 1; }
    return Done, disk[at..at + n];
  }

  /** The first `limit` bytes of a file. */
  method StreamFilePrefix(enc: Encoder, disk: seq<byte>, limit: nat, calm: bool, ghost files: seq<File>, ghost f: File)
    returns (r: Ending)
    requires Within(enc, files, f, []) && f.size == limit
    modifies enc
    ensures !r.Refused? && (calm ==> r.Done? || r.ShortFile?)
    ensures r.Done? ==> limit <= |disk| && Within(enc, files, f, Prefix(disk, limit))
    ensures r.ShortFile? ==> |disk| < limit
  {
    var broken: bool := *;
    if broken && !calm { return ReadError; }
    var remaining, at := limit, 0;
    while remaining > 0
      invariant remaining + at == limit && at <= |disk|
      invariant Within(enc, files, f, disk[..at])
    {
      var piece;
      r, piece := Read(disk, at, if remaining < CHUNK then remaining else CHUNK, calm);
      if r != Done { return r; }
      r := EmitChunk(enc, piece, calm, files, f, disk[..at]);
      if r != Done { return r; }
      at, remaining := at + |piece|, remaining - |piece|;
    }
    assert Prefix(disk, limit) == disk[..at];
    return Done;
  }

  method StreamLiveFile(enc: Encoder, file: LiveFile, calm: bool, ghost files: seq<File>) returns (r: Ending)
    requires Between(enc, files) && WellSized(file)
    modifies enc
    ensures calm ==> !r.Aborted? && !r.ReadError?
    ensures r.Refused? ==> r.why == NameTooLong && Split(file.name) == None
    ensures r.ShortFile? ==> !Readable(file)
    ensures r.Done? ==> Readable(file) && Split(file.name).Some? && Between(enc, files + [FileOf(file)])
  {
    var cancelled: bool := *;
    if cancelled && !calm { return Aborted; }
    r := EmitFile(enc, file.name, file.size, 0, calm, files);
    if r != Done { return r; }
    ghost var f := File(file.name, file.size, MODE, 0, []);
    if file.replacement != [] {
      r := StreamContents(enc, file.replacement, calm, files, f);
    } else {
      r := StreamFilePrefix(enc, file.disk, file.size, calm, files, f);
    }
  }

  method StreamLogFile(enc: Encoder, log: LogFile, calm: bool, ghost files: seq<File>) returns (r: Ending)
    requires Between(enc, files)
    modifies enc
    ensures calm ==> !r.Aborted? && !r.ReadError?
    ensures r.Refused? ==> r.why == NameTooLong && Unsendable(log)
    ensures r.ShortFile? ==> !ReadableLog(log)
    ensures r.Done? ==> ReadableLog(log) && !Unsendable(log)
                        && Between(enc, files + if log.inlined == [] && !log.present then [] else [LogOf(log)])
  {
    if log.inlined != [] {
      r := EmitFile(enc, LogPath(log), |log.inlined|, log.mtime, calm, files);
      if r != Done { return r; }
      r := StreamContents(enc, log.inlined, calm, files, File(LogPath(log), |log.inlined|, MODE, log.mtime, []));
      return r;
    }
    if !log.present { assert files + [] == files; return Done; }
    r := EmitFile(enc, LogPath(log), log.limit, log.mtime, calm, files);
    if r != Done { return r; }
    r := StreamFilePrefix(enc, log.disk, log.limit, calm, files, File(LogPath(log), log.limit, MODE, log.mtime, []));
  }

  predicate SomeUnsplit(live: seq<LiveFile>) { exists f <- live :: Split(f.name) == None }

  predicate SomeShort(live: seq<LiveFile>) { exists f <- live :: !Readable(f) }

  /** A log is sent unless it was purged before its header. */
  predicate Unsendable(l: LogFile) { (l.inlined != [] || l.present) && Split(LogPath(l)) == None }

  predicate SomeUnsplitLog(logs: seq<LogFile>) { exists l <- logs :: Unsendable(l) }

  predicate SomeShortLog(logs: seq<LogFile>) { exists l <- logs :: !ReadableLog(l) }

  method StreamLiveFiles(enc: Encoder, live: seq<LiveFile>, calm: bool) returns (r: Ending)
    requires Between(enc, []) && forall f <- live :: WellSized(f)
    modifies enc
    ensures calm ==> !r.Aborted? && !r.ReadError?
    ensures r.Refused? ==> r.why == NameTooLong && SomeUnsplit(live)
    ensures r.ShortFile? ==> SomeShort(live)
    ensures r.Done? ==> Between(enc, Files(live)) && !SomeShort(live) && !SomeUnsplit(live)
  {
    assert live[..0] == [];
    for i := 0 to |live|
      invariant Between(enc, Files(live[..i])) && !SomeShort(live[..i]) && !SomeUnsplit(live[..i])
    {
      LiveStep(live, i);
      r := StreamLiveFile(enc, live[i], calm, Files(live[..i]));
      if r != Done { return r; }
    }
    assert live[..|live|] == live;
    return Done;
  }

  method StreamLogFiles(enc: Encoder, logs: seq<LogFile>, calm: bool, ghost files: seq<File>) returns (r: Ending)
    requires Between(enc, files)
    modifies enc
    ensures calm ==> !r.Aborted? && !r.ReadError?
    ensures r.Refused? ==> r.why == NameTooLong && SomeUnsplitLog(logs)
    ensures r.ShortFile? ==> SomeShortLog(logs)
    ensures r.Done? ==> Between(enc, files + Logs(logs)) && !SomeShortLog(logs) && !SomeUnsplitLog(logs)
  {
    assert logs[..0] == [] && files + Logs([]) == files;
    for i := 0 to |logs|
      invariant Between(enc, files + Logs(logs[..i])) && !SomeShortLog(logs[..i]) && !SomeUnsplitLog(logs[..i])
    {
      LogStep(logs, i, files);
      r := StreamLogFile(enc, logs[i], calm, files + Logs(logs[..i]));
      if r != Done { return r; }
    }
    assert logs[..|logs|] == logs;
    return Done;
  }

  lemma LiveStep(live: seq<LiveFile>, i: nat)
    requires i < |live|
    ensures Files(live[..i]) + [FileOf(live[i])] == Files(live[..i + 1])
    ensures SomeShort(live[..i + 1]) <==> SomeShort(live[..i]) || !Readable(live[i])
    ensures SomeUnsplit(live[..i + 1]) <==> SomeUnsplit(live[..i]) || Split(live[i].name) == None
    ensures !Readable(live[i]) ==> SomeShort(live)
    ensures Split(live[i].name) == None ==> SomeUnsplit(live)
  {
    var all := live[..i + 1];
    assert all == live[..i] + [live[i]] && all[..|all| - 1] == live[..i];
  }

  lemma LogStep(logs: seq<LogFile>, i: nat, files: seq<File>)
    requires i < |logs|
    ensures files + Logs(logs[..i]) + (if logs[i].inlined == [] && !logs[i].present then [] else [LogOf(logs[i])])
            == files + Logs(logs[..i + 1])
    ensures SomeShortLog(logs[..i + 1]) <==> SomeShortLog(logs[..i]) || !ReadableLog(logs[i])
    ensures !ReadableLog(logs[i]) ==> SomeShortLog(logs)
    ensures SomeUnsplitLog(logs[..i + 1]) <==> SomeUnsplitLog(logs[..i]) || Unsendable(logs[i])
    ensures Unsendable(logs[i]) ==> SomeUnsplitLog(logs)
  {
    var all := logs[..i + 1];
    assert all == logs[..i] + [logs[i]] && all[..|all| - 1] == logs[..i];
  }

  /** The whole backup. The encoder's state machine never objects: the only call
  it may refuse is a header whose name does not split. A run that is neither
  aborted nor cut by a read error ends with an archive exactly when every name
  splits and every file still holds its recorded prefix; a USTAR reader then finds
  exactly those files and prefixes, in order, if and only if every size fits its
  header and no path is mangled. */
  method BackupToStream(live: seq<LiveFile>, logs: seq<LogFile>, calm: bool) returns (r: Ending, archive: seq<byte>)
    requires forall f <- live :: WellSized(f)
    ensures calm ==> !r.Aborted? && !r.ReadError?
    ensures r.Refused? ==> r.why == NameTooLong
    ensures r.Refused? ==> SomeUnsplit(live) || SomeUnsplitLog(logs)
    ensures r.ShortFile? ==> SomeShort(live) || SomeShortLog(logs)
    ensures r.Done? ==> !SomeUnsplit(live) && !SomeShort(live) && !SomeUnsplitLog(logs) && !SomeShortLog(logs)
    ensures calm ==>
              (r.Done? <==> !SomeUnsplit(live) && !SomeShort(live) && !SomeUnsplitLog(logs) && !SomeShortLog(logs))
    ensures r.Done? ==> Accepted(Files(live) + Logs(logs)) && AllComplete(Files(live) + Logs(logs))
    ensures r.Done? ==> |archive| % BLOCK == 0
    ensures r.Done? ==> var files := Files(live) + Logs(logs);
                        && (ReadArchive(archive) == Some(SeenAll(files)) <==> SizesFit(files))
                        && (ReadArchive(archive) == Some(Plain(files)) <==> SizesFit(files) && NoneMangled(files))
  {
    var enc := new Encoder();
    archive := [];
    var torn: bool := *;
    if torn && !calm { return Aborted, []; }
    r := StreamLiveFiles(enc, live, calm);
    if r != Done { return; }
    r := StreamLogFiles(enc, logs, calm, Files(live));
    if r != Done { return; }
    var status := enc.Finalize();
    if status != Ok { return Refused(status), []; }
    archive := enc.out;
  }
}
