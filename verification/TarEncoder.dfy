/** The streaming tar encoder: header blocks filled in place, and the encoder's
state machine. `files` is what has been added so far; everything emitted is a
function of it, whatever the chunking. */
module TarEncoder {
  import opened Wrappers
  import opened Bytes
  import opened TarFormat
  import opened TarArchive

  // ---- Filling a header block

  method Store(block: array<byte>, bytes: seq<byte>, offset: nat)
    requires offset + |bytes| <= block.Length
    modifies block
    ensures block[..] == Splice(old(block[..]), offset, bytes)
  {
    for i := 0 to |bytes|
      invariant forall k :: 0 <= k < block.Length ==>
                  block[k] == if offset <= k < offset + i then bytes[k - offset] else old(block[k])
    {
      block[offset + i] := bytes[i];
    }
  }

  method WriteField(block: array<byte>, value: seq<byte>, offset: nat, length: nat) returns (ok: bool)
    requires offset + length <= block.Length
    modifies block
    ensures ok <==> |value| <= length
    ensures block[..] == if ok then Splice(old(block[..]), offset, value) else old(block[..])
  {
    ok := |value| <= length;
    if ok { Store(block, value, offset); }
  }

  /** The base-256 branch of `writeOctal`. */
  method WriteBase256(block: array<byte>, value: nat, offset: nat, length: nat)
    requires 0 < length && offset + length <= block.Length
    modifies block
    ensures block[..] == Splice(old(block[..]), offset, [0x80] + Digits(256, length - 1, value))
  {
    ghost var before := block[..];
    ghost var tail: seq<byte> := [];
    var v := value;
    var i := offset + length - 1;
    NothingYet(before, i + 1, Digits(256, length - 1, value));
    while i > offset
      invariant offset <= i && |tail| == offset + length - 1 - i
      invariant Digits(256, i - offset, v) + tail == Digits(256, length - 1, value)
      invariant block[..] == Splice(before, i + 1, tail)
    {
      DigitOff(i - offset, v, tail);
      StoreLeft(block, i, v % 256, before, tail);
      tail := [v % 256] + tail;
      v := v / 256;
      i := i - 1;
    }
    StoreLeft(block, offset, 0x80, before, tail);
  }

  lemma NothingYet(s: seq<byte>, at: nat, digits: seq<nat>)
    requires at <= |s|
    ensures Splice(s, at, []) == s && digits + [] == digits
  {
  }

  /** The lowest digit goes to the front of those already stored. */
  lemma DigitOff(n: nat, v: nat, tail: seq<byte>)
    requires n > 0
    ensures Digits(256, n, v) + tail == Digits(256, n - 1, v / 256) + ([v % 256] + tail)
  {
  }

  /** Stores one more byte to the left of those already stored. */
  method StoreLeft(block: array<byte>, at: nat, b: byte, ghost before: seq<byte>, ghost bytes: seq<byte>)
    requires at + 1 + |bytes| <= |before| == block.Length && block[..] == Splice(before, at + 1, bytes)
    modifies block
    ensures block[..] == Splice(before, at, [b] + bytes)
  {
    block[at] := b;
    SpliceLeft(before, at, b, bytes);
  }

  lemma SpliceLeft(s: seq<byte>, at: nat, b: byte, bytes: seq<byte>)
    requires at + 1 + |bytes| <= |s|
    ensures Splice(s, at + 1, bytes)[at := b] == Splice(s, at, [b] + bytes)
  {
  }

  method WriteOctal(block: array<byte>, value: int, offset: nat, length: nat)
    requires 0 < length && offset + length <= block.Length
    modifies block
    ensures block[..] == Splice(old(block[..]), offset, NumberBytes(value, length - 1))
  {
    var digits := length - 1;
    PowerPositive(8, digits);
    if value > Power(8, digits) - 1 {
      WriteBase256(block, value, offset, length);
    } else {
      var str := PadStart(OctalText(value), digits);
      Store(block, str[..digits], offset);
    }
  }

  method SumOf(block: array<byte>) returns (sum: nat)
    ensures sum == Sum(block[..])
  {
    sum := 0;
    for i := 0 to block.Length
      invariant sum == Sum(block[..i])
    {
      assert block[..i + 1][..i] == block[..i];
      sum := sum + block[i];
    }
    assert block[..block.Length] == block[..];
  }

  method WriteChecksum(block: array<byte>)
    requires block.Length == BLOCK
    modifies block
    ensures block[..] == Sealed(old(block[..]))
  {
    ghost var before := block[..];
    Store(block, SPACES, 148);
    var sum := SumOf(block);
    var str := PadStart(OctalText(sum), 6);
    Store(block, str[..6] + [0, 0x20], 148);
    Resplice(before, 148, SPACES, ChecksumText(sum));
  }

  lemma Resplice(s: seq<byte>, at: nat, first: seq<byte>, second: seq<byte>)
    requires |first| == |second| && at + |first| <= |s|
    ensures Splice(Splice(s, at, first), at, second) == Splice(s, at, second)
  {
  }

  method SplitTarName(path: seq<byte>) returns (r: Option<Names>)
    ensures r == Split(path)
  {
    if |path| <= NAME_MAX { return Some(Names(path, [])); }
    var best := -1;
    for i := 0 to |path|
      invariant best == BestSplit(path, i)
    {
      if path[i] != SLASH { continue; }
      var prefixLength, nameLength := i, |path| - i - 1;
      if nameLength > 0 && nameLength <= NAME_MAX && prefixLength <= PREFIX_MAX { best := i; }
    }
    if best == -1 { return None; }
    return Some(Names(path[best + 1..], path[..best]));
  }

  method BuildHeader(path: seq<byte>, size: int, mode: int, mtime: int) returns (header: Option<seq<byte>>)
    ensures header.Some? <==> Split(path).Some?
    ensures header.Some? ==> header.value == Header(path, size, mode, mtime)
  {
    var split := SplitTarName(path);
    if split == None { return None; }
    var block := new byte[BLOCK](_ => 0);
    assert block[..] == Zeros(BLOCK);
    FillNumbers(block, split.value.name, size, mode, mtime);
    MarkHeader(block);
    FillPrefix(block, split.value.prefix);
    WriteChecksum(block);
    return Some(block[..]);
  }

  /** The fields before the type flag. */
  method FillNumbers(block: array<byte>, name: seq<byte>, size: int, mode: int, mtime: int)
    requires block[..] == Zeros(BLOCK) && |name| <= NAME_MAX
    modifies block
    ensures block[..] == Numbered(name, size, mode, mtime)
  {
    var ok := WriteField(block, name, 0, NAME_MAX);
    WriteOctal(block, mode % 0x1000, 100, 8);
    WriteOctal(block, 0, 108, 8);
    WriteOctal(block, 0, 116, 8);
    WriteOctal(block, size, 124, 12);
    WriteOctal(block, mtime, 136, 12);
  }

  method FillPrefix(block: array<byte>, prefix: seq<byte>)
    requires block.Length == BLOCK && |prefix| <= PREFIX_MAX
    modifies block
    ensures block[..] == Splice(old(block[..]), 345, prefix)
  {
    if |prefix| > 0 { var ok := WriteField(block, prefix, 345, PREFIX_MAX); }
  }

  /** Type flag, magic and version. */
  method MarkHeader(block: array<byte>)
    requires block.Length == BLOCK
    modifies block
    ensures block[..] == Marked(old(block[..]))
  {
    ghost var b := block[..];
    block[156] := 0x30;
    assert block[..] == Splice(b, 156, [0x30]);
    var ok := WriteField(block, USTAR, 257, 6);
    b := block[..];
    block[263] := 0x30;
    assert block[..] == Splice(b, 263, [0x30]);
    b := block[..];
    block[264] := 0x30;
    assert block[..] == Splice(b, 264, [0x30]);
  }

  // ---- The encoder

  datatype Status = Ok | AlreadyFinalized | Unfinished | BadSize | NameTooLong | Overrun

  function Append(f: File, chunk: seq<byte>): File { f.(data := f.data + chunk) }

  function Last(files: seq<File>): File
    requires files != []
  {
    files[|files| - 1]
  }

  /** Every entry but the last is whole; the last one lacks `remaining` bytes. */
  predicate Owed(files: seq<File>, remaining: nat, pad: nat) {
    && (forall i {:trigger Complete(files[i])} :: 0 <= i < |files| - 1 ==> Complete(files[i]))
    && (files == [] ==> remaining == 0)
    && (files != [] ==> remaining == Last(files).size - |Last(files).data|)
    && (remaining > 0 ==> pad == PadOf(Last(files).size))
  }

  predicate Printed(files: seq<File>, body: seq<byte>) {
    Accepted(files) && body == EmittedAll(files)
  }

  /** The two halves of the encoder's invariant. */
  datatype Aspect = Output | Debt

  class Encoder {
    var out: seq<byte>      // everything handed to the sink
    var remaining: nat
    var pad: nat
    var finalized: bool
    ghost var files: seq<File>
    ghost var body: seq<byte>

    ghost predicate Has(a: Aspect)
      reads this
    {
      match a
      case Output => Printed(files, body) && out == (if finalized then body + Zeros(2 * BLOCK) else body)
      case Debt => Owed(files, remaining, pad) && (finalized ==> remaining == 0)
    }

    ghost predicate Valid()
      reads this
    {
      forall a: Aspect :: Has(a)
    }

    constructor ()
      ensures Valid() && files == [] && remaining == 0 && !finalized
    {
      out, remaining, pad, finalized, files, body := [], 0, 0, false, [], [];
    }

    method AddFile(path: seq<byte>, size: int, mode: int, mtime: int) returns (status: Status)
      requires Valid()
      modifies this
      ensures Valid() && finalized == old(finalized)
      ensures status == if old(finalized) then AlreadyFinalized else if old(remaining) != 0 then Unfinished
                        else if size < 0 then BadSize else if Split(path) == None then NameTooLong else Ok
      ensures status == Ok ==> out == old(out) + Header(path, size, mode, mtime) && pad == PadOf(size)
      ensures if status == Ok then files == old(files) + [File(path, size, mode, mtime, [])] && remaining == size
              else files == old(files) && out == old(out) && remaining == old(remaining)
    {
      if finalized { return AlreadyFinalized; }
      if remaining != 0 { return Unfinished; }
      if size < 0 { return BadSize; }
      var header := BuildHeader(path, size, mode, mtime);
      if header == None { return NameTooLong; }
      Begin(File(path, size, mode, mtime, []), header.value);
      return Ok;
    }

    method Begin(f: File, header: seq<byte>)
      requires Valid() && !finalized && remaining == 0
      requires Split(f.path).Some? && f.data == [] && header == Header(f.path, f.size, f.mode, f.mtime)
      modifies this
      ensures Valid() && !finalized && remaining == f.size && files == old(files) + [f]
      ensures out == old(out) + header && pad == PadOf(f.size)
    {
      assert Has(Output) && Has(Debt);
      AddKeeps(files, body, pad, f, header);
      ghost var grown, printed := files + [f], body + header;
      remaining := f.size;
      pad := PadOf(f.size);
      out := out + header;
      files, body := grown, printed;
    }

    method Take(chunk: seq<byte>)
      requires Valid() && !finalized && 0 < |chunk| <= remaining
      modifies this
      ensures Valid() && !finalized && remaining == old(remaining) - |chunk|
      ensures out == old(out) + chunk + Zeros(if remaining == 0 then old(pad) else 0)
      ensures old(files) != [] && files == Extended(old(files), chunk)
    {
      assert Has(Output) && Has(Debt);
      ghost var grown := Extended(files, chunk);
      ghost var printed := TakeKeeps(files, body, remaining, pad, chunk);
      remaining := remaining - |chunk|;
      out := out + chunk;
      if remaining == 0 && pad > 0 {
        out := out + Zeros(pad);
        pad := 0;
      }
      files, body := grown, printed;
      assert Has(Output) && Has(Debt);
    }

    method WriteData(chunk: seq<byte>) returns (status: Status)
      requires Valid()
      modifies this
      ensures Valid() && finalized == old(finalized)
      ensures status == if old(finalized) then AlreadyFinalized else if |chunk| > old(remaining) then Overrun else Ok
      ensures status == Ok ==> remaining == old(remaining) - |chunk|
      ensures status == Ok && chunk != [] ==>
                out == old(out) + chunk + Zeros(if remaining == 0 then old(pad) else 0)
      ensures status == Ok && chunk != [] ==> old(files) != [] && files == Extended(old(files), chunk)
      ensures status != Ok || chunk == [] ==> files == old(files) && out == old(out) && remaining == old(remaining)
    {
      if finalized { return AlreadyFinalized; }
      if |chunk| == 0 { return Ok; }
      if |chunk| > remaining { return Overrun; }
      Take(chunk);
      return Ok;
    }

    method End()
      requires Valid() && !finalized && remaining == 0
      modifies this
      ensures Valid() && files == old(files) && remaining == 0 && out == old(out) + Zeros(2 * BLOCK)
      ensures finalized && Accepted(files) && AllComplete(files) && |out| % BLOCK == 0
      ensures ReadArchive(out) == Some(SeenAll(files)) <==> SizesFit(files)
      ensures ReadArchive(out) == Some(Plain(files)) <==> SizesFit(files) && NoneMangled(files)
    {
      assert Has(Output) && Has(Debt);
      EndIsWhole(files, body, pad);
      EndReads(files, body);
      finalized := true;
      out := out + Zeros(2 * BLOCK);
    }

    method Finalize() returns (status: Status)
      requires Valid()
      modifies this
      ensures Valid() && files == old(files)
      ensures status == if old(finalized) then AlreadyFinalized else if old(remaining) != 0 then Unfinished else Ok
      ensures status != Ok ==> out == old(out) && finalized == old(finalized)
      ensures status == Ok ==> out == old(out) + Zeros(2 * BLOCK)
      ensures status == Ok ==> finalized && Accepted(files) && AllComplete(files) && |out| % BLOCK == 0
      ensures status == Ok ==> (ReadArchive(out) == Some(SeenAll(files)) <==> SizesFit(files))
      ensures status == Ok ==> (ReadArchive(out) == Some(Plain(files)) <==> SizesFit(files) && NoneMangled(files))
    {
      if finalized { return AlreadyFinalized; }
      if remaining != 0 { return Unfinished; }
      End();
      return Ok;
    }
  }

  /** The chunk goes to the last entry. */
  function Extended(files: seq<File>, chunk: seq<byte>): (r: seq<File>)
    requires files != []
    ensures |r| == |files|
  {
    files[..|files| - 1] + [Append(Last(files), chunk)]
  }

  lemma {:induction false} EmittedMore(files: seq<File>, f: File)
    requires Accepted(files) && Split(f.path).Some?
    ensures Accepted(files + [f]) && EmittedAll(files + [f]) == EmittedAll(files) + Emitted(f)
  {
    var parts := Parts(files + [f]);
    assert parts[..|parts| - 1] == Parts(files);
  }

  lemma EmptyEmitted(f: File, header: seq<byte>)
    requires f.data == []
    ensures EmittedWith(header, f) == header
  {
  }

  lemma {:induction false} AddKeeps(files: seq<File>, body: seq<byte>, pad: nat, f: File, header: seq<byte>)
    requires Printed(files, body) && Owed(files, 0, pad)
    requires Split(f.path).Some? && f.data == [] && header == Header(f.path, f.size, f.mode, f.mtime)
    ensures Printed(files + [f], body + header) && Owed(files + [f], f.size, PadOf(f.size))
  {
    AddOwes(files, pad, f);
    AddPrints(files, body, f, header);
  }

  lemma AddOwes(files: seq<File>, pad: nat, f: File)
    requires Owed(files, 0, pad) && f.data == []
    ensures Owed(files + [f], f.size, PadOf(f.size))
  {
    var all := files + [f];
    assert forall i :: 0 <= i < |all| - 1 ==> all[i] == files[i];
    assert files != [] ==> Complete(Last(files));
  }

  lemma {:induction false} AddPrints(files: seq<File>, body: seq<byte>, f: File, header: seq<byte>)
    requires Printed(files, body) && Split(f.path).Some? && f.data == []
    requires header == Header(f.path, f.size, f.mode, f.mtime)
    ensures Printed(files + [f], body + header)
  {
    EmptyEmitted(f, header);
    EmittedMore(files, f);
  }

  /** What a chunk adds to the output: itself, and the padding if it is the last. */
  function More(f: File, chunk: seq<byte>): seq<byte> {
    chunk + (if |f.data| + |chunk| == f.size then Zeros(PadOf(f.size)) else [])
  }

  lemma EmittedAppend(header: seq<byte>, f: File, chunk: seq<byte>)
    requires chunk != [] && |f.data| + |chunk| <= f.size
    ensures EmittedWith(header, Append(f, chunk)) == EmittedWith(header, f) + More(f, chunk)
  {
  }

  lemma WriteOwes(files: seq<File>, remaining: nat, pad: nat, chunk: seq<byte>)
    requires Owed(files, remaining, pad) && 0 < |chunk| <= remaining
    ensures Owed(Extended(files, chunk), remaining - |chunk|, pad)
    ensures |chunk| == remaining ==> Owed(Extended(files, chunk), 0, 0)
    ensures pad == PadOf(Last(files).size) && |Last(files).data| + remaining == Last(files).size
  {
  }

  lemma TakeKeeps(files: seq<File>, body: seq<byte>, remaining: nat, pad: nat, chunk: seq<byte>)
    returns (printed: seq<byte>)
    requires Printed(files, body) && Owed(files, remaining, pad) && 0 < |chunk| <= remaining
    ensures files != [] && Printed(Extended(files, chunk), printed)
    ensures printed == if |chunk| == remaining && pad > 0 then body + chunk + Zeros(pad) else body + chunk
    ensures Owed(Extended(files, chunk), remaining - |chunk|, if |chunk| == remaining then 0 else pad)
  {
    WriteOwes(files, remaining, pad, chunk);
    TakePrints(files, body, chunk);
    printed := body + More(Last(files), chunk);
  }

  lemma WritePrints(files: seq<File>, body: seq<byte>, g: File, more: seq<byte>)
    requires Printed(files, body) && files != [] && Split(g.path).Some?
    requires Emitted(g) == Emitted(Last(files)) + more
    ensures Printed(files[..|files| - 1] + [g], body + more)
  {
    LastGrows(Parts(files), Emitted(Last(files)), more);
    LastReplaced(files, g);
  }

  lemma TakePrints(files: seq<File>, body: seq<byte>, chunk: seq<byte>)
    requires Printed(files, body) && files != [] && chunk != []
    requires |Last(files).data| + |chunk| <= Last(files).size
    ensures Printed(Extended(files, chunk), body + More(Last(files), chunk))
  {
    var f := Last(files);
    assert Split(files[|files| - 1].path).Some?;
    EmittedAppend(Header(f.path, f.size, f.mode, f.mtime), f, chunk);
    WritePrints(files, body, Append(Last(files), chunk), More(Last(files), chunk));
  }

  lemma LastReplaced(files: seq<File>, g: File)
    requires Accepted(files) && files != [] && Split(g.path).Some?
    ensures Accepted(files[..|files| - 1] + [g])
    ensures Parts(files[..|files| - 1] + [g]) == Parts(files)[..|files| - 1] + [Emitted(g)]
  {
  }

  lemma {:induction false} LastGrows(parts: seq<seq<byte>>, last: seq<byte>, more: seq<byte>)
    requires parts != [] && parts[|parts| - 1] == last
    ensures Concat(parts[..|parts| - 1] + [last + more]) == Concat(parts) + more
  {
    var grown := parts[..|parts| - 1] + [last + more];
    assert grown[..|grown| - 1] == parts[..|parts| - 1];
  }

  lemma EndIsWhole(files: seq<File>, body: seq<byte>, pad: nat)
    requires Printed(files, body) && Owed(files, 0, pad)
    ensures AllComplete(files) && |body + Zeros(2 * BLOCK)| % BLOCK == 0
  {
    WholeBlocks(files);
    TwoMore(body);
  }

  lemma TwoMore(body: seq<byte>)
    requires |body| % BLOCK == 0
    ensures |body + Zeros(2 * BLOCK)| % BLOCK == 0
  {
  }

  lemma {:induction false} EndReads(files: seq<File>, body: seq<byte>)
    requires Printed(files, body) && AllComplete(files)
    ensures ReadArchive(body + Zeros(2 * BLOCK)) == Some(SeenAll(files)) <==> SizesFit(files)
    ensures ReadArchive(body + Zeros(2 * BLOCK)) == Some(Plain(files)) <==> SizesFit(files) && NoneMangled(files)
  {
    ArchiveRoundTrip(files);
  }
}
