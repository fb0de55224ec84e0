/** USTAR header blocks and whole archives, with a reader for both. */
module TarArchive {
  import opened Wrappers
  import opened Bytes
  import opened TarFormat

  // ---- Headers

  function Sum(s: seq<byte>): nat { if s == [] then 0 else Sum(s[..|s| - 1]) + s[|s| - 1] }

  lemma {:induction false} SumBounded(s: seq<byte>)
    ensures Sum(s) <= 255 * |s|
    decreases |s|
  {
    if s != [] { SumBounded(s[..|s| - 1]); }
  }

  const SPACES: seq<byte> := [0x20, 0x20, 0x20, 0x20, 0x20, 0x20, 0x20, 0x20]
  const USTAR: seq<byte> := [0x75, 0x73, 0x74, 0x61, 0x72]

  /** The checksum field is summed as if it held spaces. */
  function Checksum(block: seq<byte>): nat
    requires |block| == BLOCK
  {
    Sum(Splice(block, 148, SPACES))
  }

  lemma {:induction false} SumJoins(s: seq<byte>, t: seq<byte>)
    ensures Sum(s + t) == Sum(s) + Sum(t)
    decreases |t|
  {
    if t == [] {
      assert s + t == s;
    } else {
      var u := t[..|t| - 1];
      SumJoins(s, u);
      assert (s + t)[..|s + t| - 1] == s + u;
    }
  }

  /** Eight spaces are worth 256; what the field itself holds does not count. */
  lemma ChecksumLiteral(block: seq<byte>)
    requires |block| == BLOCK
    ensures Checksum(block) == Sum(block[..148]) + 256 + Sum(block[156..])
  {
    SumJoins(block[..148] + SPACES, block[156..]);
    SumJoins(block[..148], SPACES);
    SpacesSum();
  }

  lemma SpacesSum()
    ensures Sum(SPACES) == 256
  {
    SumJoins(SPACES[..4], SPACES[4..]);
    assert SPACES[..4] == SPACES[4..] == [0x20, 0x20] + [0x20, 0x20] && SPACES[..4] + SPACES[4..] == SPACES;
    SumJoins([0x20, 0x20], [0x20, 0x20]);
    SumJoins([0x20], [0x20]);
    assert [0x20] + [0x20] == [0x20, 0x20];
  }

  function ChecksumText(sum: nat): (r: seq<byte>)
    ensures |r| == 8
  {
    PadStart(OctalText(sum), 6)[..6] + [0, 0x20]
  }

  function Sealed(block: seq<byte>): (r: seq<byte>)
    requires |block| == BLOCK
    ensures |r| == BLOCK
  {
    Splice(block, 148, ChecksumText(Checksum(block)))
  }

  /** The fields before the type flag, in the order they are written. */
  function Numbered(name: seq<byte>, size: int, mode: int, mtime: int): (r: seq<byte>)
    requires |name| <= NAME_MAX
    ensures |r| == BLOCK
  {
    var b0 := Splice(Zeros(BLOCK), 0, name);
    var b1 := Splice(b0, 100, NumberBytes(mode % 0x1000, 7));
    var b2 := Splice(b1, 108, NumberBytes(0, 7));
    var b3 := Splice(b2, 116, NumberBytes(0, 7));
    var b4 := Splice(b3, 124, NumberBytes(size, 11));
    Splice(b4, 136, NumberBytes(mtime, 11))
  }

  function Marked(block: seq<byte>): (r: seq<byte>)
    requires |block| == BLOCK
    ensures |r| == BLOCK
  {
    Splice(Splice(Splice(Splice(block, 156, [0x30]), 257, USTAR), 263, [0x30]), 264, [0x30])
  }

  /** `buildHeader`: a sealed block for a path that splits. */
  function Header(path: seq<byte>, size: int, mode: int, mtime: int): (r: seq<byte>)
    requires Split(path).Some?
    ensures |r| == BLOCK
  {
    var parts := Split(path).value;
    Sealed(Splice(Marked(Numbered(parts.name, size, mode, mtime)), 345, parts.prefix))
  }

  /** A checksum always fits its six digits, and the block verifies. */
  lemma SealVerifies(block: seq<byte>)
    requires |block| == BLOCK
    ensures Checksum(block) < Power(8, 6)
    ensures Checksum(Sealed(block)) == Checksum(block)
    ensures ReadNumber(Sealed(block)[148..156]) == Some(Checksum(Sealed(block)))
  {
    var sum := Checksum(block);
    SumBounded(Splice(block, 148, SPACES));
    assert Power(8, 6) == 262144 by { assert Power(8, 3) == 512; assert Power(8, 6) == 512 * 512; }
    assert Splice(Sealed(block), 148, SPACES) == Splice(block, 148, SPACES);
    OctalFits(sum, 6);
    var text := AsText(Digits(8, 6, sum));
    assert ChecksumText(sum) == text + [0, 0x20];
    ReadsOctal(sum, 6, [0, 0x20]);
    SpliceSlices(block, 148, ChecksumText(sum), 0, 0);
  }

  /** A splice away from the name, size and prefix fields. */
  lemma Beside(s: seq<byte>, at: nat, bytes: seq<byte>)
    requires |s| == BLOCK
    requires (100 <= at && at + |bytes| <= 124) || (136 <= at && at + |bytes| <= 345)
    ensures var r := Splice(s, at, bytes);
            r[..100] == s[..100] && r[124..136] == s[124..136] && r[345..500] == s[345..500]
  {
    SpliceSlices(s, at, bytes, 0, 100);
    SpliceSlices(s, at, bytes, 124, 136);
    SpliceSlices(s, at, bytes, 345, 500);
  }

  lemma NameThere(name: seq<byte>)
    requires |name| <= NAME_MAX
    ensures var b := Splice(Zeros(BLOCK), 0, name);
            b[..100] == Padded(name, 100) && b[124..136] == Zeros(12) && b[345..500] == Zeros(155)
  {
    var b := Splice(Zeros(BLOCK), 0, name);
    forall i | 0 <= i < BLOCK ensures b[i] == if i < |name| then name[i] else 0 {}
    assert b[..100] == Padded(name, 100);
  }

  lemma NumberedFields(name: seq<byte>, size: int, mode: int, mtime: int)
    requires |name| <= NAME_MAX
    ensures var b := Numbered(name, size, mode, mtime);
            b[..100] == Padded(name, 100) && b[124..136] == NumberField(size, 12) && b[345..500] == Zeros(155)
  {
    var b0 := Splice(Zeros(BLOCK), 0, name);
    NameThere(name);
    var b1 := Splice(b0, 100, NumberBytes(mode % 0x1000, 7));
    Beside(b0, 100, NumberBytes(mode % 0x1000, 7));
    var b2 := Splice(b1, 108, NumberBytes(0, 7));
    Beside(b1, 108, NumberBytes(0, 7));
    var b3 := Splice(b2, 116, NumberBytes(0, 7));
    Beside(b2, 116, NumberBytes(0, 7));
    var bytes := NumberBytes(size, 11);
    var b4 := Splice(b3, 124, bytes);
    SpliceSlices(b3, 124, bytes, 0, 100);
    SpliceSlices(b3, 124, bytes, 345, 500);
    assert b4[124..136] == NumberField(size, 12) by {
      if |bytes| == 11 { assert b4[135] == b3[135] == b3[124..136][11]; }
    }
    Beside(b4, 136, NumberBytes(mtime, 11));
  }

  lemma HeaderFields(path: seq<byte>, size: int, mode: int, mtime: int)
    requires Split(path).Some?
    ensures var b := Header(path, size, mode, mtime);
            && b[..100] == Padded(Split(path).value.name, 100)
            && b[124..136] == NumberField(size, 12)
            && b[345..500] == Padded(Split(path).value.prefix, 155)
  {
    var parts := Split(path).value;
    var b := Numbered(parts.name, size, mode, mtime);
    NumberedFields(parts.name, size, mode, mtime);
    Beside(b, 156, [0x30]);
    var c := Splice(b, 156, [0x30]);
    Beside(c, 257, USTAR);
    var d := Splice(c, 257, USTAR);
    Beside(d, 263, [0x30]);
    var e := Splice(d, 263, [0x30]);
    Beside(e, 264, [0x30]);
    var f := Marked(b);
    var g := Splice(f, 345, parts.prefix);
    SpliceSlices(f, 345, parts.prefix, 0, 100);
    SpliceSlices(f, 345, parts.prefix, 124, 136);
    assert g[345..500] == Padded(parts.prefix, 155) by {
      forall i | 0 <= i < 155 ensures g[345..500][i] == Padded(parts.prefix, 155)[i] {
        if i >= |parts.prefix| { assert g[345 + i] == f[345 + i] == f[345..500][i]; }
      }
    }
    Beside(g, 148, ChecksumText(Checksum(g)));
  }

  predicate NumberAt(b: seq<byte>, at: nat, value: int, length: nat) {
    0 < length && at + length <= |b| == BLOCK && b[at..at + length] == NumberField(value, length)
  }

  predicate ZeroFrom(b: seq<byte>, at: nat) { at <= |b| == BLOCK && b[at..] == Zeros(BLOCK - at) }

  /** A number stored into a zeroed field is there, and nothing before it changes. */
  lemma StoreNumber(b: seq<byte>, at: nat, value: int, length: nat)
    requires 0 < length && at + length <= BLOCK && ZeroFrom(b, at)
    ensures var r := Splice(b, at, NumberBytes(value, length - 1));
            NumberAt(r, at, value, length) && ZeroFrom(r, at + length) && r[..at] == b[..at]
  {
    var bytes := NumberBytes(value, length - 1);
    var r := Splice(b, at, bytes);
    forall i | at <= i < BLOCK ensures b[i] == 0 { assert b[i] == b[at..][i - at]; }
    forall i | at + |bytes| <= i < BLOCK ensures r[i] == 0 {}
    assert r[at..at + |bytes|] == bytes;
    if |bytes| == length - 1 { assert r[at..at + length] == r[at..at + |bytes|] + [r[at + |bytes|]]; }
  }

  lemma NumberStays(b: seq<byte>, r: seq<byte>, to: nat, at: nat, value: int, length: nat)
    requires NumberAt(b, at, value, length) && at + length <= to <= |r| == |b| && r[..to] == b[..to]
    ensures NumberAt(r, at, value, length)
  {
    assert r[at..at + length] == r[..to][at..at + length] == b[..to][at..at + length];
  }

  /** Mode, owner, group and time, beside the size. */
  lemma NumbersThere(name: seq<byte>, size: int, mode: int, mtime: int)
    requires |name| <= NAME_MAX
    ensures var b := Numbered(name, size, mode, mtime);
            && NumberAt(b, 100, mode % 0x1000, 8) && NumberAt(b, 108, 0, 8) && NumberAt(b, 116, 0, 8)
            && NumberAt(b, 136, mtime, 12)
  {
    var b0 := Splice(Zeros(BLOCK), 0, name);
    assert ZeroFrom(b0, 100) by { forall i | 100 <= i < BLOCK ensures b0[i] == 0 {} }
    StoreNumber(b0, 100, mode % 0x1000, 8);
    var b1 := Splice(b0, 100, NumberBytes(mode % 0x1000, 7));
    StoreNumber(b1, 108, 0, 8);
    var b2 := Splice(b1, 108, NumberBytes(0, 7));
    NumberStays(b1, b2, 108, 100, mode % 0x1000, 8);
    StoreNumber(b2, 116, 0, 8);
    var b3 := Splice(b2, 116, NumberBytes(0, 7));
    NumberStays(b2, b3, 116, 100, mode % 0x1000, 8);
    NumberStays(b2, b3, 116, 108, 0, 8);
    StoreNumber(b3, 124, size, 12);
    var b4 := Splice(b3, 124, NumberBytes(size, 11));
    StoreNumber(b4, 136, mtime, 12);
    LaterFields(b3, b4, 124, mode % 0x1000);
    LaterFields(b4, Splice(b4, 136, NumberBytes(mtime, 11)), 136, mode % 0x1000);
  }

  lemma LaterFields(b: seq<byte>, r: seq<byte>, to: nat, mode: int)
    requires NumberAt(b, 100, mode, 8) && NumberAt(b, 108, 0, 8) && NumberAt(b, 116, 0, 8)
    requires 124 <= to <= |r| == |b| && r[..to] == b[..to]
    ensures NumberAt(r, 100, mode, 8) && NumberAt(r, 108, 0, 8) && NumberAt(r, 116, 0, 8)
  {
    NumberStays(b, r, to, 100, mode, 8);
    NumberStays(b, r, to, 108, 0, 8);
    NumberStays(b, r, to, 116, 0, 8);
  }

  /** Nothing after the numbers is written before offset 148. */
  lemma HeaderKeepsNumbers(path: seq<byte>, size: int, mode: int, mtime: int)
    requires Split(path).Some?
    ensures Header(path, size, mode, mtime)[..148] == Numbered(Split(path).value.name, size, mode, mtime)[..148]
  {
    var parts := Split(path).value;
    var b := Numbered(parts.name, size, mode, mtime);
    var c := Splice(b, 156, [0x30]);
    SpliceSlices(b, 156, [0x30], 0, 148);
    var d := Splice(c, 257, USTAR);
    SpliceSlices(c, 257, USTAR, 0, 148);
    var e := Splice(d, 263, [0x30]);
    SpliceSlices(d, 263, [0x30], 0, 148);
    SpliceSlices(e, 264, [0x30], 0, 148);
    var g := Splice(Marked(b), 345, parts.prefix);
    SpliceSlices(Marked(b), 345, parts.prefix, 0, 148);
    SpliceSlices(g, 148, ChecksumText(Checksum(g)), 0, 148);
  }

  /** A reader finds the mode's twelve bits, owner and group zero, and the time exactly
  when it fits. */
  lemma ModeAndTimeRoundTrip(path: seq<byte>, size: int, mode: int, mtime: nat)
    requires Split(path).Some?
    ensures var b := Header(path, size, mode, mtime);
            && ReadNumber(b[100..108]) == Some(mode % 0x1000)
            && ReadNumber(b[108..116]) == Some(0) && ReadNumber(b[116..124]) == Some(0)
            && (ReadNumber(b[136..148]) == Some(mtime) <==> mtime < Power(256, 11))
  {
    var b, name := Header(path, size, mode, mtime), Split(path).value.name;
    var n := Numbered(name, size, mode, mtime);
    NumbersThere(name, size, mode, mtime);
    HeaderKeepsNumbers(path, size, mode, mtime);
    LaterFields(n, b, 148, mode % 0x1000);
    NumberStays(n, b, 148, 136, mtime, 12);
    SmallNumberReads(mode % 0x1000);
    SmallNumberReads(0);
    NumberRoundTrip(mtime, 12);
  }

  lemma SmallNumberReads(value: nat)
    requires value < 0x1000
    ensures ReadNumber(NumberField(value, 8)) == Some(value)
  {
    assert Power(8, 4) == 0x1000 && Power(8, 7) == 512 * Power(8, 4);
    PowersOrdered(7);
    NumberRoundTrip(value, 8);
  }

  /** The marks, byte by byte: a regular file, then "ustar", a NUL and "00". */
  lemma HeaderLiteral(path: seq<byte>, size: int, mode: int, mtime: int)
    requires Split(path).Some?
    ensures var b := Header(path, size, mode, mtime);
            && b[257..263] == [0x75, 0x73, 0x74, 0x61, 0x72, 0] && b[263..265] == [0x30, 0x30] && b[156] == 0x30
            && b[154] == 0 && b[155] == 0x20
  {
    HeaderIsMarked(path, size, mode, mtime);
    var g := Splice(Marked(Numbered(Split(path).value.name, size, mode, mtime)), 345, Split(path).value.prefix);
    var text := ChecksumText(Checksum(g));
    SpliceSlices(g, 148, text, 0, 0);
    assert Header(path, size, mode, mtime)[148..156] == text;
  }

  datatype Entry = Entry(path: seq<byte>, size: nat)

  /** A regular file of the ustar format: type flag, magic and version. */
  predicate IsUstarFile(block: seq<byte>)
    requires |block| == BLOCK
  {
    (block[156] == 0x30 || block[156] == 0) && block[257..263] == USTAR + [0] && block[263..265] == [0x30, 0x30]
  }

  /** How a reader takes a header: the checksum must verify and the marks be there. */
  function ReadHeader(block: seq<byte>): Option<Entry> {
    if |block| != BLOCK || ReadNumber(block[148..156]) != Some(Checksum(block)) || !IsUstarFile(block) then None
    else
      match ReadNumber(block[124..136])
      case None => None
      case Some(size) => Some(Entry(Rejoined(block[..100], block[345..500]), size))
  }

  predicate ZeroTail(block: seq<byte>) { |block| == BLOCK && block[156..BLOCK] == Zeros(356) }

  lemma TailStays(block: seq<byte>, at: nat, bytes: seq<byte>)
    requires ZeroTail(block) && at + |bytes| <= 156
    ensures ZeroTail(Splice(block, at, bytes))
  {
    SpliceSlices(block, at, bytes, 156, BLOCK);
  }

  /** The numbers leave the rest of the block zero, */
  lemma NumberedTail(name: seq<byte>, size: int, mode: int, mtime: int)
    requires |name| <= NAME_MAX
    ensures ZeroTail(Numbered(name, size, mode, mtime))
  {
    assert ZeroTail(Zeros(BLOCK));
    TailStays(Zeros(BLOCK), 0, name);
    var b0 := Splice(Zeros(BLOCK), 0, name);
    TailStays(b0, 100, NumberBytes(mode % 0x1000, 7));
    var b1 := Splice(b0, 100, NumberBytes(mode % 0x1000, 7));
    TailStays(b1, 108, NumberBytes(0, 7));
    var b2 := Splice(b1, 108, NumberBytes(0, 7));
    TailStays(b2, 116, NumberBytes(0, 7));
    var b3 := Splice(b2, 116, NumberBytes(0, 7));
    TailStays(b3, 124, NumberBytes(size, 11));
    TailStays(Splice(b3, 124, NumberBytes(size, 11)), 136, NumberBytes(mtime, 11));
  }

  /** where the marks go, */
  lemma MarksThere(block: seq<byte>)
    requires ZeroTail(block)
    ensures IsUstarFile(Marked(block)) && Marked(block)[156] == 0x30
  {
    assert block[262] == block[156..BLOCK][106];
    var b1 := Splice(block, 156, [0x30]);
    assert b1[156] == 0x30 && b1[262] == block[262];
    var b2 := Splice(b1, 257, USTAR);
    SpliceSlices(b1, 257, USTAR, 0, 0);
    assert b2[156] == b1[156] && b2[262] == b1[262];
    assert b2[257..263] == b2[257..262] + [b2[262]];
    var b3 := Splice(b2, 263, [0x30]);
    SpliceSlices(b2, 263, [0x30], 257, 263);
    assert b3[156] == b2[156] && b3[263] == 0x30;
    var b4 := Splice(b3, 264, [0x30]);
    SpliceSlices(b3, 264, [0x30], 257, 263);
    assert b4[156] == b3[156] && b4[263] == b3[263] && b4[264] == 0x30;
    assert b4[263..265] == [b4[263], b4[264]];
  }

  /** and nothing written later touches them. */
  lemma MarksStay(block: seq<byte>, at: nat, bytes: seq<byte>)
    requires |block| == BLOCK && at + |bytes| <= BLOCK && (at + |bytes| <= 156 || at >= 265) && IsUstarFile(block)
    ensures IsUstarFile(Splice(block, at, bytes)) && Splice(block, at, bytes)[156] == block[156]
  {
    SpliceSlices(block, at, bytes, 257, 263);
    SpliceSlices(block, at, bytes, 263, 265);
  }

  lemma HeaderIsMarked(path: seq<byte>, size: int, mode: int, mtime: int)
    requires Split(path).Some?
    ensures IsUstarFile(Header(path, size, mode, mtime)) && Header(path, size, mode, mtime)[156] == 0x30
  {
    var parts := Split(path).value;
    var b := Numbered(parts.name, size, mode, mtime);
    NumberedTail(parts.name, size, mode, mtime);
    MarksThere(b);
    var g := Splice(Marked(b), 345, parts.prefix);
    MarksStay(Marked(b), 345, parts.prefix);
    MarksStay(g, 148, ChecksumText(Checksum(g)));
  }

  /** What decides how a verified header reads: its number and its two names. */
  lemma ReadsAs(block: seq<byte>, path: seq<byte>, size: nat)
    requires |block| == BLOCK && ReadNumber(block[148..156]) == Some(Checksum(block)) && IsUstarFile(block)
    requires Split(path).Some? && Rejoined(block[..100], block[345..500]) == Seen(path)
    requires ReadNumber(block[124..136]) == Some(size) <==> size < Power(256, 11)
    ensures ReadHeader(block) == Some(Entry(Seen(path), size)) <==> size < Power(256, 11)
    ensures ReadHeader(block) == Some(Entry(path, size)) <==> size < Power(256, 11) && !Mangled(path)
  {
    PathRoundTrip(path);
  }

  /** A reader gets the path it should see, and the size exactly when it fits. */
  lemma HeaderRoundTrip(path: seq<byte>, size: nat, mode: int, mtime: int)
    requires Split(path).Some?
    ensures ReadHeader(Header(path, size, mode, mtime)) == Some(Entry(Seen(path), size)) <==> size < Power(256, 11)
    ensures (ReadHeader(Header(path, size, mode, mtime)) == Some(Entry(path, size))
             <==> size < Power(256, 11) && !Mangled(path))
  {
    var parts := Split(path).value;
    HeaderFields(path, size, mode, mtime);
    HeaderIsMarked(path, size, mode, mtime);
    SealVerifies(Splice(Marked(Numbered(parts.name, size, mode, mtime)), 345, parts.prefix));
    NumberRoundTrip(size, 12);
    ReadsAs(Header(path, size, mode, mtime), path, size);
  }

  /** No header is a zero block, so the end marker cannot be mistaken for one. */
  lemma HeaderIsNotZero(path: seq<byte>, size: int, mode: int, mtime: int)
    requires Split(path).Some?
    ensures Header(path, size, mode, mtime) != Zeros(BLOCK)
  {
    var b := Header(path, size, mode, mtime);
    assert b[155] == 0x20;
  }

  // ---- Archives

  datatype File = File(path: seq<byte>, size: nat, mode: int, mtime: int, data: seq<byte>)

  function PadOf(size: nat): (r: nat)
    ensures r < BLOCK
  {
    (BLOCK - size % BLOCK) % BLOCK
  }

  predicate Complete(f: File) { |f.data| == f.size }

  /** What has been emitted for an entry: header, payload so far, and the padding
  as soon as the payload is complete. */
  function Emitted(f: File): seq<byte>
    requires Split(f.path).Some?
  {
    EmittedWith(Header(f.path, f.size, f.mode, f.mtime), f)
  }

  function EmittedWith(header: seq<byte>, f: File): seq<byte> {
    header + f.data + (if Complete(f) then Zeros(PadOf(f.size)) else [])
  }

  predicate Accepted(files: seq<File>) {
    forall i {:trigger Split(files[i].path)} :: 0 <= i < |files| ==> Split(files[i].path).Some?
  }

  function Parts(files: seq<File>): (r: seq<seq<byte>>)
    requires Accepted(files)
    ensures |r| == |files|
  {
    seq(|files|, i requires 0 <= i < |files| => Emitted(files[i]))
  }

  function Concat(parts: seq<seq<byte>>): seq<byte> {
    if parts == [] then [] else Concat(parts[..|parts| - 1]) + parts[|parts| - 1]
  }

  function EmittedAll(files: seq<File>): seq<byte>
    requires Accepted(files)
  {
    Concat(Parts(files))
  }

  predicate AllComplete(files: seq<File>) {
    forall i {:trigger Complete(files[i])} :: 0 <= i < |files| ==> Complete(files[i])
  }

  datatype Item = Item(path: seq<byte>, data: seq<byte>)

  /** Entries as `read` takes their headers, until two zero blocks. */
  function ReadWith(read: seq<byte> -> Option<Entry>, bytes: seq<byte>): Option<seq<Item>>
    decreases |bytes|
  {
    if |bytes| < 2 * BLOCK then None
    else if bytes[..BLOCK] == Zeros(BLOCK) then (if bytes[BLOCK..2 * BLOCK] == Zeros(BLOCK) then Some([]) else None)
    else
      match read(bytes[..BLOCK])
      case None => None
      case Some(e) =>
        var next := BLOCK + e.size + PadOf(e.size);
        if |bytes| < next then None
        else
          match ReadWith(read, bytes[next..])
          case None => None
          case Some(items) => Some([Item(e.path, bytes[BLOCK..BLOCK + e.size])] + items)
  }

  /** A USTAR reader over a whole archive. */
  function ReadArchive(bytes: seq<byte>): Option<seq<Item>> { ReadWith(ReadHeader, bytes) }

  function SeenItem(f: File): Item
    requires Split(f.path).Some?
  {
    Item(Seen(f.path), f.data)
  }

  function SeenAll(files: seq<File>): (r: seq<Item>)
    requires Accepted(files)
    ensures |r| == |files|
  {
    seq(|files|, i requires 0 <= i < |files| => SeenItem(files[i]))
  }

  function PlainItem(f: File): Item { Item(f.path, f.data) }

  /** The files themselves. */
  function Plain(files: seq<File>): (r: seq<Item>)
    ensures |r| == |files|
  {
    seq(|files|, i requires 0 <= i < |files| => PlainItem(files[i]))
  }

  /** No path is one a reader gets back changed. */
  predicate NoneMangled(files: seq<File>) {
    forall i {:trigger Mangled(files[i].path)} :: 0 <= i < |files| ==> !Mangled(files[i].path)
  }

  /** 256 to the power 11, the first size a header cannot hold. */
  const SIZE_LIMIT: nat := 0x1_00_0000_0000_0000_0000_0000

  predicate SizesFit(files: seq<File>) { forall i :: 0 <= i < |files| ==> files[i].size < SIZE_LIMIT }

  lemma {:induction false} ConcatFront(part: seq<byte>, parts: seq<seq<byte>>)
    ensures Concat([part] + parts) == part + Concat(parts)
    decreases |parts|
  {
    var all := [part] + parts;
    if parts == [] {
      assert all[..0] == [] && Concat([]) == [];
    } else {
      assert all[..|all| - 1] == [part] + parts[..|parts| - 1];
      ConcatFront(part, parts[..|parts| - 1]);
    }
  }

  /** A header block and an item, whose payload follows it. */
  datatype Chunk = Chunk(header: seq<byte>, item: Item)

  predicate Proper(c: Chunk) { |c.header| == BLOCK && c.header != Zeros(BLOCK) }

  /** The header reads as that item. */
  predicate Reads(read: seq<byte> -> Option<Entry>, c: Chunk) {
    read(c.header) == Some(Entry(c.item.path, |c.item.data|))
  }

  function Laid(c: Chunk): seq<byte> { c.header + c.item.data + Zeros(PadOf(|c.item.data|)) }

  lemma Layout(header: seq<byte>, data: seq<byte>, pad: seq<byte>, rest: seq<byte>)
    ensures var bytes := header + data + pad + rest;
            && bytes[..|header|] == header
            && bytes[|header|..|header| + |data|] == data
            && bytes[|header| + |data| + |pad|..] == rest
  {
  }

  lemma {:induction false} ReadOne(read: seq<byte> -> Option<Entry>, c: Chunk, rest: seq<byte>, items: seq<Item>)
    requires Proper(c) && |rest| >= BLOCK
    ensures ReadWith(read, Laid(c) + rest) == Some([c.item] + items)
            <==> Reads(read, c) && ReadWith(read, rest) == Some(items)
  {
    var bytes := Laid(c) + rest;
    Layout(c.header, c.item.data, Zeros(PadOf(|c.item.data|)), rest);
    if Reads(read, c) {
      SameTail(c.item, ReadWith(read, rest), items);
    } else if ReadWith(read, bytes).Some? {
      var e := read(c.header).value;
      assert ReadWith(read, bytes).value[0] == Item(e.path, bytes[BLOCK..BLOCK + e.size]) != c.item;
      assert ([c.item] + items)[0] == c.item;
    }
  }

  lemma SameTail(item: Item, r: Option<seq<Item>>, items: seq<Item>)
    ensures r.Some? ==> ([item] + r.value == [item] + items <==> r.value == items)
  {
    if r.Some? { assert ([item] + r.value)[1..] == r.value && ([item] + items)[1..] == items; }
  }

  lemma {:induction false} FirstOut(parts: seq<seq<byte>>, end: seq<byte>)
    requires parts != []
    ensures Concat(parts) + end == parts[0] + (Concat(parts[1..]) + end)
  {
    assert parts == [parts[0]] + parts[1..];
    ConcatFront(parts[0], parts[1..]);
  }

  /** The chunks are laid out one after the other, and stand for the items. */
  predicate LaidOut(chunks: seq<Chunk>, parts: seq<seq<byte>>, items: seq<Item>) {
    && |parts| == |items| == |chunks|
    && forall i {:trigger chunks[i]} :: 0 <= i < |chunks| ==>
         Proper(chunks[i]) && parts[i] == Laid(chunks[i]) && items[i] == chunks[i].item
  }

  predicate AllRead(read: seq<byte> -> Option<Entry>, chunks: seq<Chunk>) {
    forall i {:trigger chunks[i]} :: 0 <= i < |chunks| ==> Reads(read, chunks[i])
  }

  lemma AllReadStep(read: seq<byte> -> Option<Entry>, chunks: seq<Chunk>)
    requires chunks != []
    ensures AllRead(read, chunks) <==> Reads(read, chunks[0]) && AllRead(read, chunks[1..])
  {
    assert chunks == [chunks[0]] + chunks[1..];
  }

  /** A finished archive reads as its items exactly when every header does. */
  lemma {:induction false} ReadChunks(
      read: seq<byte> -> Option<Entry>, chunks: seq<Chunk>, parts: seq<seq<byte>>, items: seq<Item>)
    requires LaidOut(chunks, parts, items)
    ensures ReadWith(read, Concat(parts) + Zeros(2 * BLOCK)) == Some(items) <==> AllRead(read, chunks)
    decreases |chunks|
  {
    var end := Zeros(2 * BLOCK);
    if chunks == [] {
      assert Concat(parts) + end == end;
      assert end[..BLOCK] == Zeros(BLOCK) && end[BLOCK..2 * BLOCK] == Zeros(BLOCK);
    } else {
      ReadChunks(read, chunks[1..], parts[1..], items[1..]);
      var tail := Concat(parts[1..]) + end;
      assert Concat(parts) + end == parts[0] + tail by { FirstOut(parts, end); }
      ReadOne(read, chunks[0], tail, items[1..]);
      assert items == [chunks[0].item] + items[1..];
      AllReadStep(read, chunks);
    }
  }

  function ChunkOf(f: File, item: Item): Chunk
    requires Split(f.path).Some?
  {
    Chunk(Header(f.path, f.size, f.mode, f.mtime), item)
  }

  lemma SizeLimit()
    ensures SIZE_LIMIT == Power(256, 11)
  {
    assert Power(256, 4) == 0x1_0000_0000;
    assert Power(256, 8) == 0x1_0000_0000 * 0x1_0000_0000;
  }

  lemma ChunkReads(f: File)
    requires Split(f.path).Some? && Complete(f)
    ensures Reads(ReadHeader, ChunkOf(f, SeenItem(f))) <==> f.size < SIZE_LIMIT
    ensures Reads(ReadHeader, ChunkOf(f, PlainItem(f))) <==> f.size < SIZE_LIMIT && !Mangled(f.path)
  {
    assert SIZE_LIMIT == Power(256, 11) by { SizeLimit(); }
    HeaderRoundTrip(f.path, f.size, f.mode, f.mtime);
  }

  lemma ChunkLies(f: File, item: Item)
    requires Split(f.path).Some? && Complete(f) && item.data == f.data
    ensures Proper(ChunkOf(f, item)) && Emitted(f) == Laid(ChunkOf(f, item))
  {
    HeaderIsNotZero(f.path, f.size, f.mode, f.mtime);
  }

  /** Items with the files' payloads are what a reader finds exactly when every
  header reads as its item. */
  lemma {:induction false} ArchiveReads(files: seq<File>, items: seq<Item>)
    requires Accepted(files) && AllComplete(files) && |items| == |files|
    requires forall i :: 0 <= i < |files| ==> items[i].data == files[i].data
    ensures forall i :: 0 <= i < |files| ==> Split(files[i].path).Some?
    ensures ReadArchive(EmittedAll(files) + Zeros(2 * BLOCK)) == Some(items)
            <==> forall i :: 0 <= i < |files| ==> Reads(ReadHeader, ChunkOf(files[i], items[i]))
  {
    assert forall i :: 0 <= i < |files| ==> Split(files[i].path).Some?;
    var chunks := seq(|files|, i requires 0 <= i < |files| => ChunkOf(files[i], items[i]));
    forall i | 0 <= i < |files| ensures Proper(chunks[i]) && Parts(files)[i] == Laid(chunks[i]) {
      assert Complete(files[i]);
      ChunkLies(files[i], items[i]);
    }
    ReadChunks(ReadHeader, chunks, Parts(files), items);
    assert forall i :: 0 <= i < |files| ==> chunks[i] == ChunkOf(files[i], items[i]);
  }

  /** A reader of a finished archive finds the paths it should see if and only if
  every size fits its header, and exactly the files added, in order, if and only
  if besides no path is mangled. */
  lemma {:induction false} ArchiveRoundTrip(files: seq<File>)
    requires Accepted(files) && AllComplete(files)
    ensures ReadArchive(EmittedAll(files) + Zeros(2 * BLOCK)) == Some(SeenAll(files)) <==> SizesFit(files)
    ensures ReadArchive(EmittedAll(files) + Zeros(2 * BLOCK)) == Some(Plain(files))
            <==> SizesFit(files) && NoneMangled(files)
  {
    SeenRoundTrip(files);
    PlainRoundTrip(files);
  }

  lemma {:induction false} SeenRoundTrip(files: seq<File>)
    requires Accepted(files) && AllComplete(files)
    ensures ReadArchive(EmittedAll(files) + Zeros(2 * BLOCK)) == Some(SeenAll(files)) <==> SizesFit(files)
  {
    ArchiveReads(files, SeenAll(files));
    forall i | 0 <= i < |files|
      ensures Reads(ReadHeader, ChunkOf(files[i], SeenAll(files)[i])) <==> files[i].size < SIZE_LIMIT
    {
      assert Complete(files[i]);
      ChunkReads(files[i]);
    }
  }

  lemma {:induction false} PlainRoundTrip(files: seq<File>)
    requires Accepted(files) && AllComplete(files)
    ensures ReadArchive(EmittedAll(files) + Zeros(2 * BLOCK)) == Some(Plain(files))
            <==> SizesFit(files) && NoneMangled(files)
  {
    ArchiveReads(files, Plain(files));
    forall i | 0 <= i < |files|
      ensures Reads(ReadHeader, ChunkOf(files[i], Plain(files)[i]))
              <==> files[i].size < SIZE_LIMIT && !Mangled(files[i].path)
    {
      assert Complete(files[i]);
      ChunkReads(files[i]);
    }
  }

  lemma {:induction false} ConcatBlocks(parts: seq<seq<byte>>)
    requires forall i :: 0 <= i < |parts| ==> |parts[i]| % BLOCK == 0
    ensures |Concat(parts)| % BLOCK == 0
    decreases |parts|
  {
    if parts != [] { ConcatBlocks(parts[..|parts| - 1]); }
  }

  lemma SizeRounds(header: seq<byte>, f: File)
    requires |header| == BLOCK && Complete(f)
    ensures |EmittedWith(header, f)| % BLOCK == 0
  {
    PadRounds(f.size);
  }

  lemma PadRounds(n: nat)
    ensures (BLOCK + n + PadOf(n)) % BLOCK == 0
  {
    var q, m := n / 512, n % 512;
    assert n == 512 * q + m;
    if m == 0 { assert BLOCK + n + PadOf(n) == 512 * (q + 1); } else { assert BLOCK + n + PadOf(n) == 512 * (q + 2); }
  }

  lemma EmittedBlocks(f: File)
    requires Split(f.path).Some? && Complete(f)
    ensures |Emitted(f)| % BLOCK == 0
  {
    SizeRounds(Header(f.path, f.size, f.mode, f.mtime), f);
  }

  lemma WholeBlocks(files: seq<File>)
    requires Accepted(files) && AllComplete(files)
    ensures |EmittedAll(files)| % BLOCK == 0
  {
    forall i | 0 <= i < |files| ensures |Parts(files)[i]| % BLOCK == 0 { EmittedBlocks(files[i]); }
    ConcatBlocks(Parts(files));
  }
}
