/** The flat buffers of a batched put: a little-endian length before each part. */
module PutManyFrames {
  import opened Wrappers
  import opened Bytes

  // ---- Lengths

  function WriteLE32(v: nat): (r: seq<byte>)
    ensures |r| == 4
  {
    [v % 256, v / 0x100 % 256, v / 0x1_0000 % 256, v / 0x100_0000 % 256]
  }

  function ReadLE32(b: seq<byte>): (r: nat)
    requires |b| == 4
    ensures r < WORD
  {
    var b0: nat, b1: nat, b2: nat, b3: nat := b[0], b[1], b[2], b[3];
    b0 + b1 * 0x100 + b2 * 0x1_0000 + b3 * 0x100_0000
  }

  lemma LengthRoundTrip(v: nat)
    ensures ReadLE32(WriteLE32(v)) == v <==> v < WORD
  {
    var a, b, c := v / 0x100, v / 0x1_0000, v / 0x100_0000;
    assert b == a / 0x100 && c == b / 0x100 && v / WORD == c / 0x100;
    assert ReadLE32(WriteLE32(v)) == v % WORD;
  }

  // ---- Writing frames

  function Frame(part: seq<byte>): seq<byte> { WriteLE32(|part|) + part }

  function Frames(parts: seq<seq<byte>>): seq<byte> {
    if parts == [] then [] else Frames(parts[..|parts| - 1]) + Frame(parts[|parts| - 1])
  }

  predicate Short(parts: seq<seq<byte>>) { forall i :: 0 <= i < |parts| ==> |parts[i]| < WORD }

  /** The first loop: how many bytes the buffer needs. */
  method Measure(parts: seq<seq<byte>>) returns (total: nat)
    ensures total == |Frames(parts)|
  {
    total := 0;
    for i := 0 to |parts|
      invariant total == |Frames(parts[..i])|
    {
      total := total + 4 + |parts[i]|;
      assert parts[..i + 1][..i] == parts[..i];
    }
    assert parts[..|parts|] == parts;
  }

  /** Puts one part at a running offset. */
  method Fill(buf: array<byte>, at: nat, bytes: seq<byte>, ghost done: seq<byte>)
    requires at == |done| && at + |bytes| <= buf.Length && buf[..at] == done
    modifies buf
    ensures buf[..at + |bytes|] == done + bytes
  {
    for i := 0 to |bytes|
      invariant buf[..at] == done && buf[at..at + i] == bytes[..i]
    {
      buf[at + i] := bytes[i];
    }
    assert buf[..at + |bytes|] == buf[..at] + buf[at..at + |bytes|];
  }

  /** The second loop, over one buffer; nothing when a length does not fit its word. */
  method Encode(parts: seq<seq<byte>>) returns (r: Option<seq<byte>>)
    ensures r == if Short(parts) then Some(Frames(parts)) else None
  {
    var total := Measure(parts);
    var buf := new byte[total];
    var at := 0;
    for i := 0 to |parts|
      invariant Short(parts[..i]) && at == |Frames(parts[..i])| <= total && buf[..at] == Frames(parts[..i])
    {
      if |parts[i]| >= WORD { return None; }
      FramesPrefix(parts, i);
      Fill(buf, at, WriteLE32(|parts[i]|), Frames(parts[..i]));
      Fill(buf, at + 4, parts[i], Frames(parts[..i]) + WriteLE32(|parts[i]|));
      at := at + 4 + |parts[i]|;
    }
    assert parts[..|parts|] == parts && buf[..total] == buf[..];
    return Some(buf[..]);
  }

  lemma {:induction false} FramesGrow(parts: seq<seq<byte>>, i: nat)
    requires i <= |parts|
    ensures |Frames(parts[..i])| <= |Frames(parts)|
    decreases |parts| - i
  {
    if i < |parts| {
      FramesGrow(parts, i + 1);
      assert parts[..i + 1][..i] == parts[..i];
    } else {
      assert parts[..i] == parts;
    }
  }

  lemma FramesPrefix(parts: seq<seq<byte>>, i: nat)
    requires i < |parts|
    ensures Frames(parts[..i + 1]) == Frames(parts[..i]) + WriteLE32(|parts[i]|) + parts[i]
    ensures |Frames(parts[..i + 1])| <= |Frames(parts)|
    ensures Short(parts[..i]) && |parts[i]| < WORD ==> Short(parts[..i + 1])
  {
    assert parts[..i + 1][..i] == parts[..i];
    assert Frames(parts[..i]) + Frame(parts[i]) == Frames(parts[..i]) + WriteLE32(|parts[i]|) + parts[i];
    FramesGrow(parts, i + 1);
  }

  // ---- Reading frames

  datatype Framed = Part(bytes: seq<byte>, next: nat) | Truncated | Overruns

  /** One bounded read of the walk. */
  function ReadFrame(buf: seq<byte>, at: nat): (r: Framed)
    ensures r.Part? ==> at + 4 + |r.bytes| == r.next <= |buf| && r.bytes == buf[at + 4..r.next]
  {
    if at + 4 > |buf| then Truncated
    else
      var length := ReadLE32(buf[at..at + 4]);
      if at + 4 + length > |buf| then Overruns else Part(buf[at + 4..at + 4 + length], at + 4 + length)
  }

  lemma FrameReads(before: seq<byte>, part: seq<byte>, rest: seq<byte>)
    requires |part| < WORD
    ensures ReadFrame(before + Frame(part) + rest, |before|) == Part(part, |before| + 4 + |part|)
  {
    var word := WriteLE32(|part|);
    LengthRoundTrip(|part|);
    ReadsThere(before, word, part, rest);
    assert before + word + part + rest == before + Frame(part) + rest;
  }

  lemma ReadsThere(before: seq<byte>, word: seq<byte>, part: seq<byte>, rest: seq<byte>)
    requires |word| == 4 && ReadLE32(word) == |part|
    ensures ReadFrame(before + word + part + rest, |before|) == Part(part, |before| + 4 + |part|)
  {
    var buf := before + word + part + rest;
    assert buf[|before|..|before| + 4] == word;
    assert buf[|before| + 4..|before| + 4 + |part|] == part;
  }

  datatype Entry = Entry(key: seq<byte>, value: seq<byte>)
  datatype Fault = KeysTruncated | KeyOverruns | ValuesTruncated | ValueOverruns
  datatype Walked = Entries(entries: seq<Entry>) | Bad(fault: Fault)

  /** What the walk finds from the two offsets on, for `n` entries. */
  function Walk(keys: seq<byte>, values: seq<byte>, ko: nat, vo: nat, n: nat): Walked
    decreases n
  {
    if n == 0 then Entries([])
    else
      match ReadFrame(keys, ko)
      case Truncated => Bad(KeysTruncated)
      case Overruns => Bad(KeyOverruns)
      case Part(key, ko') =>
        match ReadFrame(values, vo)
        case Truncated => Bad(ValuesTruncated)
        case Overruns => Bad(ValueOverruns)
        case Part(value, vo') => After([Entry(key, value)], Walk(keys, values, ko', vo', n - 1))
  }

  function After(entries: seq<Entry>, w: Walked): Walked {
    if w.Bad? then w else Entries(entries + w.entries)
  }

  lemma AfterAfter(a: seq<Entry>, b: seq<Entry>, w: Walked)
    ensures After(a, After(b, w)) == After(a + b, w)
  {
    if w.Entries? { assert a + (b + w.entries) == (a + b) + w.entries; }
  }

  function Keys(es: seq<Entry>): (r: seq<seq<byte>>)
    ensures |r| == |es|
  {
    seq(|es|, i requires 0 <= i < |es| => es[i].key)
  }

  function Values(es: seq<Entry>): (r: seq<seq<byte>>)
    ensures |r| == |es|
  {
    seq(|es|, i requires 0 <= i < |es| => es[i].value)
  }

  /** Where each frame starts, and where the last one ends. */
  function Starts(parts: seq<seq<byte>>): (r: seq<nat>)
    ensures |r| == |parts| + 1
  {
    seq(|parts| + 1, i requires 0 <= i <= |parts| => |Frames(parts[..i])|)
  }

  /** The buffers hold part `j` of the entries at the `j`-th offsets. */
  predicate Lies(buf: seq<byte>, parts: seq<seq<byte>>, starts: seq<nat>) {
    |starts| == |parts| + 1
    && forall j {:trigger parts[j]} :: 0 <= j < |parts| ==>
         ReadFrame(buf, starts[j]) == Part(parts[j], starts[j + 1])
  }

  /** The tail of the buffers decodes to the tail of the entries. */
  lemma {:induction false} WalkFrom(
      keys: seq<byte>, values: seq<byte>, es: seq<Entry>, kos: seq<nat>, vos: seq<nat>, i: nat)
    requires i <= |es| && Lies(keys, Keys(es), kos) && Lies(values, Values(es), vos)
    ensures Walk(keys, values, kos[i], vos[i], |es| - i) == Entries(es[i..])
    decreases |es| - i
  {
    if i < |es| {
      WalkFrom(keys, values, es, kos, vos, i + 1);
      assert Keys(es)[i] == es[i].key && Values(es)[i] == es[i].value;
      assert es[i..] == [Entry(es[i].key, es[i].value)] + es[i + 1..];
    }
  }

  lemma FrameThere(parts: seq<seq<byte>>, i: nat)
    requires i < |parts| && Short(parts)
    ensures ReadFrame(Frames(parts), |Frames(parts[..i])|) == Part(parts[i], |Frames(parts[..i + 1])|)
  {
    FramesPrefix(parts, i);
    FramesSplit(parts, i + 1);
    var rest := Frames(parts)[|Frames(parts[..i + 1])|..];
    FrameReads(Frames(parts[..i]), parts[i], rest);
    assert Frames(parts[..i]) + Frame(parts[i]) + rest == Frames(parts);
  }

  lemma FramesLie(parts: seq<seq<byte>>)
    requires Short(parts)
    ensures Lies(Frames(parts), parts, Starts(parts)) && Starts(parts)[0] == 0
  {
    assert parts[..0] == [];
    forall j | 0 <= j < |parts|
      ensures ReadFrame(Frames(parts), Starts(parts)[j]) == Part(parts[j], Starts(parts)[j + 1])
    {
      FrameThere(parts, j);
    }
  }

  lemma {:induction false} FramesSplit(parts: seq<seq<byte>>, i: nat)
    requires i <= |parts|
    ensures |Frames(parts[..i])| <= |Frames(parts)| && Frames(parts)[..|Frames(parts[..i])|] == Frames(parts[..i])
    decreases |parts|
  {
    if i == |parts| {
      assert parts[..i] == parts;
    } else {
      var front := parts[..|parts| - 1];
      FramesSplit(front, i);
      assert front[..i] == parts[..i];
    }
  }

  /** Walking the two encoded buffers gives back the entries. */
  lemma {:induction false} FramesRoundTrip(es: seq<Entry>)
    requires Short(Keys(es)) && Short(Values(es))
    ensures Walk(Frames(Keys(es)), Frames(Values(es)), 0, 0, |es|) == Entries(es)
  {
    FramesLie(Keys(es));
    FramesLie(Values(es));
    WalkAll(Frames(Keys(es)), Frames(Values(es)), es, Starts(Keys(es)), Starts(Values(es)));
  }

  lemma {:induction false} WalkAll(keys: seq<byte>, values: seq<byte>, es: seq<Entry>, kos: seq<nat>, vos: seq<nat>)
    requires Lies(keys, Keys(es), kos) && Lies(values, Values(es), vos)
    ensures Walk(keys, values, kos[0], vos[0], |es|) == Entries(es)
  {
    WalkFrom(keys, values, es, kos, vos, 0);
    assert es[0..] == es;
  }

  /** The length bytes are the base-256 digits, least significant first. */
  lemma LengthsAreLittleEndian(v: nat)
    ensures var b := WriteLE32(v); Value(256, [b[3], b[2], b[1], b[0]]) == v % WORD
  {
    var b := WriteLE32(v);
    var r: seq<nat> := [b[3], b[2], b[1], b[0]];
    assert r[..3][..2] == r[..2] && r[..2][..1] == r[..1] && r[..1][..0] == [];
    assert Value(256, r[..1]) == r[0];
    assert Value(256, r[..2]) == Value(256, r[..1]) * 256 + r[1];
    assert Value(256, r[..3]) == Value(256, r[..2]) * 256 + r[2];
    var x, y, z := v / 0x100, v / 0x1_0000, v / 0x100_0000;
    assert y == x / 0x100 && z == y / 0x100 && v / WORD == z / 0x100;
  }

  /** Which fault a walk ends with, after any number of good entries: keys before
  values, a missing length before a missing part. */
  lemma {:induction false} FaultsAreNamed(
      keys: seq<byte>, values: seq<byte>, es: seq<Entry>, kos: seq<nat>, vos: seq<nat>, n: nat)
    requires Lies(keys, Keys(es), kos) && Lies(values, Values(es), vos) && n > |es|
    ensures var ko, vo := kos[|es|], vos[|es|];
            var w := Walk(keys, values, kos[0], vos[0], n);
            && (ko + 4 > |keys| ==> w == Bad(KeysTruncated))
            && (ko + 4 <= |keys| < ko + 4 + ReadLE32(keys[ko..ko + 4]) ==> w == Bad(KeyOverruns))
            && (ReadFrame(keys, ko).Part? && vo + 4 > |values| ==> w == Bad(ValuesTruncated))
            && (ReadFrame(keys, ko).Part? && vo + 4 <= |values| < vo + 4 + ReadLE32(values[vo..vo + 4]) ==>
                  w == Bad(ValueOverruns))
    decreases |es|
  {
    if es != [] {
      assert Keys(es)[0] == es[0].key && Values(es)[0] == es[0].value;
      LiesLater(keys, Keys(es), kos);
      LiesLater(values, Values(es), vos);
      assert Keys(es)[1..] == Keys(es[1..]) && Values(es)[1..] == Values(es[1..]);
      FaultsAreNamed(keys, values, es[1..], kos[1..], vos[1..], n - 1);
    }
  }

  lemma LiesLater(buf: seq<byte>, parts: seq<seq<byte>>, starts: seq<nat>)
    requires Lies(buf, parts, starts) && parts != []
    ensures Lies(buf, parts[1..], starts[1..])
  {
    forall j | 0 <= j < |parts| - 1 ensures ReadFrame(buf, starts[1..][j]) == Part(parts[1..][j], starts[1..][j + 1]) {
      assert parts[1..][j] == parts[j + 1];
    }
  }
}
