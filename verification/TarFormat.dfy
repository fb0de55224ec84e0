/** USTAR headers: numbers, names and checksums, with the reader's side.

The format is the ustar interchange format of the `pax` utility in POSIX.1
(IEEE Std 1003.1), with the GNU base-256 form for numbers that octal cannot
hold. Names are byte strings. */
module TarFormat {
  import opened Wrappers
  import opened Bytes

  const BLOCK: nat := 512
  const NAME_MAX: nat := 100
  const PREFIX_MAX: nat := 155
  const SLASH: byte := 0x2f

  // ---- Numbers

  /** A number printed in base 8, as `toString(8)` does. */
  function OctalText(v: int): (r: seq<byte>)
    decreases v < 0, if v < 0 then -v else v
  {
    if v < 0 then [0x2d] + OctalText(-v)
    else if v < 8 then [0x30 + v]
    else OctalText(v / 8) + [0x30 + v % 8]
  }

  function PadStart(s: seq<byte>, n: nat): (r: seq<byte>)
    ensures |r| >= n && |r| >= |s|
  {
    if |s| >= n then s else seq(n - |s|, _ => 0x30) + s
  }

  /** What `writeOctal` stores: `digits` octal digits (the byte after them stays),
  or a marker and `digits` base-256 digits. */
  function NumberBytes(value: int, digits: nat): (r: seq<byte>)
    ensures digits <= |r| <= digits + 1
  {
    if value > Power(8, digits) - 1 then PowerPositive(8, digits); [0x80] + Digits(256, digits, value)
    else PadStart(OctalText(value), digits)[..digits]
  }

  /** The whole field, where it started out zeroed. */
  function NumberField(value: int, length: nat): (r: seq<byte>)
    requires length > 0
    ensures |r| == length
  {
    var b := NumberBytes(value, length - 1);
    if |b| == length then b else b + [0]
  }

  /** The part of a text field before its first NUL (or space, when `space`). */
  function Before(field: seq<byte>, space: bool): (r: seq<byte>)
    ensures |r| <= |field| && r == field[..|r|]
    ensures forall i :: 0 <= i < |r| ==> r[i] != 0 && !(space && r[i] == 0x20)
    ensures |r| < |field| ==> field[|r|] == 0 || (space && field[|r|] == 0x20)
  {
    if field == [] || field[0] == 0 || (space && field[0] == 0x20) then []
    else
      var rest := Before(field[1..], space);
      [field[0]] + rest
  }

  predicate AllOctal(text: seq<byte>) { forall i :: 0 <= i < |text| ==> 0x30 <= text[i] < 0x38 }

  function FromText(text: seq<byte>): (r: seq<nat>)
    requires AllOctal(text)
    ensures |r| == |text|
  {
    seq(|text|, i requires 0 <= i < |text| => text[i] - 0x30)
  }

  /** How a reader takes a number field: base 256 after the marker, else octal. */
  function ReadNumber(field: seq<byte>): Option<nat> {
    if field != [] && field[0] == 0x80 then Some(Value(256, field[1..]))
    else
      var text := Before(field, true);
      if text != [] && AllOctal(text) then Some(Value(8, FromText(text))) else None
  }

  function AsText(ds: seq<nat>): (r: seq<byte>)
    requires forall i :: 0 <= i < |ds| ==> ds[i] < 8
    ensures |r| == |ds|
  {
    seq(|ds|, i requires 0 <= i < |ds| => 0x30 + ds[i])
  }

  lemma {:induction false} DigitsOfZero(n: nat)
    ensures AsText(Digits(8, n, 0)) == seq(n, _ => 0x30)
    decreases n
  {
    if n > 0 {
      DigitsOfZero(n - 1);
      assert AsText(Digits(8, n, 0)) == AsText(Digits(8, n - 1, 0)) + [0x30];
    }
  }

  lemma {:induction false} OctalFits(v: nat, n: nat)
    requires n > 0 && v < Power(8, n)
    ensures |OctalText(v)| <= n && PadStart(OctalText(v), n) == AsText(Digits(8, n, v))
    decreases n
  {
    assert AsText(Digits(8, n, v)) == AsText(Digits(8, n - 1, v / 8)) + [0x30 + v % 8];
    if v < 8 {
      DigitsOfZero(n - 1);
    } else {
      DivBelow(v, 8, Power(8, n - 1));
      assert Power(8, 0) == 1;
      OctalFits(v / 8, n - 1);
      assert PadStart(OctalText(v), n) == PadStart(OctalText(v / 8), n - 1) + [0x30 + v % 8];
    }
  }

  lemma {:induction false} PowersOrdered(n: nat)
    ensures Power(8, n) <= Power(256, n)
    decreases n
  {
    if n > 0 { PowersOrdered(n - 1); }
  }

  lemma ReadsOctal(v: nat, n: nat, rest: seq<byte>)
    requires n > 0 && v < Power(8, n) && rest != [] && rest[0] == 0
    ensures ReadNumber(AsText(Digits(8, n, v)) + rest) == Some(v)
  {
    var text := AsText(Digits(8, n, v));
    var field := text + rest;
    var found := Before(field, true);
    BeforeStops(text, rest, true);
    BeforeWhole(text, true);
    assert FromText(text) == Digits(8, n, v) by { TextOfDigits(Digits(8, n, v)); }
    ValueOfDigits(8, n, v);
    assert field[0] == text[0];
  }

  lemma TextOfDigits(ds: seq<nat>)
    requires forall i :: 0 <= i < |ds| ==> ds[i] < 8
    ensures AllOctal(AsText(ds)) && FromText(AsText(ds)) == ds
  {
  }

  lemma {:induction false} BeforeStops(text: seq<byte>, rest: seq<byte>, space: bool)
    requires rest != [] ==> rest[0] == 0
    ensures Before(text + rest, space) == Before(text, space)
    decreases |text|
  {
    if text == [] {
      assert text + rest == rest;
    } else {
      assert (text + rest)[1..] == text[1..] + rest;
      BeforeStops(text[1..], rest, space);
    }
  }

  lemma {:induction false} BeforeWhole(text: seq<byte>, space: bool)
    requires forall i :: 0 <= i < |text| ==> text[i] != 0 && !(space && text[i] == 0x20)
    ensures Before(text, space) == text
    decreases |text|
  {
    if text != [] {
      BeforeWhole(text[1..], space);
      assert text == [text[0]] + text[1..];
    }
  }

  /** A reader gets a number back exactly when the magnitude fits the field's
  base-256 form; beyond that the high digits are silently lost. */
  lemma NumberRoundTrip(value: nat, length: nat)
    requires length > 1
    ensures ReadNumber(NumberField(value, length)) == Some(value) <==> value < Power(256, length - 1)
  {
    var n := length - 1;
    PowersOrdered(n);
    if value < Power(8, n) {
      OctalFits(value, n);
      ReadsOctal(value, n, [0]);
      assert NumberField(value, length) == AsText(Digits(8, n, value)) + [0];
    } else {
      var field := NumberField(value, length);
      assert field == [0x80] + Digits(256, n, value);
      assert field[1..] == Digits(256, n, value);
      ValueOfDigits(256, n, value);
    }
  }

  /** The first size the encoder accepts and a reader misreads. */
  lemma HugeSizeIsLost()
    ensures ReadNumber(NumberField(Power(256, 11), 12)) != Some(Power(256, 11))
  {
    NumberRoundTrip(Power(256, 11), 12);
  }

  // ---- Names

  /** The path may be split at this slash. */
  predicate SplitsAt(path: seq<byte>, i: nat) {
    i < |path| && path[i] == SLASH && 0 < |path| - i - 1 <= NAME_MAX && i <= PREFIX_MAX
  }

  /** The last admissible slash before `n`, or -1. */
  function BestSplit(path: seq<byte>, n: nat): (best: int)
    ensures -1 <= best < n
    ensures best >= 0 ==> SplitsAt(path, best)
    ensures forall i :: best < i < n ==> !SplitsAt(path, i)
  {
    if n == 0 then -1 else if SplitsAt(path, n - 1) then n - 1 else BestSplit(path, n - 1)
  }

  datatype Names = Names(name: seq<byte>, prefix: seq<byte>)

  /** `splitTarName`; no result where the encoder throws. */
  function Split(path: seq<byte>): (r: Option<Names>)
    ensures r.Some? ==> |r.value.name| <= NAME_MAX && |r.value.prefix| <= PREFIX_MAX
  {
    if |path| <= NAME_MAX then Some(Names(path, []))
    else
      var best := BestSplit(path, |path|);
      if best < 0 then None else Some(Names(path[best + 1..], path[..best]))
  }

  /** A path is accepted exactly when it is short or has an admissible slash; a long
  one is cut at the last of these. */
  lemma SplitsExactly(path: seq<byte>)
    ensures Split(path).Some? <==> |path| <= NAME_MAX || exists i: nat :: SplitsAt(path, i)
    ensures |path| <= NAME_MAX ==> Split(path) == Some(Names(path, []))
    ensures forall i: nat ::
              |path| > NAME_MAX && SplitsAt(path, i) && (forall j: nat :: SplitsAt(path, j) ==> j <= i) ==>
                Split(path) == Some(Names(path[i + 1..], path[..i]))
  {
    var best := BestSplit(path, |path|);
    assert forall i: nat :: SplitsAt(path, i) ==> i <= best;
  }

  /** The path a reader rebuilds from the two fields. */
  function Rejoined(nameField: seq<byte>, prefixField: seq<byte>): seq<byte> {
    var name, prefix := Before(nameField, false), Before(prefixField, false);
    if prefix == [] then name else prefix + [SLASH] + name
  }

  function Padded(text: seq<byte>, length: nat): (r: seq<byte>)
    requires |text| <= length
    ensures |r| == length
  {
    text + Zeros(length - |text|)
  }

  /** What a reader sees for an accepted path. */
  function Seen(path: seq<byte>): seq<byte>
    requires Split(path).Some?
  {
    Rejoined(Padded(Split(path).value.name, NAME_MAX), Padded(Split(path).value.prefix, PREFIX_MAX))
  }

  /** The path a reader will not get back: it holds a NUL, or its only admissible
  split leaves an empty prefix, so that the leading slash is dropped. */
  predicate Mangled(path: seq<byte>) {
    0 in path || (|path| == NAME_MAX + 1 && path[0] == SLASH && SLASH !in path[1..NAME_MAX])
  }

  lemma BeforePadded(text: seq<byte>, length: nat)
    requires |text| <= length
    ensures 0 !in text ==> Before(Padded(text, length), false) == text
    ensures |Before(Padded(text, length), false)| <= |text|
    ensures 0 in text ==> |Before(Padded(text, length), false)| < |text|
  {
    BeforeStops(text, Zeros(length - |text|), false);
    if 0 !in text { BeforeWhole(text, false); }
    assert |Before(text, false)| == |text| ==> Before(text, false) == text;
  }

  lemma RejoinedPadded(name: seq<byte>, prefix: seq<byte>)
    requires |name| <= NAME_MAX && |prefix| <= PREFIX_MAX
    ensures var r := Rejoined(Padded(name, NAME_MAX), Padded(prefix, PREFIX_MAX));
            && (0 !in name && 0 !in prefix ==> r == if prefix == [] then name else prefix + [SLASH] + name)
            && (0 in name || 0 in prefix ==> |r| < |name| + (if prefix == [] then 0 else |prefix| + 1))
  {
    BeforePadded(name, NAME_MAX);
    BeforePadded(prefix, PREFIX_MAX);
  }

  /** Every accepted path comes back unchanged, except exactly the mangled ones. */
  lemma PathRoundTrip(path: seq<byte>)
    requires Split(path).Some?
    ensures Seen(path) == path <==> !Mangled(path)
  {
    var parts := Split(path).value;
    RejoinedPadded(parts.name, parts.prefix);
    if |path| > NAME_MAX { SplitPathRoundTrip(path, BestSplit(path, |path|), Seen(path)); }
  }

  lemma SplitPathRoundTrip(path: seq<byte>, best: nat, seen: seq<byte>)
    requires |path| > NAME_MAX && best == BestSplit(path, |path|)
    requires var name, prefix := path[best + 1..], path[..best];
             && (0 !in name && 0 !in prefix ==> seen == if prefix == [] then name else prefix + [SLASH] + name)
             && (0 in name || 0 in prefix ==> |seen| < |name| + (if prefix == [] then 0 else |prefix| + 1))
    ensures seen == path <==> !Mangled(path)
  {
    assert path == path[..best] + [SLASH] + path[best + 1..];
    assert 0 in path <==> 0 in path[..best] || 0 in path[best + 1..];
    if best == 0 { LoneSlash(path); } else { NotLone(path, best); }
  }

  lemma LoneSlash(path: seq<byte>)
    requires |path| > NAME_MAX && BestSplit(path, |path|) == 0
    ensures |path| == NAME_MAX + 1 && path[0] == SLASH && SLASH !in path[1..NAME_MAX]
  {
    forall i | 1 <= i < NAME_MAX ensures path[i] != SLASH { assert !SplitsAt(path, i); }
  }

  lemma NotLone(path: seq<byte>, best: nat)
    requires |path| > NAME_MAX && BestSplit(path, |path|) == best > 0
    ensures !(|path| == NAME_MAX + 1 && path[0] == SLASH && SLASH !in path[1..NAME_MAX])
  {
    if |path| == NAME_MAX + 1 { assert path[1..NAME_MAX][best - 1] == SLASH; }
  }
}
