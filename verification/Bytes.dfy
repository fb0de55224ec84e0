/** Bytes, fixed-width numerals and splicing, shared by the binary formats. */
module Bytes {

  type byte = x: nat | x < 256

  /** The first number that 32 bits do not hold. */
  const WORD: nat := 0x1_0000_0000

  function Zeros(n: nat): (r: seq<byte>)
    ensures |r| == n
  {
    seq(n, _ => 0)
  }

  function Power(base: nat, n: nat): nat { if n == 0 then 1 else base * Power(base, n - 1) }

  /** The `width` low digits of `v`, most significant first. */
  function Digits(base: nat, width: nat, v: nat): (r: seq<nat>)
    requires base > 0
    ensures |r| == width && forall i :: 0 <= i < width ==> r[i] < base
  {
    if width == 0 then [] else Digits(base, width - 1, v / base) + [v % base]
  }

  function Value(base: nat, ds: seq<nat>): nat {
    if ds == [] then 0 else Value(base, ds[..|ds| - 1]) * base + ds[|ds| - 1]
  }

  lemma PowerPositive(base: nat, n: nat)
    requires base > 0
    ensures Power(base, n) > 0
  {
  }

  lemma PositiveFactor(b: nat, d: int)
    requires b * d > 0
    ensures d > 0
  {
  }

  lemma DivBelow(v: nat, base: nat, p: nat)
    requires base > 0 && v < base * p
    ensures v / base < p
  {
    assert v == base * (v / base) + v % base;
    assert base * (p - v / base) == base * p - base * (v / base);
    PositiveFactor(base, p - v / base);
  }

  lemma StepBelow(high: nat, p: nat, base: nat, d: nat)
    requires high < p && d < base
    ensures high * base + d < base * p
  {
    assert (high + 1) * base <= p * base;
  }

  lemma Division(v: nat, base: nat)
    requires base > 0
    ensures (v / base) * base + v % base == v
  {
  }

  /** Reading the digits back gives the number exactly when it fits. */
  lemma {:induction false} ValueOfDigits(base: nat, width: nat, v: nat)
    requires base > 1
    ensures Value(base, Digits(base, width, v)) < Power(base, width)
    ensures v < Power(base, width) <==> Value(base, Digits(base, width, v)) == v
    decreases width
  {
    if width > 0 {
      var q := v / base;
      var ds := Digits(base, width, v);
      assert ds[..|ds| - 1] == Digits(base, width - 1, q);
      ValueOfDigits(base, width - 1, q);
      var high := Value(base, Digits(base, width - 1, q));
      StepBelow(high, Power(base, width - 1), base, v % base);
      if v < Power(base, width) {
        DivBelow(v, base, Power(base, width - 1));
        Division(v, base);
      }
    }
  }

  lemma Recompose(v: nat, base: nat, last: nat)
    requires last < base
    ensures (v * base + last) / base == v && (v * base + last) % base == last
  {
    var n := v * base + last;
    var d := n / base - v;
    assert n == base * (n / base) + n % base;
    assert base * d == base * (n / base) - base * v;
    assert base * (d + 1) == base * d + base && base * (1 - d) == base - base * d;
    PositiveFactor(base, d + 1);
    PositiveFactor(base, 1 - d);
  }

  /** `s` with the bytes from `at` on replaced by `bytes`. */
  function Splice(s: seq<byte>, at: nat, bytes: seq<byte>): (r: seq<byte>)
    requires at + |bytes| <= |s|
    ensures |r| == |s|
  {
    s[..at] + bytes + s[at + |bytes|..]
  }

  lemma SpliceSlices(s: seq<byte>, at: nat, bytes: seq<byte>, lo: nat, hi: nat)
    requires at + |bytes| <= |s| && lo <= hi <= |s|
    ensures Splice(s, at, bytes)[at..at + |bytes|] == bytes
    ensures hi <= at || lo >= at + |bytes| ==> Splice(s, at, bytes)[lo..hi] == s[lo..hi]
  {
    var r := Splice(s, at, bytes);
    assert forall i :: 0 <= i < |r| ==> r[i] == if at <= i < at + |bytes| then bytes[i - at] else s[i];
  }
}
