/** The 64-bit encoding of one verification-table slot.

A slot is a single machine word that means one of four things. `Word` is that
meaning; the functions below are the bit-level encoding and the tests the table
applies to raw words, with masks and shifts written as arithmetic by powers of
two. The lemmas show that encoding and decoding are inverse on all 64-bit words,
so a compare-and-swap on raw words is a compare-and-swap on meanings, which is
how the protocol modules use it. */
module SlotWords {
  import opened Wrappers

  /** The meaning of a slot: never written, a record version, a lock naming a
  tracker (with its install tag), or a settled-empty generation. */
  datatype Word = Empty | Version(v: nat) | Lock(addr: nat, tag: nat) | Settled(gen: nat)

  // Bit 63 tags every non-version, bit 62 tells settled-empty from lock; a lock
  // has a 14-bit tag in bits 61..48 and a 48-bit address below it.
  const TWO_14: nat := 0x4000
  const TWO_48: nat := 0x1_0000_0000_0000
  const TWO_62: nat := 0x4000_0000_0000_0000
  const TWO_63: nat := 0x8000_0000_0000_0000
  const TWO_64: nat := 0x1_0000_0000_0000_0000

  predicate TagBit(b: nat) { (b / TWO_63) % 2 == 1 }
  predicate SettledBit(b: nat) { (b / TWO_62) % 2 == 1 }
  predicate IsVersion(b: nat) { b != 0 && !TagBit(b) }
  predicate IsLock(b: nat) { TagBit(b) && !SettledBit(b) }
  predicate IsSettled(b: nat) { TagBit(b) && SettledBit(b) }

  function EncodeLock(addr: nat, tag: nat): nat { TWO_63 + (tag % TWO_14) * TWO_48 + addr % TWO_48 }

  function EncodeSettled(gen: nat): nat { TWO_63 + TWO_62 + gen % TWO_62 }

  function DecodeLock(b: nat): nat { b % TWO_48 }

  function TagFromLock(b: nat): nat { (b / TWO_48) % TWO_14 }

  /** The raw word a meaning is stored as. */
  function Encode(w: Word): nat {
    match w
    case Empty => 0
    case Version(v) => v
    case Lock(addr, tag) => EncodeLock(addr, tag)
    case Settled(gen) => EncodeSettled(gen)
  }

  /** The meaning read back from a raw word with the table's own tests. */
  function Decode(b: nat): Word {
    if IsLock(b) then Lock(DecodeLock(b), TagFromLock(b))
    else if IsSettled(b) then Settled(b % TWO_62)
    else if IsVersion(b) then Version(b)
    else Empty
  }

  /** The meanings a 64-bit word has room for: versions with bit 63 clear, 48-bit
  addresses, 14-bit tags and 62-bit generations. */
  predicate Fits(w: Word) {
    match w
    case Empty => true
    case Version(v) => 0 < v < TWO_63
    case Lock(addr, tag) => addr < TWO_48 && tag < TWO_14
    case Settled(gen) => gen < TWO_62
  }

  lemma DecodeEncode(w: Word)
    requires Fits(w)
    ensures Decode(Encode(w)) == w
  {
    match w
    case Lock(addr, tag) =>
      var b := EncodeLock(addr, tag);
      assert b / TWO_63 == 1 && b / TWO_62 == 2 && b / TWO_48 == 0x8000 + tag;
    case Settled(gen) =>
      var b := EncodeSettled(gen);
      assert b / TWO_63 == 1 && b / TWO_62 == 3;
    case _ =>
  }

  lemma EncodeDecode(b: nat)
    requires b < TWO_64
    ensures Fits(Decode(b)) && Encode(Decode(b)) == b
  {
    if IsLock(b) {
      assert b / TWO_62 == 2;
      assert b / TWO_48 == 0x8000 + TagFromLock(b);
    } else if IsSettled(b) {
      assert b / TWO_62 == 3;
    }
  }

  /** Comparing raw words is comparing meanings. */
  lemma SameWordSameMeaning(w1: Word, w2: Word)
    requires Fits(w1) && Fits(w2)
    ensures Encode(w1) == Encode(w2) <==> w1 == w2
  {
    DecodeEncode(w1);
    DecodeEncode(w2);
  }

  /** `verifyVersion`: the guard refuses zero and lock patterns only. */
  predicate VerifyVersion(slot: nat, expected: nat) {
    expected != 0 && !IsLock(expected) && slot == expected
  }

  /** A verification can succeed for a caller-supplied pattern that is no
  version, because a settled-empty pattern gets through the guard. It confirms
  only real versions, whatever the slot holds, exactly when the expected
  pattern is not settled-empty. */
  lemma VerifyConfirmsVersionsOnly(expected: nat)
    ensures (forall slot :: VerifyVersion(slot, expected) ==> Decode(slot).Version?) <==> !IsSettled(expected)
  {
    if IsSettled(expected) {
      assert VerifyVersion(expected, expected);
    }
  }

  /** `parseExpectedVersion`: the bits of the number a caller passes, if they may be
  expected; the same two patterns are refused. */
  function ParseExpected(bits: nat): Option<nat> {
    if IsLock(bits) || bits == 0 then None else Some(bits)
  }

  /** The fast path of a read: the slot is compared with the caller's number. */
  predicate AnswersFresh(slot: nat, bits: nat) { ParseExpected(bits) == Some(slot) }

  /** The fast path likewise answers only for real versions, whatever the slot holds,
  exactly when the caller's number is not settled-empty. */
  lemma FastPathConfirmsVersionsOnly(bits: nat)
    ensures (forall slot :: AnswersFresh(slot, bits) ==> Decode(slot).Version?) <==> !IsSettled(bits)
  {
    if IsSettled(bits) { assert AnswersFresh(bits, bits); }
  }

  /** A version verifies exactly against a slot that holds that version, */
  lemma VerifyIsExact(slot: nat, v: nat)
    requires slot < TWO_64 && 0 < v < TWO_63
    ensures VerifyVersion(slot, Encode(Version(v))) <==> Decode(slot) == Version(v)
  {
    EncodeDecode(slot);
  }

  /** and so it does on the fast path of a read. */
  lemma FastPathIsExact(slot: nat, v: nat)
    requires slot < TWO_64 && 0 < v < TWO_63
    ensures AnswersFresh(slot, Encode(Version(v))) <==> Decode(slot) == Version(v)
  {
    EncodeDecode(slot);
  }

  /** Where the bits lie: a version is stored as it is, a lock has bit 63, its tag from
  bit 48 on and its address below, a settled word has bits 63 and 62. */
  lemma WordLiterals(w: Word)
    requires Fits(w)
    ensures Encode(w) == match w
                         case Empty => 0
                         case Version(v) => v
                         case Lock(addr, tag) => 0x8000_0000_0000_0000 + tag * 0x1_0000_0000_0000 + addr
                         case Settled(gen) => 0xc000_0000_0000_0000 + gen
  {
  }
}
