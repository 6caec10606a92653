/** The single steps of the xor-shift generators in `retry.rs` and `lib.rs`, each injective. The
    shifts are functions, so that a proof that does not need their bits never looks at them. */
module XorShift {

  function Shl13(x: bv64): bv64 { x << 13 }

  function Shr7(x: bv64): bv64 { x >> 7 }

  function Shl17(x: bv64): bv64 { x << 17 }

  function Left13(x: bv64): bv64 { x ^ Shl13(x) }

  function Right7(x: bv64): bv64 { x ^ Shr7(x) }

  function Left17(x: bv64): bv64 { x ^ Shl17(x) }

  /** The three steps in order. */
  function Scramble(x: bv64): bv64 { Left17(Right7(Left13(x))) }

  lemma XorZero(x: bv64, y: bv64)
    requires x ^ y == 0
    ensures x == y
  {
  }

  lemma XorRegroup(x: bv64, y: bv64, a: bv64, b: bv64, sum: bv64)
    requires x ^ a == y ^ b && sum == a ^ b
    ensures sum == x ^ y
  {
  }

  // Equal images make the difference of the preimages a fixed point of the shift, and repeating a
  // shift by a nonzero amount empties a 64-bit word.

  lemma Shl13Linear(x: bv64, y: bv64)
    ensures Shl13(x ^ y) == Shl13(x) ^ Shl13(y)
  {
  }

  lemma Shl13FixedPoint(d: bv64)
    requires d == Shl13(d)
    ensures d == 0
  {
    assert d == d << 26;
    assert d == d << 52;
    assert d << 52 << 13 == 0;
  }

  lemma Left13Difference(x: bv64, y: bv64)
    requires x ^ Shl13(x) == y ^ Shl13(y)
    ensures x ^ y == Shl13(x ^ y)
  {
    Shl13Linear(x, y);
    XorRegroup(x, y, Shl13(x), Shl13(y), Shl13(x ^ y));
  }

  lemma Left13Injective(x: bv64, y: bv64)
    requires Left13(x) == Left13(y)
    ensures x == y
  {
    Left13Difference(x, y);
    Shl13FixedPoint(x ^ y);
    XorZero(x, y);
  }

  lemma Shr7Linear(x: bv64, y: bv64)
    ensures Shr7(x ^ y) == Shr7(x) ^ Shr7(y)
  {
  }

  lemma Shr7FixedPoint(d: bv64)
    requires d == Shr7(d)
    ensures d == 0
  {
    assert d == d >> 14;
    assert d == d >> 28;
    assert d == d >> 56;
    assert d >> 56 >> 14 == 0;
  }

  lemma Right7Difference(x: bv64, y: bv64)
    requires x ^ Shr7(x) == y ^ Shr7(y)
    ensures x ^ y == Shr7(x ^ y)
  {
    Shr7Linear(x, y);
    XorRegroup(x, y, Shr7(x), Shr7(y), Shr7(x ^ y));
  }

  lemma Right7Injective(x: bv64, y: bv64)
    requires Right7(x) == Right7(y)
    ensures x == y
  {
    Right7Difference(x, y);
    Shr7FixedPoint(x ^ y);
    XorZero(x, y);
  }

  lemma Shl17Linear(x: bv64, y: bv64)
    ensures Shl17(x ^ y) == Shl17(x) ^ Shl17(y)
  {
  }

  lemma Shl17FixedPoint(d: bv64)
    requires d == Shl17(d)
    ensures d == 0
  {
    assert d == d << 34;
    assert d == d << 51;
    assert d << 51 << 17 == 0;
  }

  lemma Left17Difference(x: bv64, y: bv64)
    requires x ^ Shl17(x) == y ^ Shl17(y)
    ensures x ^ y == Shl17(x ^ y)
  {
    Shl17Linear(x, y);
    XorRegroup(x, y, Shl17(x), Shl17(y), Shl17(x ^ y));
  }

  lemma Left17Injective(x: bv64, y: bv64)
    requires Left17(x) == Left17(y)
    ensures x == y
  {
    Left17Difference(x, y);
    Shl17FixedPoint(x ^ y);
    XorZero(x, y);
  }

  lemma ScrambleInjective(x: bv64, y: bv64)
    requires Scramble(x) == Scramble(y)
    ensures x == y
  {
    Left17Injective(Right7(Left13(x)), Right7(Left13(y)));
    Right7Injective(Left13(x), Left13(y));
    Left13Injective(x, y);
  }

  /** Where the steps take three words: enough to tell the shifts by 13, 7 and 17 from any others. */
  lemma KnownWords()
    ensures Scramble(1) == 0x4082_2041
    ensures Scramble(0x8000_0000_0000_0000) == 0x8100_0000_0000_0000
    ensures Scramble(0xDEAD_BEEF) == 0x37C5_9CA7_BF06_BE52
  {
  }

  lemma ScrambleOfZero()
    ensures Scramble(0) == 0
  {
  }

  lemma ScrambleNonzero(x: bv64)
    requires x != 0
    ensures Scramble(x) != 0
  {
    if Scramble(x) == 0 {
      ScrambleOfZero();
      ScrambleInjective(x, 0);
    }
  }

  // ---------------------------------------------------------------------------------------------
  // Attempt numbers as words
  // ---------------------------------------------------------------------------------------------

  function Bit(n: nat): bv64 { if n % 2 == 1 then 1 else 0 }

  function Push(w: bv64, b: bv64): bv64 { (w << 1) | b }

  /** `u64::from(n)`, by binary digits. */
  function Word(n: nat): bv64 { if n == 0 then 0 else Push(Word(n / 2), Bit(n)) }

  function Mask(k: nat): bv64 { if k == 0 then 0 else Push(Mask(k - 1), 1) }

  function Pow2(e: nat): (p: nat)
    ensures p >= 1
  {
    if e == 0 then 1 else 2 * Pow2(e - 1)
  }

  lemma WordStep(n: nat)
    ensures Word(n) == Push(Word(n / 2), Bit(n))
  {
    assert Push(0, 0) == 0;
  }

  lemma PushWithin(w: bv64, m: bv64, b: bv64)
    requires w & m == w && (b == 0 || b == 1)
    ensures Push(w, b) & Push(m, 1) == Push(w, b)
  {
  }

  lemma {:induction false} WordFits(n: nat, k: nat)
    requires n < Pow2(k)
    ensures Word(n) & Mask(k) == Word(n)
  {
    hide Push, Word;
    if k == 0 {
      WordOfZero();
    } else {
      WordStep(n);
      WordFits(n / 2, k - 1);
      PushWithin(Word(n / 2), Mask(k - 1), Bit(n));
    }
  }

  lemma WordOfZero()
    ensures Word(0) & Mask(0) == Word(0)
  {
  }

  lemma Mask16()
    ensures Mask(16) == 0xFFFF && Pow2(16) == 0x1_0000
  {
    assert Mask(2) == 0x3 && Mask(4) == 0xF && Mask(6) == 0x3F && Mask(8) == 0xFF;
    assert Mask(10) == 0x3FF && Mask(12) == 0xFFF && Mask(14) == 0x3FFF;
    assert Pow2(8) == 256;
  }

  lemma Mask32()
    ensures Mask(32) == 0xFFFF_FFFF && Pow2(32) == 0x1_0000_0000
  {
    Mask16();
    assert Mask(18) == 0x3_FFFF && Mask(20) == 0xF_FFFF && Mask(22) == 0x3F_FFFF && Mask(24) == 0xFF_FFFF;
    assert Mask(26) == 0x3FF_FFFF && Mask(28) == 0xFFF_FFFF && Mask(30) == 0x3FFF_FFFF;
    assert Pow2(24) == 0x100_0000;
  }

  lemma WordIsU32(n: nat)
    requires n < 0x1_0000_0000
    ensures Word(n) & 0xFFFF_FFFF == Word(n)
  {
    hide Push, Word;
    Mask32();
    WordFits(n, 32);
  }

  /** The number that the bits of a word denote. */
  function Value(x: bv64): nat {
    if x == 0 then 0
    else
      HalfIsLess(x);
      2 * Value(x >> 1) + if x & 1 == 1 then 1 else 0
  }

  lemma HalfIsLess(x: bv64)
    requires x != 0
    ensures x >> 1 < x
  {
  }

  lemma PushSplits(w: bv64, b: bv64)
    requires w & 0xFFFF_FFFF == w && (b == 0 || b == 1)
    ensures Push(w, b) >> 1 == w && Push(w, b) & 1 == b && (Push(w, b) == 0 <==> w == 0 && b == 0)
  {
  }

  /** The word of a `u32` has its value. */
  lemma {:induction false} WordValue(n: nat)
    requires n < 0x1_0000_0000
    ensures Value(Word(n)) == n
  {
    hide Push, Word;
    if n == 0 {
      ZeroWord();
    } else {
      WordStep(n);
      WordIsU32(n / 2);
      PushSplits(Word(n / 2), Bit(n));
      WordValue(n / 2);
      ZeroWord();
    }
  }

  lemma ZeroWord()
    ensures Word(0) == 0 && Value(0) == 0
  {
  }

  /** Distinct `u32` values are distinct words. */
  lemma WordInjective(m: nat, n: nat)
    requires m < 0x1_0000_0000 && n < 0x1_0000_0000
    requires Word(m) == Word(n)
    ensures m == n
  {
    WordValue(m);
    WordValue(n);
  }

  lemma Halves(n: nat)
    ensures n / 2 / 2 == n / 4 && n / 4 / 2 == n / 8 && n / 8 / 2 == n / 16
  {
  }

  /** Four binary digits at once. */
  lemma WordNibble(high: nat, word: bv64, n: nat)
    requires Word(high) == word && n / 16 == high
    ensures Word(n) == Push(Push(Push(Push(word, Bit(n / 8)), Bit(n / 4)), Bit(n / 2)), Bit(n))
  {
    hide Push, Word;
    Halves(n);
    WordStep(n);
    WordStep(n / 2);
    WordStep(n / 4);
    WordStep(n / 8);
  }

  lemma WordOfDeadBeef()
    ensures Word(0xDEAD_BEEF) == 0xDEAD_BEEF
  {
    hide Word;
    WordZero();
    WordNibble(0, 0, 0xD);
    WordNibble(0xD, 0xD, 0xDE);
    WordNibble(0xDE, 0xDE, 0xDEA);
    WordNibble(0xDEA, 0xDEA, 0xDEAD);
    WordNibble(0xDEAD, 0xDEAD, 0xDEADB);
    WordNibble(0xDEADB, 0xDEADB, 0xDEADBE);
    WordNibble(0xDEADBE, 0xDEADBE, 0xDEADBEE);
    WordNibble(0xDEADBEE, 0xDEADBEE, 0xDEADBEEF);
  }

  lemma WordZero()
    ensures Word(0) == 0
  {
  }
}
