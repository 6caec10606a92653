/** Bytes as bit vectors and as numbers. */
module Octets {

  /** The byte with a given value, by counting. */
  function ByteOf(n: nat): bv8
    requires n < 256
  {
    if n == 0 then 0 else ByteOf(n - 1) + 1
  }

  lemma Successor(x: bv8)
    requires x as nat < 255
    ensures (x + 1) as nat == x as nat + 1
  {
    assert x < 255;
  }

  lemma {:induction false} ByteValue(n: nat)
    requires n < 256
    ensures ByteOf(n) as nat == n
  {
    if n == 0 {
    } else {
      ByteValue(n - 1);
      Successor(ByteOf(n - 1));
    }
  }

  lemma SameValueSameByte(x: bv8, y: bv8)
    requires x as nat == y as nat
    ensures x == y
  {
  }

  function Pack(hi: bv8, lo: bv8): bv8 { (hi << 4) | lo }

  function High(b: bv8): bv8 { b >> 4 }

  function Low(b: bv8): bv8 { b & 0xF }

  lemma PackIsPositional(hi: bv8, lo: bv8)
    requires hi < 16 && lo < 16
    ensures Pack(hi, lo) as nat == 16 * (hi as nat) + (lo as nat)
  {
  }

  lemma PackSplit(b: bv8)
    ensures High(b) < 16 && Low(b) < 16 && Pack(High(b), Low(b)) == b
  {
  }

  lemma SplitPack(hi: bv8, lo: bv8)
    requires hi < 16 && lo < 16
    ensures High(Pack(hi, lo)) == hi && Low(Pack(hi, lo)) == lo
  {
  }
}
