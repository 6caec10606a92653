/** Powers of ten. */
module Powers {

  function Pow10(n: nat): (p: nat)
    ensures p >= 1
  {
    if n == 0 then 1 else 10 * Pow10(n - 1)
  }

  lemma {:induction false} Pow10Add(a: nat, b: nat)
    ensures Pow10(a + b) == Pow10(a) * Pow10(b)
  {
    if a == 0 {
    } else {
      Pow10Add(a - 1, b);
    }
  }

  /** The powers of ten up to the nineteenth are the ones a `u64` holds. */
  lemma PowersInU64()
    ensures Pow10(0) == 1 && Pow10(1) == 10
    ensures Pow10(19) == 10_000_000_000_000_000_000 < 0x1_0000_0000_0000_0000 <= Pow10(20)
  {
    Pow10Add(10, 9);
    Pow10Add(5, 5);
    Pow10Add(5, 4);
    assert Pow10(5) == 100_000 && Pow10(4) == 10_000;
  }
}
