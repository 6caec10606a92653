/** Retry policy and jitter of the client SDK: `retry.rs`, `retry_jitter` in `lib.rs` and
    `reconnect_backoff` in `ws.rs`. Durations are naturals counting nanoseconds; `u64` values that
    are only shifted and xor-ed are bit vectors, the others are naturals with the width written out. */
module Retry {
  import opened Naturals
  import opened XorShift

  const TWO_POW_64: nat := 0x1_0000_0000_0000_0000
  const NANOS_PER_MILLI: nat := 1_000_000

  datatype RetryPolicy = RetryPolicy(maxAttempts: nat, baseDelay: nat, maxDelay: nat)

  function SaturatingMul(a: nat, b: nat): nat { Min(a * b, TWO_POW_64 - 1) }

  /** `Duration::as_millis() as u64`: whole milliseconds, then the cast keeps the low 64 bits. */
  function MillisU64(duration: nat): nat { duration / NANOS_PER_MILLI % TWO_POW_64 }

  predicate IsRetriableStatus(status: nat) { status in {429, 500, 502, 503, 504} }

  // ---------------------------------------------------------------------------------------------
  // Exponential cap
  // ---------------------------------------------------------------------------------------------

  /** The cap as the code computes it: exponent at most 10, saturating product, `u64` casts. */
  function CapMillis(policy: RetryPolicy, attempt: nat): nat {
    Min(SaturatingMul(MillisU64(policy.baseDelay), Pow2(Min(attempt, 10))), MillisU64(policy.maxDelay))
  }

  /** The documented cap over unbounded naturals. */
  function ExactCapMillis(policy: RetryPolicy, attempt: nat): nat {
    Min(policy.baseDelay / NANOS_PER_MILLI * Pow2(Min(attempt, 10)), policy.maxDelay / NANOS_PER_MILLI)
  }

  lemma {:induction false} Pow2Monotone(i: nat, j: nat)
    requires i <= j
    ensures Pow2(i) <= Pow2(j)
    decreases j
  {
    if i == j {
    } else {
      Pow2Monotone(i, j - 1);
    }
  }

  lemma MulMonotone(k: nat, a: nat, b: nat)
    requires a <= b
    ensures k * a <= k * b
  {
  }

  lemma CapMonotone(policy: RetryPolicy, i: nat, j: nat)
    requires i <= j
    ensures CapMillis(policy, i) <= CapMillis(policy, j) <= policy.maxDelay / NANOS_PER_MILLI
  {
    Pow2Monotone(Min(i, 10), Min(j, 10));
    MulMonotone(MillisU64(policy.baseDelay), Pow2(Min(i, 10)), Pow2(Min(j, 10)));
  }

  /** The cap of a base delay and a limit that the casts turned into `low` and `top`. */
  lemma CapArithmetic(base: nat, low: nat, limit: nat, top: nat, scale: nat)
    requires scale >= 1 && low < TWO_POW_64 && top < TWO_POW_64
    requires if base < TWO_POW_64 then low == base else low < base
    requires if limit < TWO_POW_64 then top == limit else top < limit
    ensures Min(SaturatingMul(low, scale), top) == Min(base * scale, limit) <==>
      if limit < TWO_POW_64 then base < TWO_POW_64 || low * scale >= limit else base * scale <= top
  {
    MulMonotone(base, 1, scale);
    MulMonotone(scale, low, base);
  }

  /** Exactly when the saturating, truncating computation meets the documented formula. The first
      disjunct covers every pair of durations below 2^64 milliseconds. */
  lemma CapIsExactIff(policy: RetryPolicy, attempt: nat)
    ensures
      var base := policy.baseDelay / NANOS_PER_MILLI;
      var limit := policy.maxDelay / NANOS_PER_MILLI;
      var scale := Pow2(Min(attempt, 10));
      CapMillis(policy, attempt) == ExactCapMillis(policy, attempt) <==>
        if limit < TWO_POW_64 then base < TWO_POW_64 || base % TWO_POW_64 * scale >= limit
        else base * scale <= limit % TWO_POW_64
  {
    hide Pow2;
    var base, limit := policy.baseDelay / NANOS_PER_MILLI, policy.maxDelay / NANOS_PER_MILLI;
    CapArithmetic(base, base % TWO_POW_64, limit, limit % TWO_POW_64, Pow2(Min(attempt, 10)));
  }

  const FACTORS: seq<nat> := [1, 2, 4, 8, 16, 32, 64, 128, 256, 512, 1024]

  lemma Factors(k: nat)
    requires k <= 10
    ensures Pow2(k) == FACTORS[k]
  {
    assert Pow2(3) == 8 && Pow2(6) == 64 && Pow2(9) == 512;
  }

  /** The cap in numbers: the base delay in milliseconds, doubled with every attempt up to the tenth and saturating
      at 2^64 - 1, but no more than the longest delay; both casts keep 64 bits. */
  lemma CapInNumbers(policy: RetryPolicy, attempt: nat, base: nat, limit: nat)
    requires base == policy.baseDelay / 1_000_000 % 0x1_0000_0000_0000_0000
    requires limit == policy.maxDelay / 1_000_000 % 0x1_0000_0000_0000_0000
    ensures
      var doubled := base * FACTORS[if attempt < 10 then attempt else 10];
      var cap := CapMillis(policy, attempt);
      && cap <= doubled && cap <= limit && cap <= 0xFFFF_FFFF_FFFF_FFFF
      && (cap == doubled || cap == limit || cap == 0xFFFF_FFFF_FFFF_FFFF)
  {
    Factors(if attempt < 10 then attempt else 10);
  }

  /** The retriable ones are five status codes. */
  lemma RetriableStatuses(status: nat)
    ensures IsRetriableStatus(status) <==>
      status == 429 || status == 500 || status == 502 || status == 503 || status == 504
  {
  }

  /** A 2^64 millisecond base delay is truncated to zero, so its cap is zero instead of `maxDelay`. */
  lemma CapTruncationCounterexample()
    ensures
      var policy := RetryPolicy(3, TWO_POW_64 * NANOS_PER_MILLI, 8_000 * NANOS_PER_MILLI);
      CapMillis(policy, 0) == 0 && ExactCapMillis(policy, 0) == 8_000
  {
  }

  // ---------------------------------------------------------------------------------------------
  // Xor-shift
  // ---------------------------------------------------------------------------------------------

  function Seeded(x: bv64, substitute: bv64): bv64 { if x == 0 then substitute else x }

  const HTTP_SUBSTITUTE: bv64 := 0xDEAD_BEEF_CAFE_BABE
  const WS_SUBSTITUTE: bv64 := 0xDEAD_BEEF

  /** What `xorshift64` returns. */
  function XorShift64(x: bv64): bv64 { Scramble(Seeded(x, HTTP_SUBSTITUTE)) }

  /** `xorshift64`: the word is updated in place, step by step. */
  method ComputeXorShift64(seed: bv64) returns (x: bv64)
    ensures x == XorShift64(seed) && x != 0
  {
    x := seed;
    if x == 0 {
      x := 0xDEAD_BEEF_CAFE_BABE;
    }
    ghost var start := x;
    x := Left13(x);
    x := Right7(x);
    x := Left17(x);
    ScrambleNonzero(start);
  }

  lemma XorShiftInjective(x: bv64, y: bv64)
    requires x != 0 && y != 0 && XorShift64(x) == XorShift64(y)
    ensures x == y
  {
    ScrambleInjective(x, y);
  }

  /** `u64::from(attempt) ^ url_word`. */
  function Seed(attempt: nat, urlWord: bv64): bv64
    requires attempt < 0x1_0000_0000
  {
    Xor(Word(attempt), urlWord)
  }

  function Xor(v: bv64, w: bv64): bv64 { v ^ w }

  lemma XorCancels(v: bv64, w: bv64, urlWord: bv64)
    requires Xor(v, urlWord) == Xor(w, urlWord)
    ensures v == w
  {
  }

  lemma ZeroSeedIsFar(v: bv64, w: bv64, urlWord: bv64)
    requires v & 0xFFFF_FFFF == v && w & 0xFFFF_FFFF == w && Xor(v, urlWord) == 0
    ensures Xor(w, urlWord) != HTTP_SUBSTITUTE
  {
  }

  lemma SeedsDiffer(v: bv64, w: bv64, urlWord: bv64)
    requires v & 0xFFFF_FFFF == v && w & 0xFFFF_FFFF == w && v != w
    ensures Seeded(Xor(v, urlWord), HTTP_SUBSTITUTE) != Seeded(Xor(w, urlWord), HTTP_SUBSTITUTE)
  {
    hide Xor;
    if Xor(v, urlWord) == Xor(w, urlWord) {
      XorCancels(v, w, urlWord);
    }
    if Xor(v, urlWord) == 0 {
      ZeroSeedIsFar(v, w, urlWord);
    }
    if Xor(w, urlWord) == 0 {
      ZeroSeedIsFar(w, v, urlWord);
    }
  }

  /** For one URL (one `urlWord`) distinct attempt numbers draw distinct jitter words, also when one
      of the two seeds is zero and gets substituted. */
  lemma HttpDrawsDistinct(urlWord: bv64, i: nat, j: nat)
    requires i < 0x1_0000_0000 && j < 0x1_0000_0000 && i != j
    ensures XorShift64(Seed(i, urlWord)) != XorShift64(Seed(j, urlWord))
  {
    hide Word, Scramble, Seeded, Xor;
    if Word(i) == Word(j) {
      WordInjective(i, j);
    }
    WordIsU32(i);
    WordIsU32(j);
    SeedsDiffer(Word(i), Word(j), urlWord);
    if XorShift64(Seed(i, urlWord)) == XorShift64(Seed(j, urlWord)) {
      ScrambleInjective(Seeded(Seed(i, urlWord), HTTP_SUBSTITUTE), Seeded(Seed(j, urlWord), HTTP_SUBSTITUTE));
    }
  }

  // ---------------------------------------------------------------------------------------------
  // Delays
  // ---------------------------------------------------------------------------------------------

  /** `RetryPolicy::backoff_delay`, in milliseconds. */
  function BackoffMillis(policy: RetryPolicy, attempt: nat, seed: bv64): nat {
    (XorShift64(seed) as nat) % Max(CapMillis(policy, attempt), 1)
  }

  lemma BackoffWithinBounds(policy: RetryPolicy, attempt: nat, seed: bv64)
    ensures BackoffMillis(policy, attempt, seed) < Max(1, CapMillis(policy, attempt))
    ensures BackoffMillis(policy, attempt, seed) * NANOS_PER_MILLI <= policy.maxDelay
  {
    CapMonotone(policy, attempt, attempt);
  }

  /** The delay is what is left of the drawn word when multiples of the cap, at least one, are taken away; the seed
      zero draws like 0xDEADBEEFCAFEBABE, and like no other. */
  lemma BackoffMeaning(policy: RetryPolicy, attempt: nat, seed: bv64)
    ensures
      var cap := if CapMillis(policy, attempt) == 0 then 1 else CapMillis(policy, attempt);
      var start := if seed == 0 then 0xDEAD_BEEF_CAFE_BABE else seed;
      && BackoffMillis(policy, attempt, seed) < cap
      && exists q: nat :: Scramble(start) as nat == q * cap + BackoffMillis(policy, attempt, seed)
  {
    hide Scramble;
    var cap := if CapMillis(policy, attempt) == 0 then 1 else CapMillis(policy, attempt);
    Remainder(XorShift64(seed) as nat, cap);
  }

  lemma Remainder(n: nat, d: nat)
    requires d > 0
    ensures exists q: nat :: n == q * d + n % d
  {
    assert n == n / d * d + n % d;
  }

  /** The word `retry_jitter` reduces modulo its cap. */
  function WsDraw(seed: bv64): bv64 { Scramble(Seeded(seed, WS_SUBSTITUTE)) }

  function Jitter(seed: bv64, cap: nat): nat { if cap == 0 then 0 else (WsDraw(seed) as nat) % cap }

  /** `retry_jitter`: early return on a zero cap, otherwise in-place xor-shifts and a modulo. */
  method RetryJitter(seed: bv64, cap: nat) returns (delay: nat)
    ensures delay == Jitter(seed, cap) && delay < Max(1, cap)
  {
    if cap == 0 {
      return 0;
    }
    var x := seed;
    if x == 0 {
      x := 0xDEAD_BEEF;
    }
    ghost var start := x;
    x := Left13(x);
    x := Right7(x);
    x := Left17(x);
    delay := (x as nat) % cap;
  }

  /** The two attempts of which one is substituted by the seed of the other. */
  predicate SubstituteClash(i: nat, j: nat) {
    (i == 0 && j == 0xDEAD_BEEF) || (i == 0xDEAD_BEEF && j == 0)
  }

  lemma SeededIs(x: bv64)
    ensures Seeded(x, WS_SUBSTITUTE) == if x == 0 then 0xDEAD_BEEF else x
  {
  }

  /** The reconnect jitter is not collision free, unlike the one above: the zero seed of attempt 0 is
      replaced by the seed of another attempt. That pair is the only collision. */
  lemma WsDrawsCollideIff(i: nat, j: nat)
    requires i < 0x1_0000_0000 && j < 0x1_0000_0000 && i != j
    ensures WsDraw(Word(i)) == WsDraw(Word(j)) <==> SubstituteClash(i, j)
  {
    hide Word, Scramble, Seeded;
    WordZero();
    WordOfDeadBeef();
    SeededIs(Word(i));
    SeededIs(Word(j));
    if WsDraw(Word(i)) == WsDraw(Word(j)) {
      ScrambleInjective(Seeded(Word(i), WS_SUBSTITUTE), Seeded(Word(j), WS_SUBSTITUTE));
      if Word(i) == Word(j) {
        WordInjective(i, j);
      } else if Word(i) == 0 {
        WordInjective(i, 0);
        WordInjective(j, 0xDEAD_BEEF);
      } else {
        WordInjective(j, 0);
        WordInjective(i, 0xDEAD_BEEF);
      }
    }
  }

  /** So is the jitter of the WebSocket client, of no delay for no cap, with 0xDEADBEEF for the seed zero. */
  lemma JitterMeaning(seed: bv64, cap: nat)
    ensures cap == 0 ==> Jitter(seed, cap) == 0
    ensures cap > 0 ==>
      && Jitter(seed, cap) < cap
      && exists q: nat :: Scramble(if seed == 0 then 0xDEAD_BEEF else seed) as nat == q * cap + Jitter(seed, cap)
  {
    hide Scramble;
    if cap > 0 {
      Remainder(WsDraw(seed) as nat, cap);
    }
  }

  function ReconnectCapMillis(attempt: nat): nat { Min(SaturatingMul(500, Pow2(Min(attempt, 6))), 30_000) }

  /** `reconnect_backoff`, in milliseconds. */
  function ReconnectMillis(attempt: nat): nat
    requires attempt < 0x1_0000_0000
  {
    Jitter(Word(attempt), ReconnectCapMillis(attempt))
  }

  /** `reconnect_backoff`: exponent at most 6, saturating product, jitter seeded by the attempt. */
  method ReconnectBackoff(attempt: nat) returns (delay: nat)
    requires attempt < 0x1_0000_0000
    ensures delay == ReconnectMillis(attempt)
  {
    delay := RetryJitter(Word(attempt), Min(SaturatingMul(500, Pow2(Min(attempt, 6))), 30_000));
  }

  /** The reconnect cap is `min(30 s, 500 ms * 2^min(n, 6))` without saturation, never falls, reaches
      30 s exactly from the sixth attempt on, and every delay stays below it. */
  lemma ReconnectBounds(i: nat, j: nat)
    requires i <= j < 0x1_0000_0000
    ensures ReconnectCapMillis(i) == Min(500 * Pow2(Min(i, 6)), 30_000)
    ensures 500 <= ReconnectCapMillis(i) <= ReconnectCapMillis(j) <= 30_000
    ensures ReconnectCapMillis(i) == 30_000 <==> i >= 6
    ensures i < 6 ==> ReconnectCapMillis(i) == 500 * FACTORS[i]
    ensures ReconnectMillis(i) == Jitter(Word(i), ReconnectCapMillis(i))
    ensures ReconnectMillis(i) < ReconnectCapMillis(i)
  {
    Pow2Monotone(Min(i, 6), Min(j, 6));
    Pow2Monotone(Min(i, 6), 6);
    Factors(Min(i, 6));
    if i < 6 {
      Pow2Monotone(i, 5);
    }
    assert Pow2(6) == 64 && Pow2(5) == 32 by { assert Pow2(3) == 8; }
  }
}
