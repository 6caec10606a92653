/** Conversion between raw on-chain units and human-scaled decimals (`amount.rs`). */
module Amount {
  import opened Powers
  import opened Wrappers

  const MANTISSA_LIMIT: nat := 0x1_0000_0000_0000_0000_0000_0000
  const U128_LIMIT: nat := 0x1_0000_0000_0000_0000_0000_0000_0000_0000

  /** The largest power of ten a u64 holds is 10^19. */
  const MAX_POWER: nat := 19

  /** A 96-bit mantissa, a scale of at most 28 digits and a sign flag, which zero may carry too. */
  datatype Decimal = Decimal(negative: bool, mantissa: nat, scale: nat) {
    predicate Valid() { mantissa < MANTISSA_LIMIT && scale <= 28 }

    /** The decimal is `units / 10^decimals`. */
    predicate IsRatio(units: nat, decimals: nat) { mantissa * Pow10(decimals) == units * Pow10(scale) }
  }

  predicate NumericallyEqual(a: Decimal, b: Decimal) {
    a.negative == b.negative && a.mantissa * Pow10(b.scale) == b.mantissa * Pow10(a.scale)
  }

  datatype AmountError = Negative | TooPrecise | OverflowsU128

  /** A call either returns or panics. */
  datatype Outcome<T> = Value(value: T) | Panic

  /** An exact quotient `mantissa / 10^scale` in lowest terms. */
  function Quotient(mantissa: nat, scale: nat): (q: Decimal)
    ensures !q.negative && q.mantissa <= mantissa && q.scale <= scale
    ensures q.IsRatio(mantissa, scale)
    decreases scale
  {
    if scale > 0 && mantissa % 10 == 0 then
      var q := Quotient(mantissa / 10, scale - 1);
      TenfoldRatio(q, mantissa / 10, scale - 1);
      q
    else Decimal(false, mantissa, scale)
  }

  lemma Exchange(x: nat, y: nat, z: nat)
    ensures (x * y) * z == (x * z) * y
  {
  }

  lemma Regroup(x: nat, y: nat, z: nat)
    ensures x * (y * z) == (x * y) * z
  {
  }

  lemma TenfoldRatio(q: Decimal, units: nat, decimals: nat)
    requires q.IsRatio(units, decimals)
    ensures q.IsRatio(10 * units, decimals + 1)
  {
    assert Pow10(decimals + 1) == 10 * Pow10(decimals);
    hide Pow10;
    Exchange(q.mantissa, Pow10(decimals), 10);
    Exchange(units, Pow10(q.scale), 10);
  }

  function RawToDecimal(raw: nat, decimals: nat): Outcome<Decimal> {
    if decimals == 0 then FromU128(raw)
    else if decimals > MAX_POWER then Panic
    else if FromU128(raw).Panic? then Panic
    else Value(Quotient(raw, decimals))
  }

  function FromU128(raw: nat): Outcome<Decimal> {
    if raw < MANTISSA_LIMIT then Value(Decimal(false, raw, 0)) else Panic
  }

  /** Multiplication by `10^decimals`: exact, or a panic when the product needs more than 96 bits even
      without fractional digits. */
  function TimesPower(amount: Decimal, decimals: nat): Outcome<Decimal> {
    if decimals < amount.scale then Value(amount.(scale := amount.scale - decimals))
    else
      var mantissa := amount.mantissa * Pow10(decimals - amount.scale);
      if mantissa < MANTISSA_LIMIT then Value(Decimal(amount.negative, mantissa, 0)) else Panic
  }

  /** Truncating division. */
  function Div(m: nat, factor: nat): (q: nat)
    requires factor > 0
  {
    m / factor
  }

  function ToU128(amount: Decimal): Option<nat> {
    var truncated := Div(amount.mantissa, Pow10(amount.scale));
    if truncated < U128_LIMIT then Some(truncated) else None
  }

  function DecimalToRaw(amount: Decimal, decimals: nat): Outcome<Result<nat, AmountError>> {
    if amount.negative then Value(Err(Negative))
    else if decimals > MAX_POWER then Panic
    else
      match TimesPower(amount, decimals)
      case Panic => Panic
      case Value(scaled) =>
        if scaled.mantissa % Pow10(scaled.scale) != 0 then Value(Err(TooPrecise))
        else
          match ToU128(scaled)
          case Some(raw) => Value(Ok(raw))
          case None => Value(Err(OverflowsU128))
  }

  // ---------------------------------------------------------------------------------------------
  // What the conversion back accepts
  // ---------------------------------------------------------------------------------------------

  lemma CancelFactor(a: nat, b: nat, factor: nat)
    requires factor > 0 && a * factor == b * factor
    ensures a == b
  {
  }

  /** Which decimals are a whole number of units, and of how many. */
  lemma RatioIff(amount: Decimal, decimals: nat, units: nat)
    ensures decimals >= amount.scale ==>
      (amount.IsRatio(units, decimals) <==> units == amount.mantissa * Pow10(decimals - amount.scale))
    ensures decimals < amount.scale ==>
      (amount.IsRatio(units, decimals) <==> amount.mantissa == units * Pow10(amount.scale - decimals))
  {
    var m, s := amount.mantissa, amount.scale;
    hide Pow10;
    if decimals >= s {
      Pow10Add(decimals - s, s);
      Regroup(m, Pow10(decimals - s), Pow10(s));
      if amount.IsRatio(units, decimals) {
        CancelFactor(units, m * Pow10(decimals - s), Pow10(s));
      }
    } else {
      Pow10Add(s - decimals, decimals);
      Regroup(units, Pow10(s - decimals), Pow10(decimals));
      if amount.IsRatio(units, decimals) {
        CancelFactor(m, units * Pow10(s - decimals), Pow10(decimals));
      }
    }
  }

  lemma DivMod(m: nat, factor: nat)
    requires factor > 0
    ensures m == (m / factor) * factor + m % factor
  {
  }

  lemma AtMostProduct(q: nat, factor: nat)
    requires factor > 0
    ensures q <= q * factor
  {
  }

  lemma Divides(m: nat, factor: nat)
    requires factor > 0
    ensures m % factor == 0 <==> m == (m / factor) * factor
    ensures m / factor <= m
  {
    DivMod(m, factor);
    AtMostProduct(m / factor, factor);
  }

  lemma DivideProduct(units: nat, factor: nat)
    requires factor > 0
    ensures units * factor / factor == units && units * factor % factor == 0
  {
    DivMod(units * factor, factor);
    var rest := units * factor % factor;
    SmallMultiple(units, units * factor / factor, rest, factor);
  }

  lemma SmallMultiple(a: nat, b: nat, rest: nat, factor: nat)
    requires rest < factor && a * factor == b * factor + rest
    ensures a == b && rest == 0
  {
    Gap(a, b, factor);
    Gap(b, a, factor);
  }

  lemma Gap(a: nat, b: nat, factor: nat)
    ensures a < b ==> a * factor + factor <= b * factor
  {
    if a < b {
      var more := b - a - 1;
      assert b * factor == a * factor + factor + more * factor;
    }
  }

  /** The three ways a decimal that is not negative comes back, told apart by its value alone: it is a whole
      number of units that a decimal can hold, a whole number that is too large, or not a whole number. */
  lemma ConvertsBackIff(amount: Decimal, decimals: nat)
    requires amount.Valid() && !amount.negative && decimals <= MAX_POWER
    ensures forall raw: nat :: DecimalToRaw(amount, decimals) == Value(Ok(raw)) <==>
                          amount.IsRatio(raw, decimals) && raw < MANTISSA_LIMIT
    ensures DecimalToRaw(amount, decimals) == Panic <==>
            exists units: nat :: amount.IsRatio(units, decimals) && units >= MANTISSA_LIMIT
    ensures DecimalToRaw(amount, decimals) == Value(Err(TooPrecise)) <==>
            forall units: nat :: !amount.IsRatio(units, decimals)
  {
    hide Decimal.IsRatio, Pow10;
    var m, s := amount.mantissa, amount.scale;
    forall units: nat
      ensures decimals >= s ==> (amount.IsRatio(units, decimals) <==> units == m * Pow10(decimals - s))
      ensures decimals < s ==> (amount.IsRatio(units, decimals) <==> m == units * Pow10(s - decimals))
    {
      RatioIff(amount, decimals, units);
    }
    if decimals >= s {
      var units: nat := m * Pow10(decimals - s);
      assert amount.IsRatio(units, decimals);
      UnitDivision(units);
    } else {
      var factor := Pow10(s - decimals);
      Divides(m, factor);
      forall units: nat | m == units * factor
        ensures units == m / factor && m % factor == 0 && units <= m
      {
        DivideProduct(units, factor);
      }
      assert amount.IsRatio(m / factor, decimals) <==> m % factor == 0;
    }
  }

  lemma UnitDivision(units: nat)
    ensures Pow10(0) == 1 && units / Pow10(0) == units && units % Pow10(0) == 0
  {
  }

  /** Every amount that fits a decimal survives the round trip, for every scale the power of ten allows. */
  lemma RoundTrip(raw: nat, decimals: nat)
    requires raw < U128_LIMIT
    ensures
      var human := RawToDecimal(raw, decimals);
      && (human.Value? <==> raw < MANTISSA_LIMIT && decimals <= MAX_POWER)
      && (human.Value? ==> human.value.Valid() && DecimalToRaw(human.value, decimals) == Value(Ok(raw)))
  {
    hide DecimalToRaw;
    if raw < MANTISSA_LIMIT && decimals <= MAX_POWER {
      var human := RawToDecimal(raw, decimals).value;
      assert human.IsRatio(raw, decimals);
      ConvertsBackIff(human, decimals);
    }
  }

  /** An accepted amount, converted forward again, is numerically the same amount. */
  lemma AcceptedConvertsForward(amount: Decimal, decimals: nat)
    requires amount.Valid()
    requires DecimalToRaw(amount, decimals).Value? && DecimalToRaw(amount, decimals).value.Ok?
    ensures
      var again := RawToDecimal(DecimalToRaw(amount, decimals).value.value, decimals);
      again.Value? && again.value.Valid() && NumericallyEqual(again.value, amount)
  {
    var raw := DecimalToRaw(amount, decimals).value.value;
    ConvertsBackIff(amount, decimals);
    hide DecimalToRaw;
    var again := RawToDecimal(raw, decimals).value;
    SameRatio(again, amount, raw, decimals);
  }

  lemma SameRatio(a: Decimal, b: Decimal, units: nat, decimals: nat)
    requires a.IsRatio(units, decimals) && b.IsRatio(units, decimals)
    ensures a.mantissa * Pow10(b.scale) == b.mantissa * Pow10(a.scale)
  {
    var p, x, y := Pow10(decimals), Pow10(a.scale), Pow10(b.scale);
    hide Pow10;
    Exchange(a.mantissa, y, p);
    Exchange(b.mantissa, x, p);
    Exchange(units, x, y);
    CancelFactor(a.mantissa * y, b.mantissa * x, p);
  }

  /** How a decimal is written, with or without trailing zeros, does not matter. */
  lemma RepresentationDoesNotMatter(a: Decimal, b: Decimal, decimals: nat)
    requires a.Valid() && b.Valid() && NumericallyEqual(a, b)
    ensures DecimalToRaw(a, decimals) == DecimalToRaw(b, decimals)
  {
    hide Pow10;
    if !a.negative && decimals <= MAX_POWER {
      forall units: nat
        ensures a.IsRatio(units, decimals) <==> b.IsRatio(units, decimals)
      {
        if a.IsRatio(units, decimals) {
          EqualRatio(a, b, units, decimals);
        } else if b.IsRatio(units, decimals) {
          EqualRatio(b, a, units, decimals);
        }
      }
      hide Decimal.IsRatio;
      OutcomeIsDecided(a, decimals);
      OutcomeIsDecided(b, decimals);
      ConvertsBackIff(a, decimals);
      ConvertsBackIff(b, decimals);
      hide DecimalToRaw;
    }
  }

  lemma EqualRatio(a: Decimal, b: Decimal, units: nat, decimals: nat)
    requires NumericallyEqual(a, b) && a.IsRatio(units, decimals)
    ensures b.IsRatio(units, decimals)
  {
    var p, x, y := Pow10(decimals), Pow10(a.scale), Pow10(b.scale);
    hide Pow10;
    Exchange(b.mantissa, p, x);
    Exchange(a.mantissa, y, p);
    Exchange(units, x, y);
    CancelFactor(b.mantissa * p, units * y, x);
  }

  /** A negative sign is refused whatever the scale, even on zero, and nothing else is called negative. The
      error for a value above the u128 range is never returned: such an amount panics in the
      multiplication. */
  lemma OutcomeIsDecided(amount: Decimal, decimals: nat)
    requires amount.Valid()
    ensures DecimalToRaw(amount, decimals) == Value(Err(Negative)) <==> amount.negative
    ensures DecimalToRaw(amount, decimals) != Value(Err(OverflowsU128))
  {
    if !amount.negative && decimals <= MAX_POWER && TimesPower(amount, decimals).Value? {
      var scaled := TimesPower(amount, decimals).value;
      Divides(scaled.mantissa, Pow10(scaled.scale));
    }
  }

  /** Ten to the nineteenth with nineteen decimals is a representable u128 of units, yet it panics. */
  lemma PanicsInsideU128()
    ensures
      var amount := Decimal(false, Pow10(19), 0);
      amount.Valid() && amount.IsRatio(Pow10(38), 19) && Pow10(38) < U128_LIMIT && DecimalToRaw(amount, 19) == Panic
  {
    Pow10Add(19, 19);
    PowersInU64();
  }

  /** The limits: 96 bits of mantissa, 128 bits of raw amount, and the powers of ten that a `u64` holds. */
  lemma Limits(decimals: nat)
    ensures MANTISSA_LIMIT == 79_228_162_514_264_337_593_543_950_336
    ensures U128_LIMIT == 340_282_366_920_938_463_463_374_607_431_768_211_456
    ensures decimals <= MAX_POWER <==> Pow10(decimals) < 0x1_0000_0000_0000_0000
  {
    PowersInU64();
    if decimals <= 19 {
      Pow10Add(decimals, 19 - decimals);
      AtMostProduct(Pow10(decimals), Pow10(19 - decimals));
    } else {
      Pow10Add(20, decimals - 20);
      AtMostProduct(Pow10(20), Pow10(decimals - 20));
    }
  }

  /** A quotient carries no trailing zeros. */
  lemma {:induction false} QuotientIsReduced(mantissa: nat, scale: nat)
    ensures var q := Quotient(mantissa, scale); q.scale == 0 || q.mantissa % 10 != 0
    decreases scale
  {
    if scale == 0 {
    } else if mantissa % 10 == 0 {
      QuotientIsReduced(mantissa / 10, scale - 1);
    }
  }
}
