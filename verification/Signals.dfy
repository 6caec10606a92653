/** Helpers shared by the detectors (`signals.rs`, `anomaly.rs`). Confidences, prices and amounts are
    exact reals; the rounding of `f64` and `Decimal` is not modelled. */
module Signals {
  import opened Wrappers
  import opened Quotients

  datatype Severity = Info | Low | Medium | High | Critical

  /** `severity_from_confidence`. */
  function Band(confidence: real): Severity {
    if confidence < 0.20 then Info
    else if confidence < 0.40 then Low
    else if confidence < 0.60 then Medium
    else if confidence < 0.80 then High
    else Critical
  }

  function Min(a: real, b: real): real { if a <= b then a else b }

  function Max(a: real, b: real): real { if a <= b then b else a }

  function Clamp(x: real, low: real, high: real): real
    requires low <= high
  {
    if x < low then low else if x > high then high else x
  }

  /** `Confidence::new`: an error outside [0, 1]. */
  function NewConfidence(v: real): Option<real> { if 0.0 <= v <= 1.0 then Some(v) else None }

  /** The severity counts how many of the four bounds the confidence reaches. */
  lemma BandMeaning(confidence: real)
    ensures Band(confidence) == Info <==> confidence < 0.20
    ensures Band(confidence) == Low <==> 0.20 <= confidence < 0.40
    ensures Band(confidence) == Medium <==> 0.40 <= confidence < 0.60
    ensures Band(confidence) == High <==> 0.60 <= confidence < 0.80
    ensures Band(confidence) == Critical <==> 0.80 <= confidence
  {
  }

  /** Clamping gives the bound that is exceeded, or else the number itself; a number outside [0, 1] is no
      confidence. */
  lemma ClampMeaning(x: real, low: real, high: real)
    requires low <= high
    ensures low <= Clamp(x, low, high) <= high
    ensures low <= x <= high ==> Clamp(x, low, high) == x
    ensures x < low ==> Clamp(x, low, high) == low
    ensures x > high ==> Clamp(x, low, high) == high
    ensures NewConfidence(x) == if x < 0.0 || x > 1.0 then None else Some(x)
  {
  }

  // The sigmoid is any strictly increasing function into (0, 1).

  ghost predicate IsSigmoid(f: real -> real) {
    && (forall x :: 0.0 < f(x) < 1.0)
    && (forall x, y :: x < y ==> f(x) < f(y))
  }

  function Softsign(x: real): real {
    if x < 0.0 then 0.5 / (1.0 - x) else 1.0 - 0.5 / (1.0 + x)
  }

  lemma SoftsignIsSigmoid()
    ensures IsSigmoid(Softsign)
  {
    forall x
      ensures 0.0 < Softsign(x) < 1.0
    {
      var a := if x < 0.0 then 1.0 - x else 1.0 + x;
      QuotientFalls(0.5, a, a + 1.0);
    }
    forall x, y | x < y
      ensures Softsign(x) < Softsign(y)
    {
      if y < 0.0 {
        QuotientFalls(0.5, 1.0 - y, 1.0 - x);
      } else if x >= 0.0 {
        QuotientFalls(0.5, 1.0 + x, 1.0 + y);
      } else {
        QuotientFalls(0.5, 1.0, 1.0 - x);
        if y > 0.0 {
          QuotientFalls(0.5, 1.0, 1.0 + y);
        }
      }
    }
  }

  type Sigmoid = f: real -> real | IsSigmoid(f) ghost witness (SoftsignIsSigmoid(); Softsign)

  // ---------------------------------------------------------------------------------------------
  // Events
  // ---------------------------------------------------------------------------------------------

  /** The part of an anomaly event that the detectors read back: `latentRisk` is the metric of that
      name, `suppressed` tells whether the event is an audit record of a suppressed signal. */
  datatype Event = Event(confidence: real, severity: Severity, latentRisk: Option<int>, suppressed: bool)

  /** An anomaly event as the detectors amplify it in place. */
  class AnomalyEvent {
    var confidence: real
    var severity: Severity
    const latentRisk: Option<int>
    const suppressed: bool

    ghost function View(): Event
      reads this
    {
      Event(confidence, severity, latentRisk, suppressed)
    }

    constructor (event: Event)
      ensures View() == event
    {
      confidence, severity := event.confidence, event.severity;
      latentRisk, suppressed := event.latentRisk, event.suppressed;
    }
  }

  // ---------------------------------------------------------------------------------------------
  // Graduation recency
  // ---------------------------------------------------------------------------------------------

  datatype Tiers = Tiers(under1h: real, under24h: real, under72h: real, under1w: real, mature: real)

  /** `graduation_recency_multiplier`; `age` is the time since graduation in seconds. */
  function RecencyMultiplier(age: int, tiers: Tiers): real {
    if age < 0 then 1.0
    else if age < 3_600 then tiers.under1h
    else if age < 24 * 3_600 then tiers.under24h
    else if age < 72 * 3_600 then tiers.under72h
    else if age < 168 * 3_600 then tiers.under1w
    else tiers.mature
  }

  /** The tier by whole hours since graduation; a graduation that lies ahead changes nothing. */
  lemma RecencyMeaning(age: int, tiers: Tiers, hours: nat)
    requires age >= 0 ==> hours * 3_600 <= age < (hours + 1) * 3_600
    ensures age < 0 ==> RecencyMultiplier(age, tiers) == 1.0
    ensures age >= 0 ==>
      RecencyMultiplier(age, tiers) ==
      if hours < 1 then tiers.under1h
      else if hours < 24 then tiers.under24h
      else if hours < 72 then tiers.under72h
      else if hours < 168 then tiers.under1w
      else tiers.mature
  {
  }

  /** `apply_graduation_amplifier`. */
  function Graduated(confidence: real, age: int, tiers: Tiers, cap: real): real {
    Max(Min(confidence * RecencyMultiplier(age, tiers), cap), 0.0)
  }

  /** The confidence is scaled, and then held between zero and the cap; the event takes it, and its severity, only
      if it rises to a confidence. */
  lemma GraduationMeaning(event: Event, age: int, tiers: Tiers, cap: real, scaled: real)
    requires scaled == event.confidence * RecencyMultiplier(age, tiers)
    ensures Graduated(event.confidence, age, tiers, cap) ==
      if scaled < 0.0 || cap < 0.0 then 0.0 else if scaled > cap then cap else scaled
    ensures
      var amplified := Graduated(event.confidence, age, tiers, cap);
      GraduationStep(event, age, tiers, cap) ==
      if event.confidence < amplified && 0.0 <= amplified <= 1.0
      then Event(amplified, Band(amplified), event.latentRisk, event.suppressed) else event
  {
    hide RecencyMultiplier, Band;
  }

  /** The step both detectors take after it: the event changes only if its confidence rises. */
  function GraduationStep(event: Event, age: int, tiers: Tiers, cap: real): Event {
    var amplified := Graduated(event.confidence, age, tiers, cap);
    if NewConfidence(amplified).Some? && amplified > event.confidence
    then event.(confidence := amplified, severity := Band(amplified))
    else event
  }
}
