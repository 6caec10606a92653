/** The D02 rug-pull detector (`d02_rug_pull.rs`), Solana branch: Signal A (observed LP drain), Signal B
    (latent LP risk), the per-pool loop that lets A supersede B, and the graduation pass. */
module RugPull {
  import opened Wrappers
  import opened Signals
  import opened Quotients

  datatype Config = Config(
    lpRemovalThreshold: real,
    minPoolUsd: real,
    minPriorTxs: int,
    lpSafeFloor: real,
    minLockHorizonDays: nat,
    singleProviderBonus: real,
    lpProvidersThreshold: int,
    expiryBonusMax: real)

  datatype Fetch<+T> = Rows(rows: T) | PostgresFailure | OtherFailure

  datatype DetectorError = TransientQuery | PermanentQuery

  const U128_MAX: nat := 0xFFFF_FFFF_FFFF_FFFF_FFFF_FFFF_FFFF_FFFF

  const NANOS_PER_DAY: int := 86_400 * 1_000_000_000

  /** A float whose only special value is NaN. */
  datatype Float = NaN | Fin(value: real)

  // ---------------------------------------------------------------------------------------------
  // Signal A: observed drains
  // ---------------------------------------------------------------------------------------------

  datatype DrainRow = DrainRow(cumulative: Float, actor: string)

  /** Is the first drain strictly larger, with NaN below every number? */
  predicate Exceeds(a: DrainRow, b: DrainRow) {
    a.cumulative.Fin? && (b.cumulative.NaN? || a.cumulative.value > b.cumulative.value)
  }

  /** `pick_worst_drain`: `max_by` keeps the later of two equal rows. */
  function WorstDrain(rows: seq<DrainRow>): Option<DrainRow> {
    if rows == [] then None
    else
      var last := rows[|rows| - 1];
      match WorstDrain(rows[..|rows| - 1])
      case None => Some(last)
      case Some(best) => Some(if Exceeds(best, last) then best else last)
  }

  /** No row exceeds row `k`, and it exceeds every later one. */
  ghost predicate IsLastWorst(rows: seq<DrainRow>, k: nat)
    requires k < |rows|
  {
    && (forall j :: 0 <= j < |rows| ==> !Exceeds(rows[j], rows[k]))
    && (forall j :: k < j < |rows| ==> Exceeds(rows[k], rows[j]))
  }

  lemma {:induction false} WorstDrainAt(rows: seq<DrainRow>) returns (k: nat)
    requires rows != []
    ensures k < |rows| && IsLastWorst(rows, k) && WorstDrain(rows) == Some(rows[k])
  {
    var front, last := rows[..|rows| - 1], |rows| - 1;
    k := last;
    if front == [] {
    } else {
      var best := WorstDrainAt(front);
      assert forall j :: 0 <= j < last ==> rows[j] == front[j];
      if Exceeds(rows[best], rows[last]) {
        k := best;
      } else {
        forall j | 0 <= j < last
          ensures !Exceeds(rows[j], rows[last])
        {
          assert !Exceeds(front[j], front[best]);
        }
      }
    }
  }

  /** `pick_worst_drain` returns nothing exactly for no rows, and otherwise the one row that no row
      exceeds and that exceeds every later one; it is NaN only if all rows are. */
  lemma WorstDrainMeaning(rows: seq<DrainRow>, k: nat)
    requires k < |rows|
    ensures WorstDrain(rows).Some?
    ensures IsLastWorst(rows, k) ==> WorstDrain(rows) == Some(rows[k])
    ensures WorstDrain(rows).value.cumulative.NaN? ==> rows[k].cumulative.NaN?
  {
    var w := WorstDrainAt(rows);
    assert !Exceeds(rows[k], rows[w]);
    if IsLastWorst(rows, k) {
      assert w <= k && k <= w;
    }
  }

  /** A number exceeds a smaller number and NaN, and NaN exceeds nothing. */
  lemma ExceedsMeaning(x: real, y: real, a: string, b: string)
    ensures Exceeds(DrainRow(Fin(x), a), DrainRow(Fin(y), b)) <==> x > y
    ensures Exceeds(DrainRow(Fin(x), a), DrainRow(NaN, b))
    ensures !Exceeds(DrainRow(NaN, a), DrainRow(Fin(y), b)) && !Exceeds(DrainRow(NaN, a), DrainRow(NaN, b))
  {
  }

  const EPSILON: real := 1.0 / 4_503_599_627_370_496.0

  /** `compute_signal_a_confidence`. */
  function SignalAConfidence(worst: DrainRow, cfg: Config, sigmoid: Sigmoid): Float {
    match worst.cumulative
    case NaN => NaN
    case Fin(removed) =>
      var room := 1.0 - cfg.lpRemovalThreshold;
      var raw := if -EPSILON < room < EPSILON then 1.0 else (Clamp(removed, 0.0, 1.0) - cfg.lpRemovalThreshold) / room;
      Fin(Clamp(sigmoid(raw * 4.0 - 1.5), 0.75, 1.0))
  }

  datatype Drain = Drain(row: DrainRow, trickle: bool)

  /** The merge of the 60-minute and the 24-hour window. */
  function MergedDrain(fast: Option<DrainRow>, slow: Option<DrainRow>): Option<Drain> {
    match (fast, slow)
    case (None, None) => None
    case (Some(f), None) => Some(Drain(f, false))
    case (None, Some(s)) => Some(Drain(s, true))
    case (Some(f), Some(s)) =>
      var useFast := f.cumulative.NaN? || (s.cumulative.Fin? && f.cumulative.value >= s.cumulative.value);
      Some(Drain(if useFast then f else s, false))
  }

  /** The merge keeps a row that the other does not exceed exactly if the two rows agree on being NaN:
      a NaN on one side alone always wins. */
  lemma MergeIsMaximumIff(f: DrainRow, s: DrainRow)
    ensures
      var kept := MergedDrain(Some(f), Some(s)).value.row;
      !Exceeds(f, kept) && !Exceeds(s, kept) <==> (f.cumulative.NaN? <==> s.cumulative.NaN?)
  {
  }

  function DrainConfidence(drain: Drain, cfg: Config, sigmoid: Sigmoid): Float {
    if drain.trickle then Fin(0.75) else SignalAConfidence(drain.row, cfg, sigmoid)
  }

  /** Which drain is reported: the only one there is, a trickle if it is seen in the slow window alone; of two the
      fast one unless the slow one is larger or, alone, not a number. */
  lemma MergeMeaning(f: DrainRow, s: DrainRow)
    ensures MergedDrain(None, None) == None
    ensures MergedDrain(Some(f), None) == Some(Drain(f, false)) && MergedDrain(None, Some(s)) == Some(Drain(s, true))
    ensures f.cumulative.NaN? ==> MergedDrain(Some(f), Some(s)) == Some(Drain(f, false))
    ensures f.cumulative.Fin? && s.cumulative.NaN? ==> MergedDrain(Some(f), Some(s)) == Some(Drain(s, false))
    ensures forall x, y :: f.cumulative == Fin(x) && s.cumulative == Fin(y) ==>
      MergedDrain(Some(f), Some(s)) == Some(Drain(if x < y then s else f, false))
  {
  }

  /** The event of a drain: 0.75 for a trickle; otherwise the sigmoid of the removed share, stretched from the
      threshold to one, and at least 0.75. `raw` is that stretched share. */
  lemma DrainEventMeaning(drain: Drain, cfg: Config, sigmoid: Sigmoid, removed: real, raw: real)
    requires !drain.trickle ==> drain.row.cumulative == Fin(removed)
    requires
      var room := 1.0 - cfg.lpRemovalThreshold;
      var share := if removed < 0.0 then 0.0 else if removed > 1.0 then 1.0 else removed;
      if -1.0 < room * 4_503_599_627_370_496.0 < 1.0 then raw == 1.0 else raw * room == share - cfg.lpRemovalThreshold
    ensures
      var score := sigmoid(4.0 * raw - 1.5);
      var c := if drain.trickle || score < 0.75 then 0.75 else score;
      SignalAEvent(DrainConfidence(drain, cfg, sigmoid)) == Event(c, Band(c), Some(0), false)
  {
    var room := 1.0 - cfg.lpRemovalThreshold;
    if !drain.trickle && !(-1.0 < room * 4_503_599_627_370_496.0 < 1.0) {
      SameQuotient(raw, Clamp(removed, 0.0, 1.0) - cfg.lpRemovalThreshold, room);
    }
    assert raw * 4.0 - 1.5 == 4.0 * raw - 1.5;
  }

  /** `make_event` on a float: a NaN is no confidence and compares below no severity bound. */
  function SignalAEvent(confidence: Float): Event {
    match confidence
    case NaN => Event(0.0, Critical, Some(0), false)
    case Fin(c) => Event(match NewConfidence(c) case Some(v) => v case None => 0.0, Band(c), Some(0), false)
  }

  // ---------------------------------------------------------------------------------------------
  // Signal B: latent risk
  // ---------------------------------------------------------------------------------------------

  /** `unlockAt` is a time in nanoseconds; `None` is a permanent lock. */
  datatype Locker = Locker(amountRaw: nat, unlockAt: Option<int>)

  datatype Market = Market(lpBurnedPct: real, liquidityUsd: real, providers: nat)

  datatype PoolRow = PoolRow(lpTotalSupply: real, lifetimeTxs: int, liquidityUsd: real)

  function SaturatingAdd(a: nat, b: nat): nat { if a + b <= U128_MAX then a + b else U128_MAX }

  predicate OutlastsHorizon(locker: Locker, horizon: int) {
    locker.unlockAt.None? || locker.unlockAt.value > horizon
  }

  /** The saturating fold over the lockers that outlast the horizon. */
  function ActiveLockedRaw(lockers: seq<Locker>, horizon: int): (raw: nat)
    ensures raw <= U128_MAX
  {
    if lockers == [] then 0
    else
      var last := lockers[|lockers| - 1];
      var front := ActiveLockedRaw(lockers[..|lockers| - 1], horizon);
      if OutlastsHorizon(last, horizon) then SaturatingAdd(front, last.amountRaw) else front
  }

  function Pct(raw: nat, supply: real): real
    requires supply > 0.0
  {
    raw as real * 100.0 / supply
  }

  /** `compute_active_locked_pct`. */
  function ActiveLockedPct(lockers: seq<Locker>, lpTotalSupply: real, horizon: int): real {
    if lpTotalSupply <= 0.0 then 0.0
    else
      var raw := ActiveLockedRaw(lockers, horizon);
      if raw == 0 then 0.0 else Pct(raw, lpTotalSupply)
  }

  function Nearer(a: Option<int>, b: Option<int>): Option<int> {
    if a.None? then b else if b.None? then a else if a.value <= b.value then a else b
  }

  /** Whole days until a lock that has not expired yet; nothing for expired and permanent locks. */
  function UnlockDays(locker: Locker, now: int): Option<int> {
    if locker.unlockAt.Some? && locker.unlockAt.value > now
    then Some((locker.unlockAt.value - now) / NANOS_PER_DAY)
    else None
  }

  /** The minimum over the lockers. */
  function NearestUnlock(lockers: seq<Locker>, now: int): Option<int> {
    if lockers == [] then None
    else Nearer(NearestUnlock(lockers[..|lockers| - 1], now), UnlockDays(lockers[|lockers| - 1], now))
  }

  /** The bonus ramp: `max` today, nothing at the end of the window. */
  function Ramp(days: nat, window: nat, max: real): real
    requires window > 0
  {
    max * (1.0 - days as real / window as real)
  }

  function ProximityBonus(days: Option<int>, cfg: Config): real {
    var window := 2 * cfg.minLockHorizonDays;
    if days.Some? && 0 <= days.value < window
    then Ramp(days.value, window, cfg.expiryBonusMax)
    else 0.0
  }

  /** `compute_signal_b_confidence`. */
  function SignalBConfidence(lpBurnedPct: real, activeLockedPct: real, providers: nat, days: Option<int>, cfg: Config)
    : (c: Option<real>)
    ensures c.Some? <==> lpBurnedPct + activeLockedPct < cfg.lpSafeFloor
    ensures c.Some? ==> 0.50 <= c.value <= 0.75
  {
    var safe := lpBurnedPct + activeLockedPct;
    if safe >= cfg.lpSafeFloor then None
    else Some(Clamp(SignalBBase(safe, providers, cfg) + ProximityBonus(days, cfg), 0.50, 0.75))
  }

  /** The confidence before the proximity bonus and the clamping. */
  function SignalBBase(safe: real, providers: nat, cfg: Config): real {
    var deficitRatio := if cfg.lpSafeFloor > 0.0 then Max(cfg.lpSafeFloor - safe, 0.0) / cfg.lpSafeFloor else 0.0;
    var singleBonus := if providers <= AsU64(cfg.lpProvidersThreshold) then cfg.singleProviderBonus else 0.0;
    0.50 + deficitRatio * 0.25 + singleBonus
  }

  /** The cast `i64 as u64`. */
  function AsU64(n: int): nat { n % 0x1_0000_0000_0000_0000 }

  /** `evaluate_signal_b`. */
  function SignalB(market: Market, lockers: seq<Locker>, row: Option<PoolRow>, now: int, cfg: Config): Option<Event> {
    var supply := if row.Some? then row.value.lpTotalSupply else 0.0;
    var horizon := now + cfg.minLockHorizonDays * NANOS_PER_DAY;
    var poolUsd := if row.Some? then row.value.liquidityUsd else market.liquidityUsd;
    if poolUsd < cfg.minPoolUsd then None
    else match SignalBConfidence(
        market.lpBurnedPct, ActiveLockedPct(lockers, supply, horizon), market.providers,
        NearestUnlock(lockers, now), cfg)
      case None => None
      case Some(c) => Some(Event(c, Band(c), Some(1), false))
  }

  // ---------------------------------------------------------------------------------------------
  // Signal B in terms of the inputs
  // ---------------------------------------------------------------------------------------------

  /** Everything that permanent locks hold, and locks beyond a time. */
  function LockedSum(lockers: seq<Locker>, beyond: int): nat {
    if lockers == [] then 0
    else
      var last := lockers[|lockers| - 1];
      LockedSum(lockers[..|lockers| - 1], beyond) +
      match last.unlockAt
      case None => last.amountRaw
      case Some(time) => if time > beyond then last.amountRaw else 0
  }

  /** The largest `u128`. */
  function Saturated(n: nat): nat {
    if n < 340_282_366_920_938_463_463_374_607_431_768_211_455 then n
    else 340_282_366_920_938_463_463_374_607_431_768_211_455
  }

  lemma {:induction false} LockedRawIsSum(lockers: seq<Locker>, horizon: int)
    ensures ActiveLockedRaw(lockers, horizon) == Saturated(LockedSum(lockers, horizon))
  {
    if lockers == [] {
    } else {
      LockedRawIsSum(lockers[..|lockers| - 1], horizon);
    }
  }

  /** The share that is burned or locked beyond the horizon falls short of the floor; without an LP supply only what
      is burned counts. The shares are percentages of the supply, so the comparison is multiplied by it. */
  predicate IsUnsafe(market: Market, lockers: seq<Locker>, supply: real, now: int, cfg: Config) {
    if supply > 0.0 then
      market.lpBurnedPct * supply +
      100.0 * Saturated(LockedSum(lockers, now + cfg.minLockHorizonDays * 86_400_000_000_000)) as real <
      cfg.lpSafeFloor * supply
    else market.lpBurnedPct < cfg.lpSafeFloor
  }

  lemma LockedPctMeaning(lockers: seq<Locker>, supply: real, horizon: int)
    ensures supply <= 0.0 ==> ActiveLockedPct(lockers, supply, horizon) == 0.0
    ensures supply > 0.0 ==>
      ActiveLockedPct(lockers, supply, horizon) * supply == 100.0 * Saturated(LockedSum(lockers, horizon)) as real
  {
    LockedRawIsSum(lockers, horizon);
    hide ActiveLockedRaw, LockedSum, Saturated;
    if supply > 0.0 {
      var raw := ActiveLockedRaw(lockers, horizon);
      assert raw as real * 100.0 / supply * supply == raw as real * 100.0;
    }
  }

  /** Signal B fires exactly on a pool above the dust filter that is unsafe. */
  lemma SignalBFiresIff(market: Market, lockers: seq<Locker>, row: Option<PoolRow>, now: int, cfg: Config)
    ensures SignalB(market, lockers, row, now, cfg).Some? <==>
      && (if row.Some? then row.value.liquidityUsd else market.liquidityUsd) >= cfg.minPoolUsd
      && IsUnsafe(market, lockers, if row.Some? then row.value.lpTotalSupply else 0.0, now, cfg)
  {
    var supply := if row.Some? then row.value.lpTotalSupply else 0.0;
    var horizon := now + cfg.minLockHorizonDays * 86_400_000_000_000;
    assert horizon == now + cfg.minLockHorizonDays * NANOS_PER_DAY;
    LockedPctMeaning(lockers, supply, horizon);
    hide ActiveLockedPct, NearestUnlock, ProximityBonus, SignalBBase, LockedSum, Saturated;
    if supply > 0.0 {
      SharesAndAmounts(
        market.lpBurnedPct, ActiveLockedPct(lockers, supply, horizon), cfg.lpSafeFloor, supply,
        100.0 * Saturated(LockedSum(lockers, horizon)) as real);
    }
  }

  lemma SharesAndAmounts(burned: real, locked: real, floor: real, supply: real, amount: real)
    requires supply > 0.0 && locked * supply == amount
    ensures burned + locked < floor <==> burned * supply + amount < floor * supply
  {
    ScaledSum(burned, locked, supply);
    ScaledLess(burned + locked, floor, supply);
  }

  lemma ScaledSum(a: real, b: real, factor: real)
    ensures (a + b) * factor == a * factor + b * factor
  {
  }

  lemma ScaledLess(a: real, b: real, factor: real)
    requires factor > 0.0
    ensures a < b <==> a * factor < b * factor
  {
    if a < b {
      MulStrict(factor, a, b);
    } else {
      MulMonotone(factor, b, a);
    }
  }

  /** The whole days to an unlock that lies ahead. */
  lemma UnlockDaysMeaning(amount: nat, unlock: int, now: int, days: nat)
    requires unlock > now ==> days * 86_400_000_000_000 <= unlock - now < (days + 1) * 86_400_000_000_000
    ensures UnlockDays(Locker(amount, Some(unlock)), now) == if unlock > now then Some(days) else None
    ensures UnlockDays(Locker(amount, None), now) == None
  {
  }

  /** The confidence of Signal B: 0.50, a quarter of what is missing of the floor, the bonus for few providers and the
      bonus for a near unlock, held within [0.50, 0.75]. `share` is the locked share in percent, `deficit` what is
      missing in floors, and `bonus` falls from the configured maximum to nothing over twice the horizon. The
      threshold of providers is compared as the `u64` it is cast to. */
  lemma SignalBMeaning(
    market: Market, lockers: seq<Locker>, row: Option<PoolRow>, now: int, cfg: Config, share: real, deficit: real,
    bonus: real)
    requires -0x8000_0000_0000_0000 <= cfg.lpProvidersThreshold < 0x8000_0000_0000_0000
    requires SignalB(market, lockers, row, now, cfg).Some?
    requires
      if row.Some? && row.value.lpTotalSupply > 0.0 then
        share * row.value.lpTotalSupply ==
        100.0 * Saturated(LockedSum(lockers, now + cfg.minLockHorizonDays * 86_400_000_000_000)) as real
      else share == 0.0
    requires
      if cfg.lpSafeFloor > 0.0 then deficit * cfg.lpSafeFloor == cfg.lpSafeFloor - market.lpBurnedPct - share
      else deficit == 0.0
    requires
      var days, window := NearestUnlock(lockers, now), 2 * cfg.minLockHorizonDays;
      if days.Some? && days.value < window then
        bonus * window as real == cfg.expiryBonusMax * (window - days.value) as real
      else bonus == 0.0
    ensures
      var limit := cfg.lpProvidersThreshold +
        if cfg.lpProvidersThreshold < 0 then 0x1_0000_0000_0000_0000 else 0;
      var score := 0.50 + 0.25 * deficit + (if market.providers <= limit then cfg.singleProviderBonus else 0.0) + bonus;
      var c := if score < 0.50 then 0.50 else if score > 0.75 then 0.75 else score;
      SignalB(market, lockers, row, now, cfg) == Some(Event(c, Band(c), Some(1), false))
  {
    hide ActiveLockedPct, NearestUnlock, ProximityBonus, SignalBBase, LockedSum, Saturated, Band;
    var supply := if row.Some? then row.value.lpTotalSupply else 0.0;
    var horizon := now + cfg.minLockHorizonDays * 86_400_000_000_000;
    assert horizon == now + cfg.minLockHorizonDays * NANOS_PER_DAY;
    LockedPctIs(lockers, supply, horizon, share);
    NearestUnlockIsFuture(lockers, now);
    RampMeaning(NearestUnlock(lockers, now), cfg, bonus);
    BaseMeaning(market.lpBurnedPct + share, market.providers, cfg, deficit);
  }

  lemma LockedPctIs(lockers: seq<Locker>, supply: real, horizon: int, share: real)
    requires
      if supply > 0.0 then share * supply == 100.0 * Saturated(LockedSum(lockers, horizon)) as real else share == 0.0
    ensures ActiveLockedPct(lockers, supply, horizon) == share
  {
    LockedPctMeaning(lockers, supply, horizon);
    hide ActiveLockedPct, LockedSum, Saturated;
    if supply > 0.0 {
      var locked := 100.0 * Saturated(LockedSum(lockers, horizon)) as real;
      SameQuotient(share, locked, supply);
      SameQuotient(ActiveLockedPct(lockers, supply, horizon), locked, supply);
    }
  }

  lemma RampMeaning(days: Option<int>, cfg: Config, bonus: real)
    requires days.Some? ==> days.value >= 0
    requires
      var window := 2 * cfg.minLockHorizonDays;
      if days.Some? && days.value < window then
        bonus * window as real == cfg.expiryBonusMax * (window - days.value) as real
      else bonus == 0.0
    ensures ProximityBonus(days, cfg) == bonus
  {
    var window := 2 * cfg.minLockHorizonDays;
    if days.Some? && days.value < window {
      var w, d := window as real, days.value as real;
      assert (1.0 - d / w) * w == w - d;
      assert cfg.expiryBonusMax * (1.0 - d / w) * w == cfg.expiryBonusMax * (w - d);
      SameQuotient(bonus, cfg.expiryBonusMax * (w - d), w);
      SameQuotient(Ramp(days.value, window, cfg.expiryBonusMax), cfg.expiryBonusMax * (w - d), w);
    }
  }

  lemma BaseMeaning(safe: real, providers: nat, cfg: Config, deficit: real)
    requires safe < cfg.lpSafeFloor
    requires -0x8000_0000_0000_0000 <= cfg.lpProvidersThreshold < 0x8000_0000_0000_0000
    requires if cfg.lpSafeFloor > 0.0 then deficit * cfg.lpSafeFloor == cfg.lpSafeFloor - safe else deficit == 0.0
    ensures
      var limit := cfg.lpProvidersThreshold +
        if cfg.lpProvidersThreshold < 0 then 0x1_0000_0000_0000_0000 else 0;
      SignalBBase(safe, providers, cfg) ==
      0.50 + 0.25 * deficit + if providers <= limit then cfg.singleProviderBonus else 0.0
  {
    if cfg.lpSafeFloor > 0.0 {
      SameQuotient(deficit, cfg.lpSafeFloor - safe, cfg.lpSafeFloor);
    }
  }

  // ---------------------------------------------------------------------------------------------
  // Pushing an unlock later
  // ---------------------------------------------------------------------------------------------

  /** The same lock, not expired, moved to a later time or made permanent. */
  predicate IsExtended(locker: Locker, longer: Locker, now: int) {
    && longer.amountRaw == locker.amountRaw
    && locker.unlockAt.Some? && locker.unlockAt.value > now
    && (longer.unlockAt.None? || longer.unlockAt.value >= locker.unlockAt.value)
  }

  lemma {:induction false} ExtensionLocksMore(
    lockers: seq<Locker>, i: nat, longer: Locker, now: int, horizon: int)
    requires i < |lockers| && IsExtended(lockers[i], longer, now)
    ensures ActiveLockedRaw(lockers, horizon) <= ActiveLockedRaw(lockers[i := longer], horizon)
  {
    var last := |lockers| - 1;
    if i < last {
      assert lockers[i := longer][..last] == lockers[..last][i := longer];
      ExtensionLocksMore(lockers[..last], i, longer, now, horizon);
    } else {
      assert lockers[i := longer][..last] == lockers[..last];
    }
  }

  /** No nearer: absent, or at least as far as before. */
  predicate NoNearer(after: Option<int>, before: Option<int>) {
    after.Some? ==> before.Some? && before.value <= after.value
  }

  lemma {:induction false} ExtensionUnlocksNoSooner(lockers: seq<Locker>, i: nat, longer: Locker, now: int)
    requires i < |lockers| && IsExtended(lockers[i], longer, now)
    ensures NoNearer(NearestUnlock(lockers[i := longer], now), NearestUnlock(lockers, now))
  {
    var last := |lockers| - 1;
    if i < last {
      assert lockers[i := longer][..last] == lockers[..last][i := longer];
      ExtensionUnlocksNoSooner(lockers[..last], i, longer, now);
    } else {
      assert lockers[i := longer][..last] == lockers[..last];
    }
  }

  lemma RampShare(days: nat, window: nat)
    requires days < window
    ensures 0.0 < Ramp(days, window, 1.0) <= 1.0
  {
    QuotientBound(days as real, window as real, 0.0);
    QuotientBound(days as real, window as real, 1.0);
    if days as real / window as real >= 1.0 {
      QuotientBound(days as real, window as real, 1.0);
    }
  }

  lemma RampShareFalls(near: nat, far: nat, window: nat)
    requires near <= far < window
    ensures Ramp(far, window, 1.0) <= Ramp(near, window, 1.0)
    ensures near < far ==> Ramp(far, window, 1.0) < Ramp(near, window, 1.0)
  {
    var w := window as real;
    QuotientBound(near as real, w, far as real / w);
    QuotientBound(far as real, w, near as real / w);
    assert far as real / w * w == far as real && near as real / w * w == near as real;
  }

  lemma RampIs(days: nat, window: nat, max: real)
    requires window > 0
    ensures Ramp(days, window, max) == max * Ramp(days, window, 1.0)
  {
  }

  /** The ramp has the sign of its maximum and loses height with distance, strictly for a maximum that is not
      zero. */
  lemma RampFalls(near: nat, far: nat, window: nat, max: real)
    requires near <= far < window
    ensures max >= 0.0 ==> 0.0 <= Ramp(far, window, max) <= Ramp(near, window, max)
    ensures max <= 0.0 ==> max <= Ramp(near, window, max) <= Ramp(far, window, max) <= 0.0
    ensures max > 0.0 ==> 0.0 < Ramp(far, window, max)
    ensures max > 0.0 && near < far ==> Ramp(far, window, max) < Ramp(near, window, max)
  {
    RampShare(near, window);
    RampShare(far, window);
    RampShareFalls(near, far, window);
    RampIs(near, window, max);
    RampIs(far, window, max);
    hide Ramp;
    ScaledOrder(max, Ramp(near, window, 1.0), Ramp(far, window, 1.0));
  }

  lemma ScaledOrder(max: real, high: real, low: real)
    requires 0.0 < low <= high <= 1.0
    ensures max >= 0.0 ==> 0.0 <= max * low <= max * high
    ensures max <= 0.0 ==> max <= max * high <= max * low <= 0.0
    ensures max > 0.0 ==> 0.0 < max * low && (low < high ==> max * low < max * high)
  {
    if max >= 0.0 {
      MulMonotone(max, 0.0, low);
      MulMonotone(max, low, high);
      if max > 0.0 {
        MulStrict(max, 0.0, low);
        if low < high {
          MulStrict(max, low, high);
        }
      }
    }
    if max <= 0.0 {
      MulMonotone(-max, low, high);
      MulMonotone(-max, high, 1.0);
      MulMonotone(-max, 0.0, low);
    }
  }

  /** A nearer unlock never earns less of a positive bonus, nor a smaller share of a negative one. */
  lemma BonusFollowsDistance(after: Option<int>, before: Option<int>, cfg: Config)
    requires NoNearer(after, before) && (before.Some? ==> before.value >= 0)
    ensures cfg.expiryBonusMax >= 0.0 ==> 0.0 <= ProximityBonus(after, cfg) <= ProximityBonus(before, cfg)
    ensures cfg.expiryBonusMax <= 0.0 ==>
      cfg.expiryBonusMax <= ProximityBonus(before, cfg) <= ProximityBonus(after, cfg) <= 0.0
  {
    hide Ramp;
    var window := 2 * cfg.minLockHorizonDays;
    if before.Some? && before.value < window {
      RampFalls(before.value, before.value, window, cfg.expiryBonusMax);
      if after.Some? && after.value < window {
        RampFalls(before.value, after.value, window, cfg.expiryBonusMax);
      }
    }
  }

  lemma PctGrows(a: nat, b: nat, supply: real)
    requires a <= b && supply > 0.0
    ensures 0.0 <= Pct(a, supply) <= Pct(b, supply)
  {
    QuotientBound(a as real * 100.0, supply, 0.0);
    QuotientBound(b as real * 100.0, supply, Pct(b, supply));
    QuotientBound(a as real * 100.0, supply, Pct(b, supply));
  }

  lemma LockedPctGrows(before: seq<Locker>, after: seq<Locker>, supply: real, horizon: int)
    requires ActiveLockedRaw(before, horizon) <= ActiveLockedRaw(after, horizon)
    ensures ActiveLockedPct(before, supply, horizon) <= ActiveLockedPct(after, supply, horizon)
  {
    hide Pct, ActiveLockedRaw;
    if supply > 0.0 {
      PctGrows(ActiveLockedRaw(before, horizon), ActiveLockedRaw(after, horizon), supply);
    }
  }

  lemma BaseFalls(safe: real, safer: real, providers: nat, cfg: Config)
    requires safe <= safer
    ensures SignalBBase(safer, providers, cfg) <= SignalBBase(safe, providers, cfg)
  {
    if cfg.lpSafeFloor > 0.0 {
      var a, b := Max(cfg.lpSafeFloor - safer, 0.0), Max(cfg.lpSafeFloor - safe, 0.0);
      QuotientBound(b, cfg.lpSafeFloor, b / cfg.lpSafeFloor);
      QuotientBound(a, cfg.lpSafeFloor, b / cfg.lpSafeFloor);
    }
  }

  lemma {:induction false} NearestUnlockIsFuture(lockers: seq<Locker>, now: int)
    ensures NearestUnlock(lockers, now).Some? ==> NearestUnlock(lockers, now).value >= 0
  {
    if lockers == [] {
    } else {
      NearestUnlockIsFuture(lockers[..|lockers| - 1], now);
    }
  }

  /** The confidence of `SignalB`, if it fires. */
  function ConfidenceOf(
    market: Market, lockers: seq<Locker>, row: Option<PoolRow>, now: int, cfg: Config): Option<real>
  {
    match SignalB(market, lockers, row, now, cfg)
    case None => None
    case Some(event) => Some(event.confidence)
  }

  /** Signal B in terms of what the lockers contribute. */
  lemma ConfidenceIs(market: Market, lockers: seq<Locker>, row: Option<PoolRow>, now: int, cfg: Config)
    ensures
      var safe := market.lpBurnedPct + LockedPct(lockers, row, now, cfg);
      ConfidenceOf(market, lockers, row, now, cfg) ==
      if PoolUsdOf(market, row) < cfg.minPoolUsd || safe >= cfg.lpSafeFloor then None
      else
        var bonus := ProximityBonus(NearestUnlock(lockers, now), cfg);
        Some(Clamp(SignalBBase(safe, market.providers, cfg) + bonus, 0.50, 0.75))
  {
    hide ActiveLockedPct, NearestUnlock, ProximityBonus, SignalBBase;
  }

  function PoolUsdOf(market: Market, row: Option<PoolRow>): real {
    if row.Some? then row.value.liquidityUsd else market.liquidityUsd
  }

  function LockedPct(lockers: seq<Locker>, row: Option<PoolRow>, now: int, cfg: Config): real {
    ActiveLockedPct(
      lockers, if row.Some? then row.value.lpTotalSupply else 0.0, now + cfg.minLockHorizonDays * NANOS_PER_DAY)
  }

  lemma ExtensionEffect(lockers: seq<Locker>, i: nat, longer: Locker, row: Option<PoolRow>, now: int, cfg: Config)
    requires i < |lockers| && IsExtended(lockers[i], longer, now)
    ensures
      var after := lockers[i := longer];
      && LockedPct(lockers, row, now, cfg) <= LockedPct(after, row, now, cfg)
      && NoNearer(NearestUnlock(after, now), NearestUnlock(lockers, now))
      && (NearestUnlock(lockers, now).Some? ==> NearestUnlock(lockers, now).value >= 0)
  {
    hide ActiveLockedPct, ActiveLockedRaw, NearestUnlock;
    var horizon := now + cfg.minLockHorizonDays * NANOS_PER_DAY;
    ExtensionLocksMore(lockers, i, longer, now, horizon);
    LockedPctGrows(lockers, lockers[i := longer], if row.Some? then row.value.lpTotalSupply else 0.0, horizon);
    ExtensionUnlocksNoSooner(lockers, i, longer, now);
    NearestUnlockIsFuture(lockers, now);
  }

  /** Extending a lock that has not expired never makes Signal B fire, whatever the other lockers and the
      settings are. */
  lemma ExtensionNeverFires(
    market: Market, lockers: seq<Locker>, i: nat, longer: Locker, row: Option<PoolRow>, now: int, cfg: Config)
    requires i < |lockers| && IsExtended(lockers[i], longer, now)
    requires SignalB(market, lockers[i := longer], row, now, cfg).Some?
    ensures SignalB(market, lockers, row, now, cfg).Some?
  {
    hide LockedPct, NearestUnlock, ProximityBonus, SignalBBase, SignalB;
    ExtensionEffect(lockers, i, longer, row, now, cfg);
    ConfidenceIs(market, lockers, row, now, cfg);
    ConfidenceIs(market, lockers[i := longer], row, now, cfg);
  }

  /** The settings with which extending a lock is never held against the token: a bonus that is not negative,
      no bonus window, or a bonus that the clamping hides. */
  predicate ExtensionIsSafe(cfg: Config) {
    || cfg.expiryBonusMax >= 0.0
    || cfg.minLockHorizonDays == 0
    || (cfg.lpSafeFloor <= 0.0 &&
        (cfg.singleProviderBonus <= 0.0 || cfg.singleProviderBonus + cfg.expiryBonusMax >= 0.25))
  }

  /** Extending this lock makes Signal B fire or raises its confidence. */
  ghost predicate Raises(
    market: Market, lockers: seq<Locker>, i: nat, longer: Locker, row: Option<PoolRow>, now: int, cfg: Config)
  {
    && i < |lockers| && IsExtended(lockers[i], longer, now)
    && var before, after := ConfidenceOf(market, lockers, row, now, cfg),
       ConfidenceOf(market, lockers[i := longer], row, now, cfg);
       after.Some? && (before.None? || before.value < after.value)
  }

  lemma ClampGrows(x: real, y: real)
    requires x <= y
    ensures Clamp(x, 0.50, 0.75) <= Clamp(y, 0.50, 0.75)
  {
  }

  /** With a floor that is not positive and safe settings the clamping hides a negative bonus. */
  lemma HiddenBonus(safe: real, providers: nat, bonus: real, cfg: Config)
    requires ExtensionIsSafe(cfg) && cfg.expiryBonusMax < 0.0 && cfg.minLockHorizonDays > 0 &&
      cfg.expiryBonusMax <= bonus <= 0.0
    ensures Clamp(SignalBBase(safe, providers, cfg) + bonus, 0.50, 0.75) ==
      if providers <= AsU64(cfg.lpProvidersThreshold) && cfg.singleProviderBonus > 0.0 then 0.75 else 0.50
  {
    hide AsU64;
  }

  lemma SafeExtension(
    market: Market, lockers: seq<Locker>, i: nat, longer: Locker, row: Option<PoolRow>, now: int, cfg: Config)
    requires ExtensionIsSafe(cfg) && i < |lockers| && IsExtended(lockers[i], longer, now)
    ensures !Raises(market, lockers, i, longer, row, now, cfg)
  {
    hide LockedPct, NearestUnlock, SignalBBase, SignalB, ConfidenceOf, Ramp;
    var after := lockers[i := longer];
    ExtensionEffect(lockers, i, longer, row, now, cfg);
    ConfidenceIs(market, lockers, row, now, cfg);
    ConfidenceIs(market, after, row, now, cfg);
    var safe, safer := market.lpBurnedPct + LockedPct(lockers, row, now, cfg),
      market.lpBurnedPct + LockedPct(after, row, now, cfg);
    var b, c := ProximityBonus(NearestUnlock(lockers, now), cfg), ProximityBonus(NearestUnlock(after, now), cfg);
    BonusFollowsDistance(NearestUnlock(after, now), NearestUnlock(lockers, now), cfg);
    BaseFalls(safe, safer, market.providers, cfg);
    if cfg.expiryBonusMax >= 0.0 || cfg.minLockHorizonDays == 0 {
      assert c <= b;
      ClampGrows(SignalBBase(safer, market.providers, cfg) + c, SignalBBase(safe, market.providers, cfg) + b);
    } else {
      HiddenBonus(safe, market.providers, b, cfg);
      HiddenBonus(safer, market.providers, c, cfg);
    }
  }

  /** A market on which, for all other settings, losing the bonus raises the confidence. */
  function UnsafeMarket(cfg: Config): Market {
    if cfg.lpSafeFloor > 0.0 then Market(0.0, cfg.minPoolUsd, AsU64(cfg.lpProvidersThreshold) + 1)
    else Market(cfg.lpSafeFloor - 1.0, cfg.minPoolUsd, 0)
  }

  lemma BonusShows(cfg: Config)
    requires !ExtensionIsSafe(cfg)
    ensures
      var market := UnsafeMarket(cfg);
      var base := SignalBBase(market.lpBurnedPct, market.providers, cfg);
      market.lpBurnedPct < cfg.lpSafeFloor && Clamp(base + cfg.expiryBonusMax, 0.50, 0.75) < Clamp(base, 0.50, 0.75)
  {
    hide AsU64;
    if cfg.lpSafeFloor > 0.0 {
      assert cfg.lpSafeFloor / cfg.lpSafeFloor == 1.0;
      assert SignalBBase(0.0, AsU64(cfg.lpProvidersThreshold) + 1, cfg) == 0.75;
    }
  }

  /** A lock of nothing, alone: due now, or permanent. */
  lemma LockOfNothing(cfg: Config)
    requires cfg.minLockHorizonDays > 0
    ensures LockedPct([Locker(0, Some(1))], None, 0, cfg) == LockedPct([Locker(0, None)], None, 0, cfg) == 0.0
    ensures ProximityBonus(NearestUnlock([Locker(0, Some(1))], 0), cfg) == cfg.expiryBonusMax
    ensures ProximityBonus(NearestUnlock([Locker(0, None)], 0), cfg) == 0.0
  {
    var due, permanent := [Locker(0, Some(1))], [Locker(0, None)];
    assert due[..0] == [] && permanent[..0] == [];
    assert NearestUnlock(due, 0) == Some(0) && NearestUnlock(permanent, 0) == None;
    RampIs(0, 2 * cfg.minLockHorizonDays, cfg.expiryBonusMax);
    hide NearestUnlock, Ramp, ActiveLockedRaw;
  }

  /** For all other settings making the only lock of nothing permanent raises the confidence. */
  lemma UnsafeExtension(cfg: Config) returns (market: Market)
    requires !ExtensionIsSafe(cfg)
    ensures Raises(market, [Locker(0, Some(1))], 0, Locker(0, None), None, 0, cfg)
  {
    hide SignalB, ConfidenceOf, NearestUnlock, ProximityBonus, SignalBBase, LockedPct, AsU64, Clamp;
    market := UnsafeMarket(cfg);
    var before, longer := [Locker(0, Some(1))], Locker(0, None);
    assert before[0 := longer] == [longer];
    ConfidenceIs(market, before, None, 0, cfg);
    ConfidenceIs(market, [longer], None, 0, cfg);
    LockOfNothing(cfg);
    BonusShows(cfg);
  }

  /** Extending a lock that has not expired never makes Signal B fire and never raises its confidence, for
      any market and any lockers, exactly for those settings. */
  lemma ExtensionNeverRaisesRiskIff(cfg: Config)
    ensures ExtensionIsSafe(cfg) <==>
      forall market: Market, lockers: seq<Locker>, i: nat, longer: Locker, row: Option<PoolRow>, now: int ::
        !Raises(market, lockers, i, longer, row, now, cfg)
  {
    if ExtensionIsSafe(cfg) {
      forall market: Market, lockers: seq<Locker>, i: nat, longer: Locker, row: Option<PoolRow>, now: int
        ensures !Raises(market, lockers, i, longer, row, now, cfg)
      {
        if i < |lockers| && IsExtended(lockers[i], longer, now) {
          SafeExtension(market, lockers, i, longer, row, now, cfg);
        }
      }
    } else {
      var market := UnsafeExtension(cfg);
    }
  }

  // ---------------------------------------------------------------------------------------------
  // Moving an expired lock
  // ---------------------------------------------------------------------------------------------

  /** The same lock, expired so far, with any other unlock time. */
  predicate IsRelocked(locker: Locker, moved: Locker, now: int) {
    moved.amountRaw == locker.amountRaw && locker.unlockAt.Some? && locker.unlockAt.value <= now
  }

  predicate Closer(after: Option<int>, before: Option<int>) {
    after.Some? && (before.None? || after.value < before.value)
  }

  lemma {:induction false} RelockedNearest(lockers: seq<Locker>, i: nat, moved: Locker, now: int)
    requires i < |lockers| && IsRelocked(lockers[i], moved, now)
    ensures NearestUnlock(lockers[i := moved], now) == Nearer(NearestUnlock(lockers, now), UnlockDays(moved, now))
  {
    hide UnlockDays;
    var last := |lockers| - 1;
    if i < last {
      assert lockers[i := moved][..last] == lockers[..last][i := moved];
      RelockedNearest(lockers[..last], i, moved, now);
    } else {
      assert lockers[i := moved][..last] == lockers[..last];
      assert UnlockDays(lockers[i], now) == None by { ExpiredHasNoDays(lockers[i], moved, now); }
    }
  }

  lemma ExpiredHasNoDays(locker: Locker, moved: Locker, now: int)
    requires IsRelocked(locker, moved, now)
    ensures UnlockDays(locker, now) == None
  {
  }

  lemma {:induction false} NearestUnlockMeaning(lockers: seq<Locker>, now: int)
    ensures forall j :: 0 <= j < |lockers| && UnlockDays(lockers[j], now).Some? ==>
      NearestUnlock(lockers, now).Some? && NearestUnlock(lockers, now).value <= UnlockDays(lockers[j], now).value
    ensures NearestUnlock(lockers, now).Some? ==>
      exists j :: 0 <= j < |lockers| && UnlockDays(lockers[j], now) == NearestUnlock(lockers, now)
  {
    hide UnlockDays;
    if lockers == [] {
    } else {
      var front, last := lockers[..|lockers| - 1], |lockers| - 1;
      NearestUnlockMeaning(front, now);
      assert forall j :: 0 <= j < last ==> lockers[j] == front[j];
      if NearestUnlock(lockers, now).Some? && NearestUnlock(lockers, now) != UnlockDays(lockers[last], now) {
        var j :| 0 <= j < |front| && UnlockDays(front[j], now) == NearestUnlock(front, now);
        assert UnlockDays(lockers[j], now) == NearestUnlock(lockers, now);
      }
    }
  }

  /** Moving an expired lock brings the nearest unlock closer exactly if its new time lies in the future and
      fewer days away than the unlock of every other locker. */
  lemma RelockBringsCloserIff(lockers: seq<Locker>, i: nat, moved: Locker, now: int)
    requires i < |lockers| && IsRelocked(lockers[i], moved, now)
    ensures
      Closer(NearestUnlock(lockers[i := moved], now), NearestUnlock(lockers, now)) <==>
      && UnlockDays(moved, now).Some?
      && forall j :: 0 <= j < |lockers| && j != i && UnlockDays(lockers[j], now).Some? ==>
           UnlockDays(moved, now).value < UnlockDays(lockers[j], now).value
  {
    ExpiredHasNoDays(lockers[i], moved, now);
    hide UnlockDays, NearestUnlock;
    RelockedNearest(lockers, i, moved, now);
    NearestUnlockMeaning(lockers, now);
  }

  /** It raises the proximity bonus exactly if, moreover, the new time lies in the bonus window and the
      bonus is positive. */
  lemma RelockRaisesBonusIff(lockers: seq<Locker>, i: nat, moved: Locker, now: int, cfg: Config)
    requires i < |lockers| && IsRelocked(lockers[i], moved, now)
    ensures
      var before, after := NearestUnlock(lockers, now), NearestUnlock(lockers[i := moved], now);
      ProximityBonus(after, cfg) > ProximityBonus(before, cfg) <==>
      Closer(after, before) && after.value < 2 * cfg.minLockHorizonDays && cfg.expiryBonusMax > 0.0
  {
    RelockedNearest(lockers, i, moved, now);
    NearestUnlockIsFuture(lockers, now);
    NearestUnlockIsFuture(lockers[i := moved], now);
    hide NearestUnlock, UnlockDays, Ramp;
    var before, after := NearestUnlock(lockers, now), NearestUnlock(lockers[i := moved], now);
    if Closer(after, before) {
      BonusFollowsDistance(before, after, cfg);
      var window := 2 * cfg.minLockHorizonDays;
      if after.value < window {
        RampFalls(after.value, after.value, window, cfg.expiryBonusMax);
        if before.Some? && before.value < window {
          RampFalls(after.value, before.value, window, cfg.expiryBonusMax);
        }
      }
    } else {
      assert after == before;
    }
  }

  lemma {:induction false} RelockedRaw(lockers: seq<Locker>, i: nat, moved: Locker, now: int, horizon: int)
    requires i < |lockers| && IsRelocked(lockers[i], moved, now) && now <= horizon
    ensures ActiveLockedRaw(lockers, horizon) <= ActiveLockedRaw(lockers[i := moved], horizon)
    ensures !OutlastsHorizon(moved, horizon) ==>
      ActiveLockedRaw(lockers[i := moved], horizon) == ActiveLockedRaw(lockers, horizon)
  {
    var last := |lockers| - 1;
    if i < last {
      assert lockers[i := moved][..last] == lockers[..last][i := moved];
      RelockedRaw(lockers[..last], i, moved, now, horizon);
    } else {
      assert lockers[i := moved][..last] == lockers[..last];
    }
  }

  lemma RelockedPct(lockers: seq<Locker>, i: nat, moved: Locker, row: Option<PoolRow>, now: int, cfg: Config)
    requires i < |lockers| && IsRelocked(lockers[i], moved, now)
    ensures LockedPct(lockers, row, now, cfg) <= LockedPct(lockers[i := moved], row, now, cfg)
    ensures !OutlastsHorizon(moved, now + cfg.minLockHorizonDays * NANOS_PER_DAY) ==>
      LockedPct(lockers[i := moved], row, now, cfg) == LockedPct(lockers, row, now, cfg)
  {
    hide ActiveLockedPct;
    var horizon := now + cfg.minLockHorizonDays * NANOS_PER_DAY;
    var supply := if row.Some? then row.value.lpTotalSupply else 0.0;
    RelockedRaw(lockers, i, moved, now, horizon);
    LockedPctGrows(lockers, lockers[i := moved], supply, horizon);
    if !OutlastsHorizon(moved, horizon) {
      LockedPctGrows(lockers[i := moved], lockers, supply, horizon);
    }
  }

  /** Moving an expired lock never makes Signal B fire. It raises the confidence exactly if the bonus gains more
      than the locked share takes away and the clamping lets it show; so only a lock that brings the nearest
      unlock closer, into the bonus window of a positive bonus, does. A lock that stays within the horizon
      takes nothing away. */
  lemma RelockRaisesRiskIff(
    market: Market, lockers: seq<Locker>, i: nat, moved: Locker, row: Option<PoolRow>, now: int, cfg: Config)
    requires i < |lockers| && IsRelocked(lockers[i], moved, now)
    ensures
      var before, after := ConfidenceOf(market, lockers, row, now, cfg),
        ConfidenceOf(market, lockers[i := moved], row, now, cfg);
      var days, days' := NearestUnlock(lockers, now), NearestUnlock(lockers[i := moved], now);
      var bonus, bonus' := ProximityBonus(days, cfg), ProximityBonus(days', cfg);
      var base := SignalBBase(market.lpBurnedPct + LockedPct(lockers, row, now, cfg), market.providers, cfg);
      var safe' := market.lpBurnedPct + LockedPct(lockers[i := moved], row, now, cfg);
      var base' := SignalBBase(safe', market.providers, cfg);
      && base' <= base
      && (!OutlastsHorizon(moved, now + cfg.minLockHorizonDays * NANOS_PER_DAY) ==> base' == base)
      && (after.Some? ==>
           && before.Some?
           && (after.value > before.value <==>
               bonus' - bonus > base - base' && base + bonus < 0.75 && base' + bonus' > 0.50)
           && (after.value > before.value ==>
                Closer(days', days) && days'.value < 2 * cfg.minLockHorizonDays && cfg.expiryBonusMax > 0.0))
  {
    hide ActiveLockedPct, LockedPct, NearestUnlock, SignalBBase, SignalB, ConfidenceOf, ProximityBonus, UnlockDays;
    RelockedPct(lockers, i, moved, row, now, cfg);
    BaseFalls(
      market.lpBurnedPct + LockedPct(lockers, row, now, cfg),
      market.lpBurnedPct + LockedPct(lockers[i := moved], row, now, cfg),
      market.providers, cfg);
    RelockRaisesBonusIff(lockers, i, moved, now, cfg);
    ConfidenceIs(market, lockers, row, now, cfg);
    ConfidenceIs(market, lockers[i := moved], row, now, cfg);
  }

  /** With the default settings, for instance, re-locking an expired lock for one day. */
  lemma RelockingExpiredRaisesRisk(cfg: Config)
    requires cfg == Config(0.65, 1500.0, 100, 70.0, 45, 0.15, 1, 0.20)
    ensures
      var market := Market(63.0, 2000.0, 5);
      var expired := SignalB(market, [Locker(1, Some(-1))], None, 0, cfg);
      var relocked := SignalB(market, [Locker(1, Some(NANOS_PER_DAY))], None, 0, cfg);
      expired.Some? && relocked.Some? && expired.value.confidence < relocked.value.confidence
  {
    var expired, relocked := [Locker(1, Some(-1))], [Locker(1, Some(NANOS_PER_DAY))];
    assert expired[..0] == [] && relocked[..0] == [];
    assert NearestUnlock(expired, 0) == None;
    assert NearestUnlock(relocked, 0) == Some(1);
  }

  // ---------------------------------------------------------------------------------------------
  // One pool
  // ---------------------------------------------------------------------------------------------

  /** A market of the token with the query results the loop fetches for it. */
  datatype Pool = Pool(
    market: Market,
    row: Fetch<Option<PoolRow>>,
    fastRows: Fetch<seq<DrainRow>>,
    slowRows: Fetch<seq<DrainRow>>)

  /** What all pools of one evaluation share. */
  datatype Token = Token(lockers: seq<Locker>, established: bool, now: int)

  /** A failed pool-row query other than a Postgres failure counts as a pool that is not indexed. */
  function PoolRowOf(pool: Pool): Option<PoolRow> { if pool.row.Rows? then pool.row.rows else None }

  function PoolUsd(pool: Pool): real {
    if PoolRowOf(pool).Some? then PoolRowOf(pool).value.liquidityUsd else pool.market.liquidityUsd
  }

  /** `is_pool_dead`. */
  predicate IsPoolDead(market: Market, minPoolUsd: real) {
    market.lpBurnedPct >= 100.0 && market.liquidityUsd < minPoolUsd
  }

  function QueryError<T>(fetch: Fetch<T>): DetectorError
    requires !fetch.Rows?
  {
    if fetch.PostgresFailure? then TransientQuery else PermanentQuery
  }

  /** The drain that `evaluate_signal_a` reports on, if any. */
  function ObservedDrain(pool: Pool, cfg: Config): Result<Option<Drain>, DetectorError> {
    var row := PoolRowOf(pool);
    if row.None? || row.value.lifetimeTxs < cfg.minPriorTxs then Ok(None)
    else if !pool.fastRows.Rows? then Err(QueryError(pool.fastRows))
    else if !pool.slowRows.Rows? then Err(QueryError(pool.slowRows))
    else Ok(MergedDrain(WorstDrain(pool.fastRows.rows), WorstDrain(pool.slowRows.rows)))
  }

  const SUPPRESSION: Event := Event(0.10, Info, Some(0), true)

  /** What one pass of the loop pushes: Signal A, or what takes its place. */
  function PoolEvents(pool: Pool, token: Token, cfg: Config, sigmoid: Sigmoid): Result<seq<Event>, DetectorError> {
    if pool.row.PostgresFailure? then Err(TransientQuery)
    else if PoolUsd(pool) < cfg.minPoolUsd then Ok([])
    else match ObservedDrain(pool, cfg)
      case Err(e) => Err(e)
      case Ok(Some(drain)) => Ok([SignalAEvent(DrainConfidence(drain, cfg, sigmoid))])
      case Ok(None) =>
        if IsPoolDead(pool.market, cfg.minPoolUsd) then Ok([])
        else if token.established then Ok([SUPPRESSION])
        else match SignalB(pool.market, token.lockers, PoolRowOf(pool), token.now, cfg)
          case Some(event) => Ok([event])
          case None => Ok([])
  }

  /** What one pass of the loop pushes, in terms of the inputs. A failed pool query ends it; a pool below the dust
      filter is skipped; a seasoned pool needs both drain queries and reports a drain if there is one; a pool that is
      all burned and dust in the market's own figures reports nothing, an established protocol the audit record, and
      any other pool Signal B if it is unsafe. */
  lemma PoolByInputs(pool: Pool, token: Token, cfg: Config, sigmoid: Sigmoid, row: Option<PoolRow>)
    requires pool.row.Rows? ==> row == pool.row.rows
    requires !pool.row.Rows? ==> row == None
    ensures
      var answer := PoolEvents(pool, token, cfg, sigmoid);
      var usd := if row.Some? then row.value.liquidityUsd else pool.market.liquidityUsd;
      var seasoned := row.Some? && row.value.lifetimeTxs >= cfg.minPriorTxs;
      var read := pool.fastRows.Rows? && pool.slowRows.Rows?;
      var supply := if row.Some? then row.value.lpTotalSupply else 0.0;
      if pool.row.PostgresFailure? then answer == Err(TransientQuery)
      else if usd < cfg.minPoolUsd then answer == Ok([])
      else if seasoned && !read then
        answer == Err(
          if pool.fastRows.PostgresFailure? || (pool.fastRows.Rows? && pool.slowRows.PostgresFailure?)
          then TransientQuery else PermanentQuery)
      else if seasoned && (pool.fastRows.rows != [] || pool.slowRows.rows != []) then
        var drain := MergedDrain(WorstDrain(pool.fastRows.rows), WorstDrain(pool.slowRows.rows));
        drain.Some? && answer == Ok([SignalAEvent(DrainConfidence(drain.value, cfg, sigmoid))])
      else if pool.market.lpBurnedPct >= 100.0 && pool.market.liquidityUsd < cfg.minPoolUsd then answer == Ok([])
      else if token.established then answer == Ok([Event(0.10, Info, Some(0), true)])
      else if IsUnsafe(pool.market, token.lockers, supply, token.now, cfg) then
        var event := SignalB(pool.market, token.lockers, row, token.now, cfg);
        event.Some? && answer == Ok([event.value])
      else answer == Ok([])
  {
    SignalBFiresIff(pool.market, token.lockers, row, token.now, cfg);
    hide DrainConfidence, SignalAEvent, SignalB, IsUnsafe;
    if pool.fastRows.Rows? && pool.fastRows.rows != [] {
      WorstDrainMeaning(pool.fastRows.rows, 0);
    }
    if pool.slowRows.Rows? && pool.slowRows.rows != [] {
      WorstDrainMeaning(pool.slowRows.rows, 0);
    }
  }

  predicate IsSignalB(event: Event) { event.latentRisk == Some(1) }

  predicate IsSignalA(event: Event) { event.latentRisk == Some(0) && !event.suppressed }

  /** At most one event per pool; Signal A exactly for an observed drain; no Signal B for a dead pool or
      an established protocol; an audit record exactly for a suppressed Signal B. */
  lemma PoolEventsMeaning(pool: Pool, token: Token, cfg: Config, sigmoid: Sigmoid)
    requires PoolEvents(pool, token, cfg, sigmoid).Ok?
    ensures
      var events := PoolEvents(pool, token, cfg, sigmoid).value;
      var drained := PoolUsd(pool) >= cfg.minPoolUsd && ObservedDrain(pool, cfg).value.Some?;
      var dead := IsPoolDead(pool.market, cfg.minPoolUsd);
      && |events| <= 1
      && ((exists e :: e in events && IsSignalA(e)) <==> drained)
      && ((exists e :: e in events && IsSignalB(e)) ==> !drained && !dead && !token.established)
      && ((exists e :: e in events && e.suppressed) <==>
          PoolUsd(pool) >= cfg.minPoolUsd && !drained && !dead && token.established)
  {
    hide DrainConfidence, SignalBConfidence, ActiveLockedPct, NearestUnlock, WorstDrain;
    var events := PoolEvents(pool, token, cfg, sigmoid).value;
    if events != [] {
      assert events[0] in events && events == [events[0]];
    }
  }

  /** Superseding Signal B by Signal A keeps or raises the confidence reported for a pool exactly if the
      reported drain is a number or seen in the slow window only: a NaN row reports zero. */
  lemma SupersessionNeverLowersIff(
    drain: Drain, market: Market, lockers: seq<Locker>, row: Option<PoolRow>, now: int, cfg: Config, sigmoid: Sigmoid)
    requires SignalB(market, lockers, row, now, cfg).Some?
    ensures
      var a := SignalAEvent(DrainConfidence(drain, cfg, sigmoid)).confidence;
      var b := SignalB(market, lockers, row, now, cfg).value.confidence;
      b <= a <==> drain.trickle || drain.row.cumulative.Fin?
    ensures drain.trickle || drain.row.cumulative.Fin? ==>
      0.75 <= SignalAEvent(DrainConfidence(drain, cfg, sigmoid)).confidence <= 1.0
  {
    hide ActiveLockedPct, NearestUnlock, ProximityBonus;
  }

  /** The severity of a drain is the band of its confidence exactly if the drain is a number or seen in the slow
      window only. A NaN row is reported with zero confidence and yet Critical. */
  lemma DrainIsBandedIff(drain: Drain, cfg: Config, sigmoid: Sigmoid)
    ensures
      var event := SignalAEvent(DrainConfidence(drain, cfg, sigmoid));
      && (event.severity == Band(event.confidence) <==> drain.trickle || drain.row.cumulative.Fin?)
      && (event == Event(0.0, Critical, Some(0), false) <==> !drain.trickle && drain.row.cumulative.NaN?)
  {
  }

  /** In particular for every NaN row outside the slow window. */
  lemma NaNDrainIsCriticalZero(actor: string, cfg: Config, sigmoid: Sigmoid)
    ensures SignalAEvent(DrainConfidence(Drain(DrainRow(NaN, actor), false), cfg, sigmoid)) ==
      Event(0.0, Critical, Some(0), false)
  {
  }

  // ---------------------------------------------------------------------------------------------
  // The loop over the pools
  // ---------------------------------------------------------------------------------------------

  function LoopEvents(pools: seq<Pool>, token: Token, cfg: Config, sigmoid: Sigmoid)
    : Result<seq<Event>, DetectorError>
  {
    if pools == [] then Ok([])
    else match PoolEvents(pools[0], token, cfg, sigmoid)
      case Err(e) => Err(e)
      case Ok(first) =>
        match LoopEvents(pools[1..], token, cfg, sigmoid)
        case Err(e) => Err(e)
        case Ok(rest) => Ok(first + rest)
  }

  datatype Graduation = Graduation(age: int, tiers: Tiers)

  /** The graduation pass on one event: it looks at the latent-risk metric only. */
  function AfterGraduation(event: Event, graduation: Option<Graduation>): Event {
    if graduation.Some? && event.latentRisk == Some(0)
    then GraduationStep(event, graduation.value.age, graduation.value.tiers, 1.0)
    else event
  }

  function AllAfterGraduation(events: seq<Event>, graduation: Option<Graduation>): (all: seq<Event>)
    ensures |all| == |events|
    ensures forall k :: 0 <= k < |events| ==> all[k] == AfterGraduation(events[k], graduation)
  {
    if events == [] then []
    else AllAfterGraduation(events[..|events| - 1], graduation) + [AfterGraduation(events[|events| - 1], graduation)]
  }

  const NO_POOL: Event := Event(0.02, Info, None, false)

  /** What `evaluate` returns on Solana. */
  function Outcome(pools: seq<Pool>, token: Token, graduation: Option<Graduation>, cfg: Config, sigmoid: Sigmoid)
    : Result<seq<Event>, DetectorError>
  {
    if pools == [] then Ok([NO_POOL])
    else match LoopEvents(pools, token, cfg, sigmoid)
      case Err(e) => Err(e)
      case Ok(events) => Ok(AllAfterGraduation(events, graduation))
  }

  ghost function Views(events: seq<AnomalyEvent>): (views: seq<Event>)
    reads events
    ensures |views| == |events|
    ensures forall k :: 0 <= k < |events| ==> views[k] == events[k].View()
  {
    if events == [] then [] else Views(events[..|events| - 1]) + [events[|events| - 1].View()]
  }

  ghost predicate Distinct(events: seq<AnomalyEvent>) {
    forall i, j :: 0 <= i < j < |events| ==> events[i] != events[j]
  }

  /** The graduation pass over the event list, in place. */
  method AmplifyGraduated(events: seq<AnomalyEvent>, graduation: Option<Graduation>)
    requires Distinct(events)
    modifies events
    ensures Views(events) == AllAfterGraduation(old(Views(events)), graduation)
  {
    hide Graduated, Band;
    if graduation.None? {
      return;
    }
    for k := 0 to |events|
      invariant forall i :: 0 <= i < k ==> events[i].View() == AfterGraduation(old(events[i].View()), graduation)
      invariant forall i :: k <= i < |events| ==> events[i].View() == old(events[i].View())
    {
      var event := events[k];
      if event.latentRisk == Some(0) {
        var amplified := Graduated(event.confidence, graduation.value.age, graduation.value.tiers, 1.0);
        if amplified > event.confidence && NewConfidence(amplified).Some? {
          event.confidence := amplified;
          event.severity := Band(amplified);
        }
      }
    }
  }

  function Prepend(done: seq<Event>, rest: Result<seq<Event>, DetectorError>): Result<seq<Event>, DetectorError> {
    match rest
    case Err(e) => Err(e)
    case Ok(events) => Ok(done + events)
  }

  lemma LoopEnd(pools: seq<Pool>, done: seq<Event>, token: Token, cfg: Config, sigmoid: Sigmoid)
    requires pools == []
    ensures Prepend(done, LoopEvents(pools, token, cfg, sigmoid)) == Ok(done)
  {
    assert done + [] == done;
  }

  lemma PrependNothing(rest: Result<seq<Event>, DetectorError>)
    ensures Prepend([], rest) == rest
  {
    if rest.Ok? {
      assert [] + rest.value == rest.value;
    }
  }

  lemma LoopStep(pools: seq<Pool>, k: nat, done: seq<Event>, token: Token, cfg: Config, sigmoid: Sigmoid)
    requires k < |pools|
    ensures
      Prepend(done, LoopEvents(pools[k..], token, cfg, sigmoid)) ==
      match PoolEvents(pools[k], token, cfg, sigmoid)
      case Err(e) => Err(e)
      case Ok(now) => Prepend(done + now, LoopEvents(pools[k + 1..], token, cfg, sigmoid))
  {
    hide PoolEvents;
    assert pools[k..][1..] == pools[k + 1..];
    var rest := LoopEvents(pools[k + 1..], token, cfg, sigmoid);
    if PoolEvents(pools[k], token, cfg, sigmoid).Ok? && rest.Ok? {
      assert done + (PoolEvents(pools[k], token, cfg, sigmoid).value + rest.value) ==
        done + PoolEvents(pools[k], token, cfg, sigmoid).value + rest.value;
    }
  }

  function Listed(event: Option<Event>): seq<Event> { if event.Some? then [event.value] else [] }

  /** The two signals of one pool, in the order of the loop body. */
  method EvaluatePool(pool: Pool, token: Token, cfg: Config, sigmoid: Sigmoid)
    returns (error: Option<DetectorError>, signalA: Option<Event>, signalB: Option<Event>)
    ensures error.Some? ==> PoolEvents(pool, token, cfg, sigmoid) == Err(error.value)
    ensures error.None? ==> PoolEvents(pool, token, cfg, sigmoid) == Ok(Listed(signalA) + Listed(signalB))
    ensures signalA.None? || signalB.None?
  {
    hide DrainConfidence, SignalBConfidence, ActiveLockedPct, NearestUnlock, WorstDrain, SignalAEvent;
    error, signalA, signalB := None, None, None;
    assert Listed(signalA) + Listed(signalB) == [];
    if pool.row.PostgresFailure? {
      return Some(TransientQuery), None, None;
    }
    var row := if pool.row.OtherFailure? then None else pool.row.rows;
    var poolUsd := if row.Some? then row.value.liquidityUsd else pool.market.liquidityUsd;
    if poolUsd < cfg.minPoolUsd {
      return;
    }
    var isDead := pool.market.lpBurnedPct >= 100.0 && pool.market.liquidityUsd < cfg.minPoolUsd;
    if row.Some? && row.value.lifetimeTxs >= cfg.minPriorTxs {
      if !pool.fastRows.Rows? {
        return Some(QueryError(pool.fastRows)), None, None;
      }
      if !pool.slowRows.Rows? {
        return Some(QueryError(pool.slowRows)), None, None;
      }
      var drain := MergedDrain(WorstDrain(pool.fastRows.rows), WorstDrain(pool.slowRows.rows));
      if drain.Some? {
        signalA := Some(SignalAEvent(DrainConfidence(drain.value, cfg, sigmoid)));
      }
    }
    if signalA.Some? {
      signalB := None;
    } else if isDead {
      signalB := None;
    } else if token.established {
      signalB := Some(SUPPRESSION);
    } else {
      signalB := SignalB(pool.market, token.lockers, row, token.now, cfg);
    }
    assert [] + Listed(signalB) == Listed(signalB);
    assert Listed(signalA) + [] == Listed(signalA);
  }

  /** `events.push(..)`. */
  method Push(events: seq<AnomalyEvent>, event: Option<Event>) returns (pushed: seq<AnomalyEvent>)
    requires Distinct(events)
    ensures Distinct(pushed) && Views(pushed) == Views(events) + Listed(event)
    ensures forall i :: 0 <= i < |pushed| ==> (i < |events| && pushed[i] == events[i]) || fresh(pushed[i])
  {
    pushed := events;
    if event.Some? {
      var added := new AnomalyEvent(event.value);
      pushed := events + [added];
      assert pushed[..|events|] == events;
    } else {
      assert Views(events) + [] == Views(events);
    }
  }

  /** `evaluate`: the loop pushes fresh events pool by pool, the graduation pass changes them in place. */
  method Evaluate(pools: seq<Pool>, token: Token, graduation: Option<Graduation>, cfg: Config, sigmoid: Sigmoid)
    returns (result: Result<seq<AnomalyEvent>, DetectorError>)
    ensures result.Err? ==> Outcome(pools, token, graduation, cfg, sigmoid) == Err(result.error)
    ensures result.Ok? ==> Distinct(result.value)
    ensures result.Ok? ==> forall i :: 0 <= i < |result.value| ==> fresh(result.value[i])
    ensures result.Ok? ==> Outcome(pools, token, graduation, cfg, sigmoid) == Ok(Views(result.value))
  {
    hide PoolEvents, AfterGraduation, LoopEvents, Prepend, Views;
    if pools == [] {
      var only := Push([], Some(NO_POOL));
      assert [] + Listed(Some(NO_POOL)) == [NO_POOL];
      assert |Views([])| == 0;
      return Ok(only);
    }
    var events: seq<AnomalyEvent> := [];
    assert pools[0..] == pools;
    PrependNothing(LoopEvents(pools, token, cfg, sigmoid));
    var k := 0;
    while k < |pools|
      invariant k <= |pools|
      invariant Distinct(events) && forall i :: 0 <= i < |events| ==> fresh(events[i])
      invariant LoopEvents(pools, token, cfg, sigmoid) ==
        Prepend(Views(events), LoopEvents(pools[k..], token, cfg, sigmoid))
    {
      LoopStep(pools, k, Views(events), token, cfg, sigmoid);
      var error, signalA, signalB := EvaluatePool(pools[k], token, cfg, sigmoid);
      if error.Some? {
        return Err(error.value);
      }
      ghost var before := Views(events);
      events := Push(events, signalA);
      events := Push(events, signalB);
      assert Views(events) == before + (Listed(signalA) + Listed(signalB));
      k := k + 1;
    }
    LoopEnd(pools[k..], Views(events), token, cfg, sigmoid);
    AmplifyGraduated(events, graduation);
    return Ok(events);
  }

  // ---------------------------------------------------------------------------------------------
  // Guarantees of a whole evaluation
  // ---------------------------------------------------------------------------------------------

  lemma {:induction false} AtMostOneEventPerPool(pools: seq<Pool>, token: Token, cfg: Config, sigmoid: Sigmoid)
    requires LoopEvents(pools, token, cfg, sigmoid).Ok?
    ensures |LoopEvents(pools, token, cfg, sigmoid).value| <= |pools|
    ensures forall e :: e in LoopEvents(pools, token, cfg, sigmoid).value ==>
      exists p :: p in pools && PoolEvents(p, token, cfg, sigmoid) == Ok([e])
  {
    hide PoolEvents;
    if pools == [] {
    } else {
      AtMostOneEventPerPool(pools[1..], token, cfg, sigmoid);
      PoolEventsMeaning(pools[0], token, cfg, sigmoid);
      var first := PoolEvents(pools[0], token, cfg, sigmoid).value;
      forall e | e in LoopEvents(pools, token, cfg, sigmoid).value
        ensures exists p :: p in pools && PoolEvents(p, token, cfg, sigmoid) == Ok([e])
      {
        if e in first {
          assert pools[0] in pools && first == [e];
        } else {
          var p :| p in pools[1..] && PoolEvents(p, token, cfg, sigmoid) == Ok([e]);
          assert p in pools;
        }
      }
    }
  }

  /** Without pools there is one event, of 0.02 and Info. */
  lemma OutcomeWithoutPools(token: Token, graduation: Option<Graduation>, cfg: Config, sigmoid: Sigmoid)
    ensures Outcome([], token, graduation, cfg, sigmoid) == Ok([Event(0.02, Info, None, false)])
  {
  }

  /** The graduation pass changes an event exactly if its latent-risk metric is zero and the recency
      multiplier lifts it: Signal A events and, against the documentation, suppression records. */
  lemma GraduationTouchesIff(event: Event, graduation: Graduation)
    requires 0.0 <= event.confidence <= 1.0
    ensures
      var after := AfterGraduation(event, Some(graduation));
      var lifted := Min(event.confidence * RecencyMultiplier(graduation.age, graduation.tiers), 1.0);
      && (after != event <==> event.latentRisk == Some(0) && lifted > event.confidence)
      && (after != event ==> after.confidence == lifted && after.severity == Band(lifted))
      && event.confidence <= after.confidence <= 1.0
  {
    hide RecencyMultiplier;
    var product := event.confidence * RecencyMultiplier(graduation.age, graduation.tiers);
    assert Graduated(event.confidence, graduation.age, graduation.tiers, 1.0) == Max(Min(product, 1.0), 0.0);
  }

  lemma SuppressionIsAmplified()
    ensures
      AfterGraduation(SUPPRESSION, Some(Graduation(0, Tiers(1.50, 1.30, 1.15, 1.05, 1.0)))) ==
      SUPPRESSION.(confidence := 0.15)
  {
  }
}
