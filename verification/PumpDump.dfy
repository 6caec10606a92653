/** The D04 pump-and-dump detector (`d04_pump_dump.rs`): base signal, insider-sell amplifier (Signal C),
    smart-money and graduation amplifiers. Query results are inputs. */
module PumpDump {
  import opened Wrappers
  import opened Signals
  import opened Quotients

  datatype Config = Config(
    volumeMultiplier: real,
    priceSpikePct: real,
    burstThreshold: real,
    minBurstVolume: real,
    marketCapFilter: real,
    insiderSellPct: real,
    insiderAmplifier: real,
    holderFloorPct: real,
    tier1Delta: real,
    tier2Delta: real,
    tier2MinCount: nat)

  /** A query: rows, a Postgres failure, or another storage failure. */
  datatype Fetch<+T> = Rows(rows: T) | PostgresFailure | OtherFailure

  datatype DetectorError = TransientQuery | MissingDependencyData

  datatype BaseSignal = A | B

  function Cap(base: BaseSignal): real { if base == A then 0.95 else 0.85 }

  // ---------------------------------------------------------------------------------------------
  // Insider sold fraction
  // ---------------------------------------------------------------------------------------------

  datatype Holder = Holder(address: string, amountRaw: nat)

  /** A row of insider sells; the query sums raw transfer amounts, so it is never negative. */
  datatype SellRow = SellRow(address: string, soldRaw: real)
  type Sell = s: SellRow | s.soldRaw >= 0.0 witness SellRow("", 0.0)

  type Balances = m: map<string, real> | forall a :: a in m ==> m[a] >= 0.0

  /** The balance lookup: the last entry of an address wins. */
  function BalanceMap(holders: seq<Holder>): Balances {
    if holders == [] then map[]
    else
      var last := holders[|holders| - 1];
      BalanceMap(holders[..|holders| - 1])[last.address := last.amountRaw as real]
  }

  /** An unknown balance counts as fully sold. */
  function SellerBalance(sell: Sell, m: Balances): (b: real)
    ensures b >= 0.0
  {
    if sell.address in m then m[sell.address] else sell.soldRaw
  }

  /** A sold amount as a fraction of a balance, at most one; a zero balance counts as fully sold. */
  function Fraction(sold: real, balance: real): real {
    if balance > 0.0 then Min(sold / balance, 1.0) else 1.0
  }

  function WalletPct(sell: Sell, m: Balances): real { Fraction(sell.soldRaw, SellerBalance(sell, m)) }

  function TotalSold(sells: seq<Sell>): (t: real)
    ensures t >= 0.0
  {
    if sells == [] then 0.0 else TotalSold(sells[..|sells| - 1]) + sells[|sells| - 1].soldRaw
  }

  function SellersBalance(sells: seq<Sell>, m: Balances): (t: real)
    ensures t >= 0.0
  {
    if sells == [] then 0.0
    else SellersBalance(sells[..|sells| - 1], m) + SellerBalance(sells[|sells| - 1], m)
  }

  predicate HasSold(address: string, sells: seq<Sell>) {
    exists k :: 0 <= k < |sells| && sells[k].address == address
  }

  /** What an insider address adds to the denominator beyond the sellers. */
  function IdleBalance(address: string, sells: seq<Sell>, m: Balances): (b: real)
    ensures b >= 0.0
  {
    if !HasSold(address, sells) && address in m then m[address] else 0.0
  }

  function IdleBalances(addresses: seq<string>, sells: seq<Sell>, m: Balances): (t: real)
    ensures t >= 0.0
  {
    if addresses == [] then 0.0
    else IdleBalances(addresses[..|addresses| - 1], sells, m) + IdleBalance(addresses[|addresses| - 1], sells, m)
  }

  function Denominator(addresses: seq<string>, sells: seq<Sell>, m: Balances): (t: real)
    ensures t >= 0.0
  {
    SellersBalance(sells, m) + IdleBalances(addresses, sells, m)
  }

  function SoldFraction(addresses: seq<string>, sells: seq<Sell>, m: Balances): real {
    if sells == [] then 0.0
    else if Denominator(addresses, sells, m) > 0.0
    then Fraction(TotalSold(sells), Denominator(addresses, sells, m))
    else 0.0
  }

  lemma BalanceMapStep(holders: seq<Holder>, h: nat)
    requires h < |holders|
    ensures BalanceMap([]) == map[] && holders[..|holders|] == holders
    ensures BalanceMap(holders[..h + 1]) == BalanceMap(holders[..h])[holders[h].address := holders[h].amountRaw as real]
  {
    assert holders[..h + 1][..h] == holders[..h];
  }

  lemma SellStep(sells: seq<Sell>, s: nat, m: Balances)
    requires s < |sells|
    ensures TotalSold([]) == SellersBalance([], m) == 0.0 && sells[..|sells|] == sells
    ensures TotalSold(sells[..s + 1]) == TotalSold(sells[..s]) + sells[s].soldRaw
    ensures SellersBalance(sells[..s + 1], m) == SellersBalance(sells[..s], m) + SellerBalance(sells[s], m)
  {
    assert sells[..s + 1][..s] == sells[..s];
  }

  lemma IdleStep(addresses: seq<string>, i: nat, sells: seq<Sell>, m: Balances)
    requires i < |addresses|
    ensures IdleBalances([], sells, m) == 0.0 && addresses[..|addresses|] == addresses
    ensures IdleBalances(addresses[..i + 1], sells, m) ==
      IdleBalances(addresses[..i], sells, m) + IdleBalance(addresses[i], sells, m)
  {
    assert addresses[..i + 1][..i] == addresses[..i];
  }

  /** `compute_insider_sold_pct`. */
  method ComputeInsiderSoldPct(addresses: seq<string>, sells: seq<Sell>, holders: seq<Holder>)
    returns (aggregate: real, perWallet: seq<(string, real)>)
    ensures aggregate == SoldFraction(addresses, sells, BalanceMap(holders))
    ensures |perWallet| == |sells|
    ensures forall k :: 0 <= k < |sells| ==>
      perWallet[k] == (sells[k].address, WalletPct(sells[k], BalanceMap(holders)))
  {
    hide BalanceMap, TotalSold, SellersBalance, IdleBalances, Fraction;
    if sells == [] {
      return 0.0, [];
    }
    var balanceMap: Balances := map[];
    for h := 0 to |holders|
      invariant h == 0 ==> balanceMap == map[]
      invariant h > 0 ==> balanceMap == BalanceMap(holders[..h])
    {
      BalanceMapStep(holders, h);
      balanceMap := balanceMap[holders[h].address := holders[h].amountRaw as real];
    }
    BalanceMapOf(holders, balanceMap);
    var totalSold, totalBalance := 0.0, 0.0;
    perWallet := [];
    SellStep(sells, 0, balanceMap);
    for s := 0 to |sells|
      invariant totalSold == TotalSold(sells[..s]) && totalBalance == SellersBalance(sells[..s], balanceMap)
      invariant |perWallet| == s
      invariant forall k :: 0 <= k < s ==> perWallet[k] == (sells[k].address, WalletPct(sells[k], balanceMap))
    {
      var sell := sells[s];
      SellStep(sells, s, balanceMap);
      var balance := if sell.address in balanceMap then balanceMap[sell.address] else sell.soldRaw;
      var walletPct := Fraction(sell.soldRaw, balance);
      totalSold := totalSold + sell.soldRaw;
      totalBalance := totalBalance + balance;
      perWallet := perWallet + [(sell.address, walletPct)];
    }
    NoIdleBalances(sells, balanceMap);
    for i := 0 to |addresses|
      invariant totalBalance == SellersBalance(sells, balanceMap) + IdleBalances(addresses[..i], sells, balanceMap)
    {
      IdleStep(addresses, i, sells, balanceMap);
      var alreadyCounted := exists k :: 0 <= k < |sells| && sells[k].address == addresses[i];
      if !alreadyCounted && addresses[i] in balanceMap {
        totalBalance := totalBalance + balanceMap[addresses[i]];
      }
    }
    assert addresses[..|addresses|] == addresses;
    aggregate := if totalBalance > 0.0 then Fraction(totalSold, totalBalance) else 0.0;
  }

  lemma BalanceMapOf(holders: seq<Holder>, m: Balances)
    requires if holders == [] then m == map[] else m == BalanceMap(holders[..|holders|])
    ensures m == BalanceMap(holders)
  {
    assert holders[..|holders|] == holders;
  }

  lemma NoIdleBalances(sells: seq<Sell>, m: Balances)
    ensures IdleBalances([], sells, m) == 0.0
  {
  }

  /** What one sell counts for: the sold share of the known balance, at most one; all of it for an unknown balance or
      one that is zero. Divisions are written as products. */
  lemma WalletPctMeaning(sell: Sell, m: Balances)
    ensures SellerBalance(sell, m) == if sell.address in m then m[sell.address] else sell.soldRaw
    ensures
      var balance, pct := SellerBalance(sell, m), WalletPct(sell, m);
      if balance > sell.soldRaw then pct * balance == sell.soldRaw else pct == 1.0
  {
    var balance := SellerBalance(sell, m);
    if balance > 0.0 {
      QuotientBound(sell.soldRaw, balance, 1.0);
      assert sell.soldRaw / balance * balance == sell.soldRaw;
    }
  }

  /** An insider counts with its balance if it is known and the address sold nothing. */
  lemma IdleBalanceMeaning(address: string, sells: seq<Sell>, m: Balances)
    ensures address in m && (forall k :: 0 <= k < |sells| ==> sells[k].address != address) ==>
      IdleBalance(address, sells, m) == m[address]
    ensures address !in m || (exists k :: 0 <= k < |sells| && sells[k].address == address) ==>
      IdleBalance(address, sells, m) == 0.0
  {
  }

  /** The aggregate is what was sold of all balances of sellers and idle insiders, at most one, and nothing without
      sells or without balances. */
  lemma SoldFractionMeaning(addresses: seq<string>, sells: seq<Sell>, m: Balances)
    ensures
      var held, sold := SellersBalance(sells, m) + IdleBalances(addresses, sells, m), TotalSold(sells);
      var fraction := SoldFraction(addresses, sells, m);
      && (sells == [] || held == 0.0 ==> fraction == 0.0)
      && (sells != [] && 0.0 < held <= sold ==> fraction == 1.0)
      && (sells != [] && held > sold ==> fraction * held == sold)
  {
    hide SellersBalance, IdleBalances, TotalSold;
    var held, sold := SellersBalance(sells, m) + IdleBalances(addresses, sells, m), TotalSold(sells);
    if held > 0.0 {
      QuotientBound(sold, held, 1.0);
      assert sold / held * held == sold;
    }
  }

  lemma SoldFractionInUnit(addresses: seq<string>, sells: seq<Sell>, m: Balances)
    ensures 0.0 <= SoldFraction(addresses, sells, m) <= 1.0
  {
    var d := Denominator(addresses, sells, m);
    if d > 0.0 {
      QuotientBound(TotalSold(sells), d, 0.0);
    }
  }

  lemma WalletWithinBalance(sell: Sell, m: Balances, bound: real)
    requires bound < 1.0 && WalletPct(sell, m) <= bound
    ensures sell.soldRaw <= bound * SellerBalance(sell, m)
  {
    QuotientBound(sell.soldRaw, SellerBalance(sell, m), bound);
  }

  /** If every seller sold at most a `bound` below one of its balance, so did all sellers together. */
  lemma {:induction false} SoldWithinBalance(sells: seq<Sell>, m: Balances, bound: real)
    requires 0.0 <= bound < 1.0
    requires forall k :: 0 <= k < |sells| ==> WalletPct(sells[k], m) <= bound
    ensures TotalSold(sells) <= bound * SellersBalance(sells, m)
  {
    hide WalletPct, SellerBalance;
    if sells == [] {
    } else {
      var front, last := sells[..|sells| - 1], sells[|sells| - 1];
      SoldWithinBalance(front, m, bound);
      var balance := SellerBalance(last, m);
      assert WalletPct(last, m) <= bound;
      WalletWithinBalance(last, m, bound);
      MulDistributes(bound, SellersBalance(front, m), balance);
    }
  }

  /** Mediant bound: the aggregate never exceeds an upper bound of the per-wallet fractions, hence
      never exceeds the largest of them. */
  lemma SoldFractionBelowLargest(addresses: seq<string>, sells: seq<Sell>, m: Balances, bound: real)
    requires 0.0 <= bound
    requires forall k :: 0 <= k < |sells| ==> WalletPct(sells[k], m) <= bound
    ensures SoldFraction(addresses, sells, m) <= bound
  {
    hide TotalSold, SellersBalance, IdleBalances, WalletPct;
    var d := Denominator(addresses, sells, m);
    if bound < 1.0 && d > 0.0 {
      SoldWithinBalance(sells, m, bound);
      MulMonotone(bound, SellersBalance(sells, m), d);
      QuotientBound(TotalSold(sells), d, bound);
    }
  }

  function LargestPct(sells: seq<Sell>, m: Balances): (largest: real)
    requires sells != []
    ensures forall k :: 0 <= k < |sells| ==> WalletPct(sells[k], m) <= largest
    ensures exists k :: 0 <= k < |sells| && WalletPct(sells[k], m) == largest
  {
    var last := WalletPct(sells[|sells| - 1], m);
    if |sells| == 1 then last else Max(LargestPct(sells[..|sells| - 1], m), last)
  }

  lemma SoldFractionBelowLargestPct(addresses: seq<string>, sells: seq<Sell>, m: Balances)
    requires sells != []
    ensures 0.0 <= SoldFraction(addresses, sells, m) <= LargestPct(sells, m) <= 1.0
  {
    SoldFractionInUnit(addresses, sells, m);
    var k :| 0 <= k < |sells| && WalletPct(sells[k], m) == LargestPct(sells, m);
    WalletPctInUnit(sells[k], m);
    SoldFractionBelowLargest(addresses, sells, m, LargestPct(sells, m));
  }

  lemma WalletPctInUnit(sell: Sell, m: Balances)
    ensures 0.0 <= WalletPct(sell, m) <= 1.0
  {
    if SellerBalance(sell, m) > 0.0 {
      QuotientBound(sell.soldRaw, SellerBalance(sell, m), 0.0);
    }
  }

  lemma {:induction false} IdleBalancesOfConcat(a: seq<string>, b: seq<string>, sells: seq<Sell>, m: Balances)
    ensures IdleBalances(a + b, sells, m) == IdleBalances(a, sells, m) + IdleBalances(b, sells, m)
  {
    if b == [] {
      assert a + b == a;
    } else {
      assert (a + b)[..|a + b| - 1] == a + b[..|b| - 1];
      IdleBalancesOfConcat(a, b[..|b| - 1], sells, m);
    }
  }

  /** The zero-denominator branch fires although something was sold: every seller's recorded balance is
      zero and no idle insider holds anything. */
  predicate UnbackedSales(addresses: seq<string>, sells: seq<Sell>, m: Balances) {
    Denominator(addresses, sells, m) == 0.0 && TotalSold(sells) > 0.0
  }

  /** Adding an insider that did not sell, at any place of the list, never raises the aggregate exactly
      if it is not the first one to give unbacked sales a denominator. */
  lemma AddingNonSellerIff(front: seq<string>, back: seq<string>, address: string, sells: seq<Sell>, m: Balances)
    requires !HasSold(address, sells)
    ensures
      SoldFraction(front + [address] + back, sells, m) <= SoldFraction(front + back, sells, m) <==>
      !(UnbackedSales(front + back, sells, m) && address in m && m[address] > 0.0)
  {
    IdleBalancesOfConcat(front, back, sells, m);
    IdleBalancesOfConcat(front + [address], back, sells, m);
    IdleBalancesOfConcat(front, [address], sells, m);
    assert [address][..0] == [];
    assert IdleBalances([address], sells, m) == IdleBalance(address, sells, m);
    var d, e := Denominator(front + back, sells, m), Denominator(front + [address] + back, sells, m);
    var sold := TotalSold(sells);
    assert e == d + IdleBalance(address, sells, m);
    if d > 0.0 {
      QuotientFalls(sold, d, e);
    } else if e > 0.0 {
      QuotientFalls(sold, e, e);
    }
  }

  predicate SignalCFires(addresses: seq<string>, sells: seq<Sell>, m: Balances, cfg: Config) {
    SoldFraction(addresses, sells, m) >= cfg.insiderSellPct
  }

  /** So, unless the sales are unbacked, a further insider that did not sell cannot make Signal C fire. */
  lemma NonSellerCannotFireSignalC(
    front: seq<string>, back: seq<string>, address: string, sells: seq<Sell>, m: Balances, cfg: Config)
    requires !HasSold(address, sells) && !UnbackedSales(front + back, sells, m)
    requires SignalCFires(front + [address] + back, sells, m, cfg)
    ensures SignalCFires(front + back, sells, m, cfg)
  {
    AddingNonSellerIff(front, back, address, sells, m);
  }

  /** With unbacked sales it can: the seller's recorded balance is zero, so the aggregate is zero until
      an insider that kept everything joins the list. */
  lemma UnbackedSalesCounterexample(cfg: Config)
    requires 0.0 < cfg.insiderSellPct <= 0.5
    ensures
      var m := BalanceMap([Holder("seller", 0), Holder("keeper", 10)]);
      var sells: seq<Sell> := [SellRow("seller", 5.0)];
      && !HasSold("keeper", sells)
      && WalletPct(sells[0], m) == 1.0
      && !SignalCFires(["seller"], sells, m, cfg)
      && SignalCFires(["seller", "keeper"], sells, m, cfg)
  {
    var holders := [Holder("seller", 0), Holder("keeper", 10)];
    assert holders[..1] == [holders[0]] && [holders[0]][..0] == [];
    var m := BalanceMap(holders);
    assert m == map["seller" := 0.0, "keeper" := 10.0] by {
      assert BalanceMap([holders[0]]) == map["seller" := 0.0];
    }
    var sells: seq<Sell> := [SellRow("seller", 5.0)];
    assert sells[..0] == [] && sells[0].address == "seller" && HasSold("seller", sells);
    assert "keeper" != "seller" by { assert |"keeper"| == 6 && "keeper"[0] == 'k'; }
    assert SellersBalance(sells, m) == 0.0 && TotalSold(sells) == 5.0;
    assert ["seller"][..0] == [] && ["seller", "keeper"][..1] == ["seller"];
    assert IdleBalances(["seller"], sells, m) == 0.0;
    assert IdleBalances(["seller", "keeper"], sells, m) == 10.0;
    assert SoldFraction(["seller", "keeper"], sells, m) == 0.5;
  }

  // ---------------------------------------------------------------------------------------------
  // Base signal
  // ---------------------------------------------------------------------------------------------

  datatype BaselineRow = BaselineRow(volume1h: real, median7d: real, priceChange: real)
  datatype BurstRow = BurstRow(volume1h: real, burstRatio: real)
  datatype TierCounts = TierCounts(tier1: nat, tier2: nat, tier3: nat)

  /** The smart-money lookup, and the query for the pre-pump buyers that follows it. */
  datatype SmartMoney = LookupFailed | Lookup(buyers: Fetch<TierCounts>)

  datatype Inputs = Inputs(
    liquidityUsd: real,
    totalSupplyRaw: nat,
    holders: seq<Holder>,
    established: bool,
    baseline: Fetch<Option<BaselineRow>>,
    burst: Fetch<Option<BurstRow>>,
    clusters: Fetch<seq<string>>,
    liquidHolders: Fetch<seq<string>>,
    sells: Fetch<seq<Sell>>,
    smartMoney: Option<SmartMoney>,
    graduationAge: Option<int>,
    tiers: Tiers)

  /** `compute_signal_a_confidence`. */
  function SignalAConfidence(row: BaselineRow, cfg: Config, sigmoid: Sigmoid): (c: real)
    ensures 0.60 <= c <= 0.95
  {
    var volumeRatio := if row.median7d > 0.0 then row.volume1h / row.median7d else 0.0;
    var raw :=
      if cfg.volumeMultiplier > 0.0 && cfg.priceSpikePct > 0.0
      then (volumeRatio / cfg.volumeMultiplier - 1.0) * 0.5 + (row.priceChange / cfg.priceSpikePct - 1.0) * 0.3
      else 0.0;
    Clamp(sigmoid(raw), 0.60, 0.95)
  }

  /** `compute_signal_b_confidence`. */
  function SignalBConfidence(row: BurstRow, cfg: Config): (c: real)
    ensures 0.50 <= c <= 0.75
  {
    Min(0.50 + Max(row.burstRatio - cfg.burstThreshold, 0.0) / 0.10 * 0.25, 0.75)
  }

  /** The confidence of a spike is the sigmoid of a weighted sum of two relative excesses, held within [0.60, 0.95].
      `ratio` is the volume over its median, `volume` and `price` measure it and the price change in thresholds. */
  lemma SignalAMeaning(row: BaselineRow, cfg: Config, sigmoid: Sigmoid, ratio: real, volume: real, price: real)
    requires if row.median7d > 0.0 then ratio * row.median7d == row.volume1h else ratio == 0.0
    requires cfg.volumeMultiplier > 0.0 && cfg.priceSpikePct > 0.0 ==>
      volume * cfg.volumeMultiplier == ratio && price * cfg.priceSpikePct == row.priceChange
    ensures
      var raw := if cfg.volumeMultiplier > 0.0 && cfg.priceSpikePct > 0.0
        then 0.5 * (volume - 1.0) + 0.3 * (price - 1.0) else 0.0;
      var c := SignalAConfidence(row, cfg, sigmoid);
      && (sigmoid(raw) < 0.60 ==> c == 0.60)
      && (0.60 <= sigmoid(raw) <= 0.95 ==> c == sigmoid(raw))
      && (sigmoid(raw) > 0.95 ==> c == 0.95)
  {
    if row.median7d > 0.0 {
      SameQuotient(ratio, row.volume1h, row.median7d);
    }
    if cfg.volumeMultiplier > 0.0 && cfg.priceSpikePct > 0.0 {
      SameQuotient(volume, ratio, cfg.volumeMultiplier);
      SameQuotient(price, row.priceChange, cfg.priceSpikePct);
    }
  }

  /** The confidence of a burst rises from 0.50 at the threshold by 2.5 for every unit above it, up to 0.75. */
  lemma SignalBMeaning(row: BurstRow, cfg: Config)
    ensures
      var c := SignalBConfidence(row, cfg);
      && (row.burstRatio <= cfg.burstThreshold ==> c == 0.50)
      && (cfg.burstThreshold <= row.burstRatio <= cfg.burstThreshold + 0.10 ==>
          c == 0.50 + 2.5 * (row.burstRatio - cfg.burstThreshold))
      && (cfg.burstThreshold + 0.10 <= row.burstRatio ==> c == 0.75)
  {
  }

  function Unamplified(confidence: real): Event { Event(confidence, Band(confidence), None, false) }

  /** The outcome up to the base signal: an error, a final low-confidence event, or a base event. */
  datatype Base = Failed(error: DetectorError) | Quiet(event: Event) | Fired(base: BaseSignal, confidence: real)

  function BaseOf(inp: Inputs, cfg: Config, sigmoid: Sigmoid): Base {
    if Max(inp.liquidityUsd, 0.0) > cfg.marketCapFilter then Quiet(Event(0.05, Info, None, false))
    else if inp.baseline.PostgresFailure? then Failed(TransientQuery)
    else if inp.baseline.Rows? && inp.baseline.rows.Some? then
      Fired(A, SignalAConfidence(inp.baseline.rows.value, cfg, sigmoid))
    else match inp.burst
      case PostgresFailure => Failed(TransientQuery)
      case OtherFailure => Failed(MissingDependencyData)
      case Rows(None) => Failed(MissingDependencyData)
      case Rows(Some(row)) =>
        if row.volume1h < cfg.minBurstVolume || row.burstRatio < cfg.burstThreshold
        then Quiet(Event(0.05, Info, None, false))
        else Fired(B, SignalBConfidence(row, cfg))
  }

  // ---------------------------------------------------------------------------------------------
  // Amplifiers
  // ---------------------------------------------------------------------------------------------

  /** The additive step of Signal C: an amplified value that is no confidence leaves the confidence
      unchanged, but the severity is always that of the amplified value. */
  function SignalCStep(event: Event, base: BaseSignal, amplifier: real): Event {
    var amplified := Min(event.confidence + amplifier, Cap(base));
    event.(
      confidence := match NewConfidence(amplified) case Some(c) => c case None => event.confidence,
      severity := Band(amplified))
  }

  /** The additive step of the smart-money amplifier, behind its gate. */
  function SmartMoneyStep(event: Event, base: BaseSignal, delta: real): Event {
    var amplified := Min(event.confidence + delta, Cap(base));
    if event.confidence >= 0.50 && NewConfidence(amplified).Some?
    then event.(confidence := amplified, severity := Band(amplified))
    else event
  }

  /** `compute_smart_money_amplification_d04`. */
  function SmartMoneyDelta(counts: TierCounts, cfg: Config): real {
    if counts.tier1 >= 1 then cfg.tier1Delta
    else if counts.tier2 >= cfg.tier2MinCount then cfg.tier2Delta
    else 0.0
  }

  /** `apply_signal_c_amplifier`, without its evidence. */
  method ApplySignalCAmplifier(event: AnomalyEvent, base: BaseSignal, cfg: Config)
    modifies event
    ensures event.View() == SignalCStep(old(event.View()), base, cfg.insiderAmplifier)
  {
    var cap := if base == A then 0.95 else 0.85;
    var amplified := Min(event.confidence + cfg.insiderAmplifier, cap);
    var newConfidence := NewConfidence(amplified);
    if newConfidence.Some? {
      event.confidence := newConfidence.value;
    }
    event.severity := Band(amplified);
  }

  /** `resolve_insider_addresses`: deployer clusters, then the liquid-holder query, then the holders
      above the supply floor. */
  function InsiderAddresses(inp: Inputs, cfg: Config): Result<seq<string>, DetectorError> {
    if inp.clusters.PostgresFailure? then Err(TransientQuery)
    else if inp.clusters.Rows? && inp.clusters.rows != [] then Ok(inp.clusters.rows)
    else if inp.liquidHolders.Rows? && inp.liquidHolders.rows != [] then Ok(inp.liquidHolders.rows)
    else Ok(HoldersAbove(inp.holders, inp.totalSupplyRaw as real * cfg.holderFloorPct))
  }

  function HoldersAbove(holders: seq<Holder>, floor: real): seq<string> {
    if holders == [] then []
    else
      (if holders[0].amountRaw as real >= floor then [holders[0].address] else []) + HoldersAbove(holders[1..], floor)
  }

  /** Does Signal C amplify, leave alone, or abort? */
  function SignalCVerdict(inp: Inputs, cfg: Config): Result<bool, DetectorError> {
    if inp.established then Ok(false)
    else match InsiderAddresses(inp, cfg)
      case Err(e) => Err(e)
      case Ok(addresses) =>
        if addresses == [] then Ok(false)
        else match inp.sells
          case PostgresFailure => Err(TransientQuery)
          case OtherFailure => Err(MissingDependencyData)
          case Rows(sells) => Ok(SignalCFires(addresses, sells, BalanceMap(inp.holders), cfg))
  }

  /** The smart-money delta, if its amplifier runs at all. */
  function SmartMoneyVerdict(inp: Inputs, confidence: real, cfg: Config): Result<Option<real>, DetectorError> {
    if inp.smartMoney.None? || confidence < 0.50 then Ok(None)
    else match inp.smartMoney.value
      case LookupFailed => Ok(None)
      case Lookup(Rows(counts)) => Ok(Some(SmartMoneyDelta(counts, cfg)))
      case Lookup(_) => Err(TransientQuery)
  }

  /** The amplifiers after a base signal, in order. */
  function Amplified(inp: Inputs, cfg: Config, base: BaseSignal, confidence: real): Result<Event, DetectorError> {
    match SignalCVerdict(inp, cfg)
    case Err(e) => Err(e)
    case Ok(fires) =>
      var afterC :=
        if fires then SignalCStep(Unamplified(confidence), base, cfg.insiderAmplifier) else Unamplified(confidence);
      match SmartMoneyVerdict(inp, afterC.confidence, cfg)
      case Err(e) => Err(e)
      case Ok(delta) =>
        var afterSmart := if delta.Some? then SmartMoneyStep(afterC, base, delta.value) else afterC;
        Ok(if inp.graduationAge.None? then afterSmart
           else GraduationStep(afterSmart, inp.graduationAge.value, inp.tiers, Cap(base)))
  }

  /** What the detector returns: an error or exactly one event. */
  function Outcome(inp: Inputs, cfg: Config, sigmoid: Sigmoid): Result<Event, DetectorError> {
    match BaseOf(inp, cfg, sigmoid)
    case Failed(e) => Err(e)
    case Quiet(event) => Ok(event)
    case Fired(base, confidence) => Amplified(inp, cfg, base, confidence)
  }

  /** `evaluate`: the event list is built by the base signal and its only event amplified in place. */
  method Evaluate(inp: Inputs, cfg: Config, sigmoid: Sigmoid)
    returns (result: Result<seq<AnomalyEvent>, DetectorError>)
    ensures result.Err? ==> Outcome(inp, cfg, sigmoid) == Err(result.error)
    ensures result.Ok? ==> |result.value| == 1 && fresh(result.value[0])
    ensures result.Ok? ==> Outcome(inp, cfg, sigmoid) == Ok(result.value[0].View())
  {
    hide SignalAConfidence, SignalBConfidence, Band, BalanceMap, SoldFraction, Graduated, HoldersAbove;
    var marketCap := if inp.liquidityUsd > 0.0 then inp.liquidityUsd else 0.0;
    if marketCap > cfg.marketCapFilter {
      var event := new AnomalyEvent(Event(0.05, Info, None, false));
      return Ok([event]);
    }
    if inp.baseline.PostgresFailure? {
      return Err(TransientQuery);
    }
    var events: seq<AnomalyEvent> := [];
    var base := B;
    var first: real;
    if inp.baseline.Rows? && inp.baseline.rows.Some? {
      first := SignalAConfidence(inp.baseline.rows.value, cfg, sigmoid);
      base := A;
    } else {
      if inp.burst.PostgresFailure? {
        return Err(TransientQuery);
      }
      if inp.burst.OtherFailure? || inp.burst.rows.None? {
        return Err(MissingDependencyData);
      }
      var row := inp.burst.rows.value;
      if row.volume1h < cfg.minBurstVolume || row.burstRatio < cfg.burstThreshold {
        var event := new AnomalyEvent(Event(0.05, Info, None, false));
        return Ok([event]);
      }
      first := SignalBConfidence(row, cfg);
    }
    var event := new AnomalyEvent(Unamplified(first));
    events := [event];
    result := Amplify(inp, cfg, base, events);
  }

  /** The amplifier steps of `evaluate` on the event list. */
  method Amplify(inp: Inputs, cfg: Config, base: BaseSignal, events: seq<AnomalyEvent>)
    returns (result: Result<seq<AnomalyEvent>, DetectorError>)
    requires |events| == 1 && events[0].View() == Unamplified(events[0].confidence)
    modifies events[0]
    ensures result.Err? ==> Amplified(inp, cfg, base, old(events[0].confidence)) == Err(result.error)
    ensures result.Ok? ==> result.value == events
    ensures result.Ok? ==> Amplified(inp, cfg, base, old(events[0].confidence)) == Ok(events[0].View())
  {
    hide Band, BalanceMap, SoldFraction, WalletPct, Graduated, HoldersAbove, InsiderAddresses, SignalCStep, Min,
      SmartMoneyDelta, NewConfidence;
    if !inp.established {
      var insiders := InsiderAddresses(inp, cfg);
      if insiders.Err? {
        return Err(insiders.error);
      }
      if insiders.value != [] {
        if inp.sells.PostgresFailure? {
          return Err(TransientQuery);
        }
        if inp.sells.OtherFailure? {
          return Err(MissingDependencyData);
        }
        var soldPct, _ := ComputeInsiderSoldPct(insiders.value, inp.sells.rows, inp.holders);
        if soldPct >= cfg.insiderSellPct {
          ApplySignalCAmplifier(events[0], base, cfg);
        }
      }
    }
    var cap := if base == A then 0.95 else 0.85;
    if inp.smartMoney.Some? && events[0].confidence >= 0.50 && inp.smartMoney.value.Lookup? {
      if !inp.smartMoney.value.buyers.Rows? {
        return Err(TransientQuery);
      }
      var delta := SmartMoneyDelta(inp.smartMoney.value.buyers.rows, cfg);
      var amplified := Min(events[0].confidence + delta, cap);
      if NewConfidence(amplified).Some? {
        events[0].confidence := amplified;
        events[0].severity := Band(amplified);
      }
    }
    if inp.graduationAge.Some? {
      var amplified := Graduated(events[0].confidence, inp.graduationAge.value, inp.tiers, cap);
      if NewConfidence(amplified).Some? && amplified > events[0].confidence {
        events[0].confidence := amplified;
        events[0].severity := Band(amplified);
      }
    }
    return Ok(events);
  }

  // ---------------------------------------------------------------------------------------------
  // The outcome in terms of the inputs
  // ---------------------------------------------------------------------------------------------

  /** The market is above the filter; a market without liquidity counts as zero. */
  predicate IsLargeCap(inp: Inputs, cfg: Config) {
    (if inp.liquidityUsd > 0.0 then inp.liquidityUsd else 0.0) > cfg.marketCapFilter
  }

  /** The baseline query found no spike, or failed in another way than a Postgres failure. */
  predicate NoSpike(inp: Inputs) { inp.baseline == Rows(None) || inp.baseline.OtherFailure? }

  predicate HasBurstRow(inp: Inputs) { inp.burst.Rows? && inp.burst.rows.Some? }

  predicate IsWeakBurst(row: BurstRow, cfg: Config) {
    row.volume1h < cfg.minBurstVolume || row.burstRatio < cfg.burstThreshold
  }

  /** Which inputs give the quiet event, which give which error, and which make Signal A or Signal B fire. */
  lemma OutcomeByInputs(inp: Inputs, cfg: Config, sigmoid: Sigmoid)
    ensures IsLargeCap(inp, cfg) ==> Outcome(inp, cfg, sigmoid) == Ok(Event(0.05, Info, None, false))
    ensures !IsLargeCap(inp, cfg) && inp.baseline.PostgresFailure? ==> Outcome(inp, cfg, sigmoid) == Err(TransientQuery)
    ensures !IsLargeCap(inp, cfg) && inp.baseline.Rows? && inp.baseline.rows.Some? ==>
      Outcome(inp, cfg, sigmoid) == Amplified(inp, cfg, A, SignalAConfidence(inp.baseline.rows.value, cfg, sigmoid))
    ensures !IsLargeCap(inp, cfg) && NoSpike(inp) ==>
      && (inp.burst.PostgresFailure? ==> Outcome(inp, cfg, sigmoid) == Err(TransientQuery))
      && (inp.burst.OtherFailure? || inp.burst == Rows(None) ==>
          Outcome(inp, cfg, sigmoid) == Err(MissingDependencyData))
      && (HasBurstRow(inp) && IsWeakBurst(inp.burst.rows.value, cfg) ==>
          Outcome(inp, cfg, sigmoid) == Ok(Event(0.05, Info, None, false)))
      && (HasBurstRow(inp) && !IsWeakBurst(inp.burst.rows.value, cfg) ==>
          Outcome(inp, cfg, sigmoid) == Amplified(inp, cfg, B, SignalBConfidence(inp.burst.rows.value, cfg)))
  {
    hide Amplified, SignalAConfidence, SignalBConfidence;
  }

  /** The insiders: the deployer cluster, or else the liquid holders, or else the holders of at least the floor
      share of the supply; only a Postgres failure of the first query counts as an error. */
  lemma InsidersByInputs(inp: Inputs, cfg: Config, floor: real)
    requires floor == inp.totalSupplyRaw as real * cfg.holderFloorPct
    ensures inp.clusters.PostgresFailure? ==> InsiderAddresses(inp, cfg) == Err(TransientQuery)
    ensures inp.clusters.Rows? && inp.clusters.rows != [] ==> InsiderAddresses(inp, cfg) == Ok(inp.clusters.rows)
    ensures inp.clusters.OtherFailure? || (inp.clusters.Rows? && inp.clusters.rows == []) ==>
      if inp.liquidHolders.Rows? && inp.liquidHolders.rows != []
      then InsiderAddresses(inp, cfg) == Ok(inp.liquidHolders.rows)
      else InsiderAddresses(inp, cfg) == Ok(HoldersAbove(inp.holders, floor))
  {
    hide HoldersAbove;
  }

  lemma OneHolderAbove(h: Holder, floor: real)
    ensures HoldersAbove([], floor) == []
    ensures HoldersAbove([h], floor) == if h.amountRaw as real < floor then [] else [h.address]
  {
    assert [h][1..] == [];
  }

  /** The holders above a floor, one after the other. */
  lemma {:induction false} HoldersAboveMeaning(holders: seq<Holder>, more: seq<Holder>, floor: real)
    ensures HoldersAbove(holders + more, floor) == HoldersAbove(holders, floor) + HoldersAbove(more, floor)
  {
    if holders == [] {
      assert holders + more == more;
    } else {
      assert (holders + more)[1..] == holders[1..] + more;
      HoldersAboveMeaning(holders[1..], more, floor);
    }
  }

  /** Signal C amplifies exactly a token that is not an established protocol, has insiders, and of whose sells the
      aggregate fraction reaches the limit; the sells are queried only for insiders. */
  lemma SignalCByInputs(inp: Inputs, cfg: Config)
    ensures inp.established ==> SignalCVerdict(inp, cfg) == Ok(false)
    ensures !inp.established && InsiderAddresses(inp, cfg).Err? ==> SignalCVerdict(inp, cfg) == Err(TransientQuery)
    ensures forall insiders :: !inp.established && InsiderAddresses(inp, cfg) == Ok(insiders) ==>
      && (insiders == [] ==> SignalCVerdict(inp, cfg) == Ok(false))
      && (insiders != [] && inp.sells.PostgresFailure? ==> SignalCVerdict(inp, cfg) == Err(TransientQuery))
      && (insiders != [] && inp.sells.OtherFailure? ==> SignalCVerdict(inp, cfg) == Err(MissingDependencyData))
      && (forall sells :: insiders != [] && inp.sells == Rows(sells) ==>
            SignalCVerdict(inp, cfg) ==
            Ok(SoldFraction(insiders, sells, BalanceMap(inp.holders)) >= cfg.insiderSellPct))
  {
    hide HoldersAbove, SoldFraction, BalanceMap;
  }

  /** The smart-money delta: that of tier 1 for one wallet of it, or else that of tier 2 for enough wallets of it, or
      else nothing; only an event of at least 0.50 is looked up, a failed lookup is ignored and a failed query is
      an error. */
  lemma SmartMoneyByInputs(inp: Inputs, confidence: real, cfg: Config)
    ensures confidence < 0.50 || inp.smartMoney == None || inp.smartMoney == Some(LookupFailed) ==>
      SmartMoneyVerdict(inp, confidence, cfg) == Ok(None)
    ensures forall query :: confidence >= 0.50 && inp.smartMoney == Some(Lookup(query)) && !query.Rows? ==>
      SmartMoneyVerdict(inp, confidence, cfg) == Err(TransientQuery)
    ensures forall tier1: nat, tier2: nat, tier3: nat ::
      confidence >= 0.50 && inp.smartMoney == Some(Lookup(Rows(TierCounts(tier1, tier2, tier3)))) ==>
      && (tier1 > 0 ==> SmartMoneyVerdict(inp, confidence, cfg) == Ok(Some(cfg.tier1Delta)))
      && (tier1 == 0 && tier2 >= cfg.tier2MinCount ==>
          SmartMoneyVerdict(inp, confidence, cfg) == Ok(Some(cfg.tier2Delta)))
      && (tier1 == 0 && tier2 < cfg.tier2MinCount ==> SmartMoneyVerdict(inp, confidence, cfg) == Ok(Some(0.0)))
  {
  }

  /** The two additive steps in numbers. */
  lemma AdditiveStepsMeaning(event: Event, base: BaseSignal, x: real)
    ensures
      var cap := if base == A then 0.95 else 0.85;
      var sum := if event.confidence + x < cap then event.confidence + x else cap;
      var c, smart := SignalCStep(event, base, x), SmartMoneyStep(event, base, x);
      && c == event.(confidence := if sum < 0.0 then event.confidence else sum, severity := Band(sum))
      && smart ==
         if event.confidence < 0.50 || sum < 0.0 then event else event.(confidence := sum, severity := Band(sum))
  {
    hide Band;
  }

  /** Signal C comes first, then smart money with the gate on its result, then graduation under the same cap; the
      first error ends it. */
  lemma AmplifiedByInputs(inp: Inputs, cfg: Config, base: BaseSignal, confidence: real)
    ensures
      var plain := Event(confidence, Band(confidence), None, false);
      var cap := if base == A then 0.95 else 0.85;
      var result := Amplified(inp, cfg, base, confidence);
      && (SignalCVerdict(inp, cfg).Err? ==> result == Err(SignalCVerdict(inp, cfg).error))
      && forall fires :: SignalCVerdict(inp, cfg) == Ok(fires) ==>
           var afterC := if fires then SignalCStep(plain, base, cfg.insiderAmplifier) else plain;
           var verdict := SmartMoneyVerdict(inp, afterC.confidence, cfg);
           && (verdict.Err? ==> result == Err(verdict.error))
           && forall delta :: verdict == Ok(delta) ==>
                var afterSmart := if delta.Some? then SmartMoneyStep(afterC, base, delta.value) else afterC;
                && (inp.graduationAge.None? ==> result == Ok(afterSmart))
                && forall age :: inp.graduationAge == Some(age) ==>
                     result == Ok(GraduationStep(afterSmart, age, inp.tiers, cap))
  {
    hide SignalCVerdict, SmartMoneyVerdict, SignalCStep, SmartMoneyStep, GraduationStep, Band;
  }

  // ---------------------------------------------------------------------------------------------
  // Guarantees
  // ---------------------------------------------------------------------------------------------

  /** A confidence below the cap of its base signal, with the severity of its band. */
  predicate Banded(event: Event, base: BaseSignal) {
    0.0 <= event.confidence <= Cap(base) && event.severity == Band(event.confidence)
  }

  /** Signal C never lowers the confidence exactly for a non-negative amplifier, or one so negative that
      the result is no confidence and is dropped; and it keeps the severity in step with the confidence
      exactly if the result is a confidence or the event was an Info event. */
  lemma SignalCStepIff(event: Event, base: BaseSignal, amplifier: real)
    requires Banded(event, base)
    ensures
      var after := SignalCStep(event, base, amplifier);
      && (after.confidence >= event.confidence <==> amplifier >= 0.0 || event.confidence + amplifier < 0.0)
      && (after.severity == Band(after.confidence) <==>
          event.confidence + amplifier >= 0.0 || event.severity == Info)
      && 0.0 <= after.confidence <= Cap(base)
  {
  }

  /** The smart-money step keeps the cap and the band whatever its delta is, and lowers the confidence exactly
      for a negative delta that is applied. */
  lemma SmartMoneyStepIff(event: Event, base: BaseSignal, delta: real)
    requires Banded(event, base)
    ensures
      var after := SmartMoneyStep(event, base, delta);
      && Banded(after, base)
      && (after.confidence >= event.confidence <==>
          delta >= 0.0 || event.confidence < 0.50 || event.confidence + delta < 0.0)
  {
  }

  /** The graduation step keeps the cap and the band and never lowers the confidence, whatever the tiers. */
  lemma GraduationStepKeeps(event: Event, base: BaseSignal, age: int, tiers: Tiers)
    requires 0.0 <= event.confidence <= Cap(base)
    ensures
      var after := GraduationStep(event, age, tiers, Cap(base));
      && event.confidence <= after.confidence <= Cap(base)
      && (Banded(event, base) ==> Banded(after, base))
      && (after == event || Banded(after, base))
      && (after != event <== Graduated(event.confidence, age, tiers, Cap(base)) > event.confidence)
      && (Graduated(event.confidence, age, tiers, Cap(base)) <= event.confidence ==> after == event)
  {
    hide RecencyMultiplier, Band;
  }

  /** The amplifiers of the configuration only ever add. */
  predicate NonNegativeAmplifiers(cfg: Config) {
    cfg.insiderAmplifier >= 0.0 && cfg.tier1Delta >= 0.0 && cfg.tier2Delta >= 0.0
  }

  /** Signal C fires with an amplifier so negative that its result is no confidence and is dropped, while the
      severity falls to Info; and neither of the later steps writes the severity again. */
  predicate OutOfStep(inp: Inputs, cfg: Config, base: BaseSignal, confidence: real) {
    && SignalCVerdict(inp, cfg) == Ok(true) && confidence + cfg.insiderAmplifier < 0.0 && confidence >= 0.20
    && !SmartMoneyWrites(SmartMoneyVerdict(inp, confidence, cfg), confidence)
    && !(inp.graduationAge.Some? && Graduated(confidence, inp.graduationAge.value, inp.tiers, Cap(base)) > confidence)
  }

  predicate SmartMoneyWrites(verdict: Result<Option<real>, DetectorError>, confidence: real) {
    verdict.Ok? && verdict.value.Some? && confidence + verdict.value.value >= 0.0
  }

  // The event between the amplifiers.

  function AfterC(inp: Inputs, cfg: Config, base: BaseSignal, confidence: real): Event
    requires SignalCVerdict(inp, cfg).Ok?
  {
    if SignalCVerdict(inp, cfg).value then SignalCStep(Unamplified(confidence), base, cfg.insiderAmplifier)
    else Unamplified(confidence)
  }

  function AfterSmartMoney(event: Event, verdict: Option<real>, base: BaseSignal): Event {
    if verdict.Some? then SmartMoneyStep(event, base, verdict.value) else event
  }

  function AfterGraduation(event: Event, inp: Inputs, base: BaseSignal): Event {
    if inp.graduationAge.None? then event else GraduationStep(event, inp.graduationAge.value, inp.tiers, Cap(base))
  }

  /** An amplified event went through the three steps. */
  lemma AmplifiedIs(inp: Inputs, cfg: Config, base: BaseSignal, confidence: real)
    requires Amplified(inp, cfg, base, confidence).Ok?
    ensures SignalCVerdict(inp, cfg).Ok?
    ensures SmartMoneyVerdict(inp, AfterC(inp, cfg, base, confidence).confidence, cfg).Ok?
    ensures
      var afterC := AfterC(inp, cfg, base, confidence);
      Amplified(inp, cfg, base, confidence).value ==
      AfterGraduation(AfterSmartMoney(afterC, SmartMoneyVerdict(inp, afterC.confidence, cfg).value, base), inp, base)
  {
    hide SignalCStep, SmartMoneyStep, GraduationStep, SignalCVerdict, SmartMoneyVerdict;
  }

  lemma VerdictIsGated(inp: Inputs, confidence: real, cfg: Config)
    requires SmartMoneyVerdict(inp, confidence, cfg).Ok? && SmartMoneyVerdict(inp, confidence, cfg).value.Some?
    ensures confidence >= 0.50
    ensures NonNegativeAmplifiers(cfg) ==> SmartMoneyVerdict(inp, confidence, cfg).value.value >= 0.0
  {
  }

  /** The graduation step writes the severity exactly when it raises the confidence. */
  lemma GraduationWrites(event: Event, inp: Inputs, base: BaseSignal)
    requires 0.0 <= event.confidence <= Cap(base)
    ensures
      var after := AfterGraduation(event, inp, base);
      && event.confidence <= after.confidence <= Cap(base)
      && (after.severity == Band(after.confidence) <==>
          event.severity == Band(event.confidence) || (inp.graduationAge.Some? &&
          Graduated(event.confidence, inp.graduationAge.value, inp.tiers, Cap(base)) > event.confidence))
  {
    hide Band;
    if inp.graduationAge.Some? {
      GraduationStepKeeps(event, base, inp.graduationAge.value, inp.tiers);
    }
  }

  /** For every configuration, when a base signal fires and nothing aborts, the amplified event keeps the cap
      of its base signal, and its severity is its band exactly if it is not out of step. Amplifiers that only
      add never leave it out of step and keep the base confidence as a floor. */
  lemma AmplifiedIsBanded(inp: Inputs, cfg: Config, base: BaseSignal, confidence: real)
    requires 0.0 <= confidence <= Cap(base) && Amplified(inp, cfg, base, confidence).Ok?
    ensures
      var event := Amplified(inp, cfg, base, confidence).value;
      && 0.0 <= event.confidence <= Cap(base)
      && (event.severity == Band(event.confidence) <==> !OutOfStep(inp, cfg, base, confidence))
      && (NonNegativeAmplifiers(cfg) ==>
          event.confidence >= confidence && !OutOfStep(inp, cfg, base, confidence))
  {
    hide SignalCVerdict, SmartMoneyVerdict, AfterGraduation, Amplified, Graduated;
    AmplifiedIs(inp, cfg, base, confidence);
    SignalCStepIff(Unamplified(confidence), base, cfg.insiderAmplifier);
    var afterC := AfterC(inp, cfg, base, confidence);
    var verdict := SmartMoneyVerdict(inp, afterC.confidence, cfg);
    if verdict.value.Some? {
      VerdictIsGated(inp, afterC.confidence, cfg);
    }
    GraduationWrites(AfterSmartMoney(afterC, verdict.value, base), inp, base);
  }

  /** With a negative amplifier Signal C leaves an event at its base confidence, in the band High, with the
      severity Info. */
  lemma NegativeAmplifierCounterexample(cfg: Config, inp: Inputs)
    requires cfg.insiderAmplifier < -0.60 && cfg.insiderSellPct <= 1.0
    ensures
      var sold := inp.(
        established := false, holders := [Holder("insider", 1)], clusters := Rows(["insider"]),
        sells := Rows([SellRow("insider", 1.0)]), smartMoney := None, graduationAge := None);
      Amplified(sold, cfg, A, 0.60) == Ok(Event(0.60, Info, None, false)) && Band(0.60) == High
  {
    var m := BalanceMap([Holder("insider", 1)]);
    var sells: seq<Sell> := [SellRow("insider", 1.0)];
    assert m == BalanceMap([])["insider" := 1.0];
    assert TotalSold(sells[1..]) == 0.0 && SellersBalance(sells[1..], m) == 0.0;
    assert SellersBalance(sells, m) == 1.0 && IdleBalances(["insider"], sells, m) == 0.0;
  }

  /** In terms of the inputs: a large market, or a weak burst without a spike, gives 0.05 and Info. A spike ends within
      [0, 0.95] and a strong burst within [0, 0.85], with the severity of the confidence unless it is out of step;
      amplifiers that only add keep it in step and at or above 0.60 and 0.50. */
  lemma OutcomeIsBanded(inp: Inputs, cfg: Config, sigmoid: Sigmoid)
    requires Outcome(inp, cfg, sigmoid).Ok?
    ensures
      var event := Outcome(inp, cfg, sigmoid).value;
      if IsLargeCap(inp, cfg) || (NoSpike(inp) && IsWeakBurst(inp.burst.rows.value, cfg))
      then event.confidence == 0.05 && event.severity == Info
      else
        var base := if NoSpike(inp) then B else A;
        var confidence := if NoSpike(inp) then SignalBConfidence(inp.burst.rows.value, cfg)
          else SignalAConfidence(inp.baseline.rows.value, cfg, sigmoid);
        && 0.0 <= event.confidence <= (if NoSpike(inp) then 0.85 else 0.95)
        && (event.severity == Band(event.confidence) <==> !OutOfStep(inp, cfg, base, confidence))
        && (NonNegativeAmplifiers(cfg) ==>
            && event.confidence >= confidence >= (if NoSpike(inp) then 0.50 else 0.60)
            && event.severity == Band(event.confidence))
  {
    hide Amplified, SignalAConfidence, SignalBConfidence, OutOfStep, Outcome, Band;
    OutcomeByInputs(inp, cfg, sigmoid);
    if !IsLargeCap(inp, cfg) {
      if !NoSpike(inp) {
        AmplifiedIsBanded(inp, cfg, A, SignalAConfidence(inp.baseline.rows.value, cfg, sigmoid));
      } else if !IsWeakBurst(inp.burst.rows.value, cfg) {
        AmplifiedIsBanded(inp, cfg, B, SignalBConfidence(inp.burst.rows.value, cfg));
      }
    }
  }

  // When are the two additive amplifiers one capped sum? Here c is the base confidence, x the amplifier of
  // Signal C and y the smart-money delta.

  predicate SumsSignalCFirst(c: real, x: real, y: real, cap: real) {
    if c + x < 0.0 then c + x + y >= cap
    else if c + x < 0.50 then y == 0.0
    else if c + x <= cap then c + x + y >= 0.0
    else y >= 0.0 || (cap + y < 0.0 && c + x + y >= cap)
  }

  predicate SumsSmartMoneyFirst(c: real, x: real, y: real, cap: real) {
    if c + y < 0.0 then c + x + y >= cap
    else if c + y <= cap then c + x + y >= 0.0
    else x >= 0.0
  }

  /** For any two amounts, exactly when the two additive amplifiers are one capped sum, in the order of the
      source and in the other; amounts that only add are summed in both orders, since the gate of the
      second step is always open after a base signal. */
  lemma AdditiveAmplifiersCommute(event: Event, base: BaseSignal, x: real, y: real)
    requires Banded(event, base) && event.confidence >= 0.50
    ensures
      var total := Min(event.confidence + (x + y), Cap(base));
      var sum := event.(confidence := total, severity := Band(total));
      && (SmartMoneyStep(SignalCStep(event, base, x), base, y) == sum <==>
          SumsSignalCFirst(event.confidence, x, y, Cap(base)))
      && (SignalCStep(SmartMoneyStep(event, base, y), base, x) == sum <==>
          SumsSmartMoneyFirst(event.confidence, x, y, Cap(base)))
      && (x >= 0.0 && y >= 0.0 ==>
          SumsSignalCFirst(event.confidence, x, y, Cap(base)) &&
          SumsSmartMoneyFirst(event.confidence, x, y, Cap(base)))
  {
  }
}
