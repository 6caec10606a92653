/** The D01 honeypot detector (`d01_honeypot.rs`), Solana branch: static signals, the sell simulation
    and their combination. The pool-account provider and the RPC are a script of their answers. */
module Honeypot {
  import opened Wrappers
  import opened Signals
  import opened Quotients
  import opened Sums

  datatype SimulationConfig = SimulationConfig(paths: nat, probeLamports: nat, sellTaxThreshold: real)

  datatype Dex = RaydiumCpmm | RaydiumV4 | OtherDex

  datatype PoolMarket = PoolMarket(dex: Dex, liquidityUsd: real)

  // ---------------------------------------------------------------------------------------------
  // Pool choice
  // ---------------------------------------------------------------------------------------------

  predicate IsSupported(market: PoolMarket) { market.dex != OtherDex }

  /** The order of the choice: liquidity, then CPMM above V4. */
  predicate IsBetter(a: PoolMarket, b: PoolMarket) {
    a.liquidityUsd > b.liquidityUsd
    || (a.liquidityUsd == b.liquidityUsd && a.dex == RaydiumCpmm && b.dex != RaydiumCpmm)
  }

  /** The supported pool that `max_by` keeps: the last of the best ones. */
  function ChosenPool(markets: seq<PoolMarket>): (choice: Option<nat>)
    ensures choice.Some? ==> choice.value < |markets|
  {
    if markets == [] then None
    else
      var last := |markets| - 1;
      match ChosenPool(markets[..last])
      case None => if IsSupported(markets[last]) then Some(last) else None
      case Some(k) => Some(if IsSupported(markets[last]) && !IsBetter(markets[k], markets[last]) then last else k)
  }

  /** A Raydium pool is chosen if there is one: one of the largest liquidity, among these a CPMM pool if there is one,
      and among these the last. */
  lemma {:induction false} ChosenPoolIsBest(markets: seq<PoolMarket>)
    ensures ChosenPool(markets).None? <==> forall k :: 0 <= k < |markets| ==> markets[k].dex == OtherDex
    ensures ChosenPool(markets).Some? ==>
      var c := ChosenPool(markets).value;
      && markets[c].dex != OtherDex
      && forall k :: 0 <= k < |markets| && markets[k].dex != OtherDex ==> Preferred(markets[c], c, markets[k], k)
  {
    if markets == [] {
    } else {
      var last := |markets| - 1;
      ChosenPoolIsBest(markets[..last]);
      assert forall k :: 0 <= k < last ==> markets[k] == markets[..last][k];
    }
  }

  /** More liquidity, or else CPMM before V4, or else the later place. */
  predicate Preferred(a: PoolMarket, i: nat, b: PoolMarket, k: nat) {
    || a.liquidityUsd > b.liquidityUsd
    || (a.liquidityUsd == b.liquidityUsd && a.dex == RaydiumCpmm && b.dex == RaydiumV4)
    || (a.liquidityUsd == b.liquidityUsd && a.dex == b.dex && i >= k)
  }

  // ---------------------------------------------------------------------------------------------
  // Simulation paths
  // ---------------------------------------------------------------------------------------------

  datatype Accounts = NotWired(reason: string) | AccountsError | AccountsFound

  /** A simulated transaction: the RPC fails, or the transaction fails, or it yields the token balance
      and the lamports of the probe wallet (zero if they cannot be read). */
  datatype Simulation = RpcError | TxFailed | TxDone(tokens: nat, lamports: nat)

  datatype Path = Path(buyAccounts: Accounts, buy: Simulation, sellAccounts: Accounts, sell: Simulation)

  type Script = nat -> Path

  datatype PathOutcome = BuyFailed | SellFailed | Success(covertFeeBps: nat)

  datatype Reason = NoSupportedPool | ProviderNotWired(reason: string) | BuysAllFailed

  datatype SimulationResult = SimulationResult(
    confidenceAdd: real, pathsTested: nat, pathsFailed: nat, skipped: bool, skipReason: Option<Reason>)

  datatype SimulationError = PoolKeyInvalid | RpcFailed

  function Skip(reason: Reason, paths: nat): SimulationResult {
    SimulationResult(0.0, paths, paths, true, Some(reason))
  }

  /** The tax a sell pays, in basis points: the missing part of the probe, clamped and truncated. */
  function CovertFeeBps(lamports: nat, probe: nat): nat {
    var tax := if probe > 0 then 1.0 - lamports as real / probe as real else 0.0;
    Clamp(tax * 10_000.0, 0.0, 10_000.0).Floor
  }

  /** How one path ends: an outcome, or an end of the whole simulation. */
  datatype Step = Tested(outcome: PathOutcome) | Unwired(reason: string) | Aborted

  predicate BuysTokens(path: Path) { path.buyAccounts.AccountsFound? && path.buy.TxDone? && path.buy.tokens > 0 }

  function StepOf(path: Path, probe: nat): Step {
    match path.buyAccounts
    case NotWired(reason) => Unwired(reason)
    case AccountsError => Tested(BuyFailed)
    case AccountsFound =>
      if path.buy.RpcError? then Aborted
      else if !BuysTokens(path) then Tested(BuyFailed)
      else if !path.sellAccounts.AccountsFound? then Tested(SellFailed)
      else match path.sell
        case RpcError => Aborted
        case TxFailed => Tested(SellFailed)
        case TxDone(_, lamports) => Tested(Success(CovertFeeBps(lamports, probe)))
  }

  /** The share of the probe that a sell loses, in whole basis points: none if it returns the probe or more. */
  lemma CovertFeeMeaning(lamports: nat, probe: nat)
    ensures lamports >= probe ==> CovertFeeBps(lamports, probe) == 0
    ensures lamports < probe ==>
      CovertFeeBps(lamports, probe) * probe <= 10_000 * (probe - lamports) <
      (CovertFeeBps(lamports, probe) + 1) * probe
  {
    if probe > 0 {
      var l, p := lamports as real, probe as real;
      QuotientBound(l, p, 0.0);
      QuotientBound(l, p, 1.0);
      if lamports < probe {
        var lost := (1.0 - l / p) * 10_000.0;
        LostProduct(l, p, lost);
        WholeProducts(lost, lost.Floor, probe, lamports);
      }
    }
  }

  lemma LostProduct(l: real, p: real, lost: real)
    requires p > 0.0 && lost == (1.0 - l / p) * 10_000.0
    ensures lost * p == 10_000.0 * (p - l)
  {
    var share := l / p;
    assert share * p == l;
    assert (1.0 - share) * p == p - l;
    assert (1.0 - share) * 10_000.0 * p == 10_000.0 * ((1.0 - share) * p);
  }

  lemma WholeProducts(x: real, n: nat, probe: nat, lamports: nat)
    requires probe > 0 && n as real <= x < n as real + 1.0
    requires x * probe as real == 10_000.0 * (probe as real - lamports as real)
    ensures n * probe <= 10_000 * (probe - lamports) < (n + 1) * probe
  {
    var lost := 10_000 * (probe - lamports);
    assert lost as real == 10_000.0 * (probe as real - lamports as real);
    LowerProduct(x, n, probe, lost);
    UpperProduct(x, n + 1, probe, lost);
  }

  lemma LowerProduct(x: real, n: nat, probe: nat, lost: int)
    requires probe > 0 && n as real <= x && x * probe as real == lost as real
    ensures n * probe <= lost
  {
    MulMonotone(probe as real, n as real, x);
    RealProduct(n, probe);
  }

  lemma UpperProduct(x: real, n: nat, probe: nat, lost: int)
    requires probe > 0 && x < n as real && x * probe as real == lost as real
    ensures lost < n * probe
  {
    MulStrict(probe as real, x, n as real);
    RealProduct(n, probe);
  }

  lemma RealProduct(a: nat, b: nat)
    ensures (a * b) as real == a as real * b as real
  {
  }

  /** How a path ends, in terms of what its provider and its two transactions answer. */
  lemma StepByInputs(path: Path, probe: nat)
    ensures
      var step := StepOf(path, probe);
      match path
      case Path(NotWired(reason), _, _, _) => step == Unwired(reason)
      case Path(AccountsError, _, _, _) => step == Tested(BuyFailed)
      case Path(AccountsFound, RpcError, _, _) => step == Aborted
      case Path(AccountsFound, TxFailed, _, _) => step == Tested(BuyFailed)
      case Path(AccountsFound, TxDone(tokens, _), sellAccounts, sell) =>
        if tokens == 0 then step == Tested(BuyFailed)
        else if sellAccounts.NotWired? || sellAccounts.AccountsError? then step == Tested(SellFailed)
        else match sell
          case RpcError => step == Aborted
          case TxFailed => step == Tested(SellFailed)
          case TxDone(_, lamports) => step == Tested(Success(CovertFeeBps(lamports, probe)))
  {
    hide CovertFeeBps;
  }

  /** A skipped simulation adds nothing, counts all given paths as tested and as failed, and says why. */
  lemma SkipMeaning(reason: Reason, paths: nat)
    ensures Skip(reason, paths) == SimulationResult(0.0, paths, paths, true, Some(reason))
  {
  }

  /** The outcomes of the first `n` paths, up to the first path that ends the simulation. */
  datatype Walk = Outcomes(outcomes: seq<PathOutcome>) | Ended(step: Step)

  function WalkPaths(script: Script, n: nat, probe: nat): Walk {
    if n == 0 then Outcomes([])
    else match WalkPaths(script, n - 1, probe)
      case Ended(step) => Ended(step)
      case Outcomes(front) =>
        match StepOf(script(n - 1), probe)
        case Tested(outcome) => Outcomes(front + [outcome])
        case step => Ended(step)
  }

  function CountOf(outcomes: seq<PathOutcome>, outcome: PathOutcome): (n: nat)
    ensures n == multiset(outcomes)[outcome]
  {
    if outcomes == [] then 0
    else
      assert outcomes == outcomes[..|outcomes| - 1] + [outcomes[|outcomes| - 1]];
      CountOf(outcomes[..|outcomes| - 1], outcome) + if outcomes[|outcomes| - 1] == outcome then 1 else 0
  }

  function Tax(outcome: PathOutcome): real {
    if outcome.Success? then outcome.covertFeeBps as real / 10_000.0 else 0.0
  }

  /** What the outcomes of all paths amount to. */
  function Summary(outcomes: seq<PathOutcome>, cfg: SimulationConfig, sigmoid: Sigmoid): SimulationResult {
    var bought := |outcomes| - CountOf(outcomes, BuyFailed);
    var sellFailed := CountOf(outcomes, SellFailed);
    if bought <= 0 then Skip(BuysAllFailed, |outcomes|)
    else
      var add :=
        if sellFailed > 0 then 0.60 + sellFailed as real / bought as real * 0.40
        else
          var average := Sum(outcomes, Tax) / bought as real;
          if average > cfg.sellTaxThreshold then sigmoid((average - cfg.sellTaxThreshold) / 0.20) * 0.60 else 0.0;
      SimulationResult(add, bought + sellFailed, sellFailed, false, None)
  }

  function SimulationOutcome(script: Script, cfg: SimulationConfig, sigmoid: Sigmoid)
    : Result<SimulationResult, SimulationError>
  {
    match WalkPaths(script, cfg.paths, cfg.probeLamports)
    case Ended(Unwired(reason)) => Ok(Skip(ProviderNotWired(reason), 0))
    case Ended(_) => Err(RpcFailed)
    case Outcomes(outcomes) => Ok(Summary(outcomes, cfg, sigmoid))
  }

  /** A `simulateTransaction` call: the path, its direction and the amount swapped. */
  datatype Call = Call(path: nat, isSell: bool, amountIn: nat)

  /** Calls go path by path, at most two per path, and a sell directly follows the buy of its path and
      swaps exactly the tokens, at least one, that this buy delivered. */
  ghost predicate WellOrdered(calls: seq<Call>, script: Script, probe: nat) {
    && (forall i :: 0 <= i < |calls| - 1 ==> calls[i].path <= calls[i + 1].path)
    && (forall i :: 0 <= i < |calls| - 2 ==> calls[i].path < calls[i + 2].path)
    && (forall i :: 0 <= i < |calls| && !calls[i].isSell ==>
         calls[i].amountIn == probe && (i > 0 ==> calls[i - 1].path < calls[i].path))
    && (forall i :: 0 <= i < |calls| && calls[i].isSell ==>
         && i > 0 && !calls[i - 1].isSell && calls[i - 1].path == calls[i].path
         && BuysTokens(script(calls[i].path)) && calls[i].amountIn == script(calls[i].path).buy.tokens)
  }

  ghost predicate Before(calls: seq<Call>, i: nat) { forall k :: 0 <= k < |calls| ==> calls[k].path < i }

  lemma WithBuy(calls: seq<Call>, i: nat, script: Script, probe: nat)
    requires WellOrdered(calls, script, probe) && Before(calls, i)
    ensures WellOrdered(calls + [Call(i, false, probe)], script, probe)
    ensures Before(calls + [Call(i, false, probe)], i + 1)
  {
  }

  lemma WithBuyAndSell(calls: seq<Call>, i: nat, script: Script, probe: nat)
    requires WellOrdered(calls, script, probe) && Before(calls, i) && BuysTokens(script(i))
    ensures
      var more := calls + [Call(i, false, probe)] + [Call(i, true, script(i).buy.tokens)];
      WellOrdered(more, script, probe) && Before(more, i + 1)
  {
    WithBuy(calls, i, script, probe);
    WithSell(calls, Call(i, false, probe), script, probe);
  }

  lemma WithSell(calls: seq<Call>, buy: Call, script: Script, probe: nat)
    requires Before(calls, buy.path) && !buy.isSell && BuysTokens(script(buy.path)) &&
      WellOrdered(calls + [buy], script, probe)
    ensures
      var more := calls + [buy] + [Call(buy.path, true, script(buy.path).buy.tokens)];
      WellOrdered(more, script, probe) && Before(more, buy.path + 1)
  {
    var some, sell := calls + [buy], Call(buy.path, true, script(buy.path).buy.tokens);
    assert forall k :: 0 <= k < |some| ==> (some + [sell])[k] == some[k];
  }

  /** The body of the loop over the paths. */
  method TestPath(i: nat, script: Script, probe: nat, before: seq<Call>) returns (step: Step, calls: seq<Call>)
    requires WellOrdered(before, script, probe) && Before(before, i)
    ensures step == StepOf(script(i), probe)
    ensures WellOrdered(calls, script, probe) && Before(calls, i + 1)
  {
    hide CovertFeeBps, WellOrdered;
    calls := before;
    var path := script(i);
    if path.buyAccounts.NotWired? {
      return Unwired(path.buyAccounts.reason), calls;
    }
    if path.buyAccounts.AccountsError? {
      return Tested(BuyFailed), calls;
    }
    WithBuy(calls, i, script, probe);
    calls := calls + [Call(i, false, probe)];
    if path.buy.RpcError? {
      return Aborted, calls;
    }
    if path.buy.TxFailed? || path.buy.tokens == 0 {
      return Tested(BuyFailed), calls;
    }
    var sellAmountIn := path.buy.tokens;
    if !path.sellAccounts.AccountsFound? {
      return Tested(SellFailed), calls;
    }
    WithBuyAndSell(before, i, script, probe);
    calls := calls + [Call(i, true, sellAmountIn)];
    match path.sell {
      case RpcError => step := Aborted;
      case TxFailed => step := Tested(SellFailed);
      case TxDone(_, lamports) => step := Tested(Success(CovertFeeBps(lamports, probe)));
    }
  }

  /** `simulate_sell`. */
  method SimulateSell(
    markets: seq<PoolMarket>, keysValid: bool, script: Script, cfg: SimulationConfig, sigmoid: Sigmoid)
    returns (result: Result<SimulationResult, SimulationError>, calls: seq<Call>)
    ensures WellOrdered(calls, script, cfg.probeLamports)
    ensures result ==
      if ChosenPool(markets).None? then Ok(Skip(NoSupportedPool, 0))
      else if !keysValid then Err(PoolKeyInvalid)
      else SimulationOutcome(script, cfg, sigmoid)
  {
    hide StepOf, Summary;
    calls := [];
    if ChosenPool(markets).None? {
      return Ok(Skip(NoSupportedPool, 0)), calls;
    }
    if !keysValid {
      return Err(PoolKeyInvalid), calls;
    }
    var outcomes: seq<PathOutcome> := [];
    for i := 0 to cfg.paths
      invariant WalkPaths(script, i, cfg.probeLamports) == Outcomes(outcomes)
      invariant WellOrdered(calls, script, cfg.probeLamports) && Before(calls, i)
    {
      var step;
      step, calls := TestPath(i, script, cfg.probeLamports, calls);
      match step {
        case Unwired(reason) =>
          WalkEnds(script, i, cfg.paths, cfg.probeLamports);
          return Ok(Skip(ProviderNotWired(reason), 0)), calls;
        case Aborted =>
          WalkEnds(script, i, cfg.paths, cfg.probeLamports);
          return Err(RpcFailed), calls;
        case Tested(outcome) =>
          outcomes := outcomes + [outcome];
      }
    }
    result := Ok(Summary(outcomes, cfg, sigmoid));
  }

  lemma {:induction false} WalkEnds(script: Script, i: nat, n: nat, probe: nat)
    requires i < n && WalkPaths(script, i, probe).Outcomes? && !StepOf(script(i), probe).Tested?
    ensures WalkPaths(script, n, probe) == Ended(StepOf(script(i), probe))
    decreases n
  {
    if i == n - 1 {
    } else {
      WalkEnds(script, i, n - 1, probe);
    }
  }

  // ---------------------------------------------------------------------------------------------
  // Guarantees of the simulation
  // ---------------------------------------------------------------------------------------------

  /** A skipped simulation adds nothing; one that is not skipped has bought tokens on some path, and adds
      more than 0.60, at most 1.0, exactly if some path failed to sell, and less than 0.60 otherwise. */
  lemma SummaryBands(outcomes: seq<PathOutcome>, cfg: SimulationConfig, sigmoid: Sigmoid)
    ensures
      var r := Summary(outcomes, cfg, sigmoid);
      && (r.skipped <==> forall o :: o in outcomes ==> o == BuyFailed)
      && (r.skipped ==> r.confidenceAdd == 0.0)
      && 0.0 <= r.confidenceAdd <= 1.0
      && (r.confidenceAdd > 0.60 <==> SellFailed in outcomes)
      && (SellFailed !in outcomes ==> r.confidenceAdd < 0.60)
  {
    hide Sum, CountOf, Tax;
    var bought, sellFailed := |outcomes| - CountOf(outcomes, BuyFailed), CountOf(outcomes, SellFailed);
    assert SellFailed in outcomes <==> sellFailed > 0 by {
      assert SellFailed in outcomes <==> SellFailed in multiset(outcomes);
    }
    SomeBought(outcomes);
    if sellFailed > 0 {
      SellFailedAreBought(outcomes);
      Share(sellFailed, bought);
    }
  }

  /** All basis points that the successful sells lost. */
  function LostBps(outcomes: seq<PathOutcome>): nat {
    if outcomes == [] then 0
    else
      LostBps(outcomes[1..]) +
      match outcomes[0]
      case Success(bps) => bps
      case _ => 0
  }

  lemma {:induction false} TaxesAreLostBps(outcomes: seq<PathOutcome>)
    ensures Sum(outcomes, Tax) * 10_000.0 == LostBps(outcomes) as real
  {
    if outcomes == [] {
    } else {
      TaxesAreLostBps(outcomes[1..]);
      OneTax(outcomes[0]);
      hide Tax;
      assert Sum(outcomes, Tax) == Tax(outcomes[0]) + Sum(outcomes[1..], Tax);
    }
  }

  lemma OneTax(outcome: PathOutcome)
    ensures Tax(outcome) * 10_000.0 == if outcome.Success? then outcome.covertFeeBps as real else 0.0
  {
  }

  /** The counts of the summary. */
  lemma SummaryCounts(outcomes: seq<PathOutcome>, cfg: SimulationConfig, sigmoid: Sigmoid)
    ensures
      var r := Summary(outcomes, cfg, sigmoid);
      var bought := |outcomes| - multiset(outcomes)[BuyFailed];
      if bought == 0 then r == SimulationResult(0.0, |outcomes|, |outcomes|, true, Some(BuysAllFailed))
      else
        && !r.skipped && r.skipReason == None
        && r.pathsTested == bought + multiset(outcomes)[SellFailed]
        && r.pathsFailed == multiset(outcomes)[SellFailed]
  {
    SomeBought(outcomes);
  }

  /** What a simulation that is not skipped adds: 0.60 and 0.40 times the share of bought paths that failed to sell;
      if none failed, nothing unless the mean loss of the sells exceeds the threshold, and then 0.60 of the sigmoid
      of the excess in steps of 0.20. Shares and means are multiplied out; `excess` is that number of steps. */
  lemma SummaryAdds(outcomes: seq<PathOutcome>, cfg: SimulationConfig, sigmoid: Sigmoid, excess: real)
    requires |outcomes| > multiset(outcomes)[BuyFailed]
    requires
      var bought := (|outcomes| - multiset(outcomes)[BuyFailed]) as real;
      LostBps(outcomes) as real == 10_000.0 * bought * (cfg.sellTaxThreshold + 0.20 * excess)
    ensures
      var bought := |outcomes| - multiset(outcomes)[BuyFailed];
      var failed, add := multiset(outcomes)[SellFailed], Summary(outcomes, cfg, sigmoid).confidenceAdd;
      && (failed > 0 ==> (add - 0.60) * bought as real == 0.40 * failed as real)
      && (failed == 0 ==> add == if excess > 0.0 then 0.60 * sigmoid(excess) else 0.0)
      && (failed == 0 ==>
          (add > 0.0 <==> LostBps(outcomes) as real > 10_000.0 * cfg.sellTaxThreshold * bought as real))
  {
    SomeBought(outcomes);
    TaxesAreLostBps(outcomes);
    hide Sum, Tax, LostBps, CountOf;
    var bought := (|outcomes| - CountOf(outcomes, BuyFailed)) as real;
    var mean := cfg.sellTaxThreshold + 0.20 * excess;
    assert mean * bought == Sum(outcomes, Tax) by { MeanTimesCount(Sum(outcomes, Tax), mean, bought); }
    SameQuotient(mean, Sum(outcomes, Tax), bought);
    var failed := CountOf(outcomes, SellFailed) as real;
    assert failed / bought * bought == failed;
    assert (failed / bought * 0.40) * bought == 0.40 * failed;
    assert (mean - cfg.sellTaxThreshold) / 0.20 == excess;
    ExcessShows(cfg.sellTaxThreshold, excess, bought);
  }

  lemma MeanTimesCount(sum: real, mean: real, count: real)
    requires sum * 10_000.0 == 10_000.0 * count * mean
    ensures mean * count == sum
  {
    assert 10_000.0 * count * mean == 10_000.0 * (mean * count);
  }

  lemma ExcessShows(threshold: real, excess: real, count: real)
    requires count > 0.0
    ensures excess > 0.0 <==> 10_000.0 * count * (threshold + 0.20 * excess) > 10_000.0 * threshold * count
  {
    assert 10_000.0 * count * (threshold + 0.20 * excess) == 10_000.0 * threshold * count + 2_000.0 * (count * excess);
    if excess > 0.0 {
      MulStrict(count, 0.0, excess);
    } else {
      MulMonotone(count, excess, 0.0);
    }
  }

  lemma Share(part: nat, whole: nat)
    requires 0 < part <= whole
    ensures 0.0 < part as real / whole as real <= 1.0
  {
    QuotientBound(part as real, whole as real, 1.0);
    QuotientBound(part as real, whole as real, 0.0);
  }

  lemma {:induction false} SomeBought(outcomes: seq<PathOutcome>)
    ensures |outcomes| == CountOf(outcomes, BuyFailed) <==> forall o :: o in outcomes ==> o == BuyFailed
    ensures CountOf(outcomes, BuyFailed) <= |outcomes|
  {
    if outcomes == [] {
    } else {
      var front, last := outcomes[..|outcomes| - 1], outcomes[|outcomes| - 1];
      SomeBought(front);
      assert outcomes == front + [last];
      assert last in outcomes && forall o :: o in outcomes <==> o in front || o == last;
      if last == BuyFailed && forall o :: o in front ==> o == BuyFailed {
        assert forall o :: o in outcomes ==> o == BuyFailed;
      } else if last == BuyFailed {
        var o :| o in front && o != BuyFailed;
        assert o in outcomes;
      }
    }
  }

  lemma {:induction false} SellFailedAreBought(outcomes: seq<PathOutcome>)
    ensures CountOf(outcomes, SellFailed) + CountOf(outcomes, BuyFailed) <= |outcomes|
  {
    if outcomes == [] {
    } else {
      SellFailedAreBought(outcomes[..|outcomes| - 1]);
    }
  }

  /** The reported number of tested paths counts a failed sell twice, so it is a number of paths exactly
      if at least as many buys as sells failed. */
  lemma PathsTestedIff(outcomes: seq<PathOutcome>, cfg: SimulationConfig, sigmoid: Sigmoid)
    requires !Summary(outcomes, cfg, sigmoid).skipped
    ensures Summary(outcomes, cfg, sigmoid).pathsTested <= |outcomes| <==>
      multiset(outcomes)[SellFailed] <= multiset(outcomes)[BuyFailed]
  {
  }

  /** The order of the paths does not matter. */
  lemma SummaryOfPermutation(a: seq<PathOutcome>, b: seq<PathOutcome>, cfg: SimulationConfig, sigmoid: Sigmoid)
    requires multiset(a) == multiset(b)
    ensures Summary(a, cfg, sigmoid) == Summary(b, cfg, sigmoid)
  {
    SumOfPermutation(a, b, Tax);
    assert |a| == |multiset(a)| == |b|;
  }

  /** The outcome of path `k` of a script on which no path ends the simulation. */
  ghost predicate AllTested(script: Script, n: nat, probe: nat) {
    forall k :: 0 <= k < n ==> StepOf(script(k), probe).Tested?
  }

  lemma {:induction false} WalkOutcomes(script: Script, n: nat, probe: nat)
    requires AllTested(script, n, probe)
    ensures
      var walk := WalkPaths(script, n, probe);
      walk.Outcomes? && |walk.outcomes| == n &&
      forall k :: 0 <= k < n ==> walk.outcomes[k] == StepOf(script(k), probe).outcome
  {
    if n == 0 {
    } else {
      WalkOutcomes(script, n - 1, probe);
    }
  }

  /** A path whose buy delivered tokens that could not be sold again. */
  predicate CannotSell(path: Path) {
    BuysTokens(path) && (!path.sellAccounts.AccountsFound? || path.sell.TxFailed?)
  }

  lemma StepMeaning(path: Path, probe: nat)
    requires StepOf(path, probe).Tested?
    ensures StepOf(path, probe).outcome == BuyFailed <==> !BuysTokens(path)
    ensures StepOf(path, probe).outcome == SellFailed <==> CannotSell(path)
  {
  }

  /** The first path that ends the simulation ends the walk over all of them. */
  lemma {:induction false} WalkMeaning(script: Script, n: nat, probe: nat)
    ensures AllTested(script, n, probe) <==> WalkPaths(script, n, probe).Outcomes?
    ensures !AllTested(script, n, probe) ==> exists k :: EndsAt(script, n, probe, k)
    ensures forall k: nat :: EndsAt(script, n, probe, k) ==>
      WalkPaths(script, n, probe) == Ended(StepOf(script(k), probe))
  {
    hide StepOf;
    if n == 0 {
    } else {
      WalkMeaning(script, n - 1, probe);
      forall k: nat | EndsAt(script, n, probe, k)
        ensures WalkPaths(script, n, probe) == Ended(StepOf(script(k), probe))
      {
        if k < n - 1 {
          assert EndsAt(script, n - 1, probe, k);
        }
      }
      if AllTested(script, n - 1, probe) {
        assert !AllTested(script, n, probe) ==> EndsAt(script, n, probe, n - 1);
      } else {
        var k :| EndsAt(script, n - 1, probe, k);
        assert EndsAt(script, n, probe, k);
      }
    }
  }

  /** Path `k` is the first one that ends the simulation. */
  ghost predicate EndsAt(script: Script, n: nat, probe: nat, k: nat) {
    k < n && AllTested(script, k, probe) && !StepOf(script(k), probe).Tested?
  }

  /** What the walk over paths that all end with an outcome says about the script itself. */
  lemma TestedMeaning(script: Script, cfg: SimulationConfig, sigmoid: Sigmoid)
    requires AllTested(script, cfg.paths, cfg.probeLamports)
    ensures
      var outcome := SimulationOutcome(script, cfg, sigmoid);
      && outcome.Ok?
      && (outcome.value.skipped <==> forall k :: 0 <= k < cfg.paths ==> !BuysTokens(script(k)))
      && (outcome.value.skipped ==> outcome.value.confidenceAdd == 0.0)
      && 0.0 <= outcome.value.confidenceAdd <= 1.0
      && outcome.value.confidenceAdd != 0.60
      && (outcome.value.confidenceAdd > 0.60 <==> exists k :: 0 <= k < cfg.paths && CannotSell(script(k)))
  {
    hide Summary, StepOf, WalkPaths, BuysTokens, CannotSell;
    WalkOutcomes(script, cfg.paths, cfg.probeLamports);
    var outcomes := WalkPaths(script, cfg.paths, cfg.probeLamports).outcomes;
    SummaryBands(outcomes, cfg, sigmoid);
    forall k | 0 <= k < cfg.paths
      ensures outcomes[k] in outcomes
      ensures outcomes[k] == BuyFailed <==> !BuysTokens(script(k))
      ensures outcomes[k] == SellFailed <==> CannotSell(script(k))
    {
      StepMeaning(script(k), cfg.probeLamports);
    }
  }

  /** Path `k` was run to its end, and its tokens could not be sold. */
  ghost predicate Evidence(script: Script, n: nat, probe: nat, k: nat) {
    k < n && AllTested(script, k + 1, probe) && CannotSell(script(k))
  }

  /** Every answer over every script: a skipped one adds nothing, and one that saw a path without a wired
      provider is skipped. The answer adds more than 0.60, otherwise less, exactly if some bought tokens could not
      be sold, and this holds exactly if no path ended the simulation or no path before it has such evidence. */
  lemma OutcomeMeaning(script: Script, cfg: SimulationConfig, sigmoid: Sigmoid)
    requires SimulationOutcome(script, cfg, sigmoid).Ok?
    ensures
      var answer := SimulationOutcome(script, cfg, sigmoid).value;
      var tested := AllTested(script, cfg.paths, cfg.probeLamports);
      var evidence := exists k :: Evidence(script, cfg.paths, cfg.probeLamports, k);
      && (answer.skipped ==> answer.confidenceAdd == 0.0)
      && 0.0 <= answer.confidenceAdd <= 1.0 && answer.confidenceAdd != 0.60
      && (answer.skipped <==> !tested || forall k :: 0 <= k < cfg.paths ==> !BuysTokens(script(k)))
      && ((answer.confidenceAdd > 0.60 <==> evidence) <==> tested || !evidence)
  {
    hide Summary, StepOf, WalkPaths, BuysTokens, CannotSell;
    WalkMeaning(script, cfg.paths, cfg.probeLamports);
    if AllTested(script, cfg.paths, cfg.probeLamports) {
      TestedMeaning(script, cfg, sigmoid);
      forall k | 0 <= k < cfg.paths && CannotSell(script(k))
        ensures Evidence(script, cfg.paths, cfg.probeLamports, k)
      {
      }
    }
  }

  /** There is an answer exactly if no path ends the simulation or the first one that does is not wired. */
  lemma AnswersIff(script: Script, cfg: SimulationConfig, sigmoid: Sigmoid)
    ensures SimulationOutcome(script, cfg, sigmoid).Ok? <==>
      AllTested(script, cfg.paths, cfg.probeLamports) ||
      exists k :: EndsAt(script, cfg.paths, cfg.probeLamports, k) && StepOf(script(k), cfg.probeLamports).Unwired?
  {
    hide Summary, StepOf, WalkPaths;
    WalkMeaning(script, cfg.paths, cfg.probeLamports);
  }

  /** A provider that is not wired for the second path discards the evidence of the first: tokens were
      bought and could not be sold, and the answer is a skip that adds nothing. */
  lemma UnwiredPathDropsEvidence(cfg: SimulationConfig, sigmoid: Sigmoid, reason: string)
    requires cfg.paths == 2
    ensures
      var script: Script := k =>
        if k == 0 then Path(AccountsFound, TxDone(1, 0), AccountsFound, TxFailed)
        else Path(NotWired(reason), RpcError, AccountsError, RpcError);
      && CannotSell(script(0))
      && SimulationOutcome(script, cfg, sigmoid) == Ok(Skip(ProviderNotWired(reason), 0))
  {
    var script: Script := k =>
      if k == 0 then Path(AccountsFound, TxDone(1, 0), AccountsFound, TxFailed)
      else Path(NotWired(reason), RpcError, AccountsError, RpcError);
    WalkMeaning(script, 2, cfg.probeLamports);
    assert EndsAt(script, 2, cfg.probeLamports, 1);
  }

  // ---------------------------------------------------------------------------------------------
  // Order of the paths
  // ---------------------------------------------------------------------------------------------

  function Paths(script: Script, n: nat): (paths: seq<Path>)
    ensures |paths| == n && forall k :: 0 <= k < n ==> paths[k] == script(k)
  {
    seq(n, k requires 0 <= k < n => script(k))
  }

  /** The script that takes the given paths in order. */
  function InOrder(paths: seq<Path>): Script {
    (k: nat) => if k < |paths| then paths[k] else Path(AccountsError, RpcError, AccountsError, RpcError)
  }

  ghost predicate Reorders(paths: seq<Path>, script: Script, n: nat) { multiset(paths) == multiset(Paths(script, n)) }

  /** All paths that end the simulation end it alike. */
  ghost predicate EndsAlike(script: Script, n: nat, probe: nat) {
    forall k, l | 0 <= k < n && 0 <= l < n && !StepOf(script(k), probe).Tested? && !StepOf(script(l), probe).Tested? ::
      StepOf(script(k), probe) == StepOf(script(l), probe)
  }

  lemma ReorderedMember(paths: seq<Path>, script: Script, n: nat, k: nat)
    requires Reorders(paths, script, n)
    ensures |paths| == n
    ensures k < n ==> exists l :: 0 <= l < n && paths[k] == script(l)
    ensures k < n ==> exists l :: 0 <= l < n && script(k) == paths[l]
  {
    var original := Paths(script, n);
    assert |paths| == |multiset(paths)| == |multiset(original)| == n;
    if k < n {
      assert paths[k] in multiset(original) && original[k] in multiset(paths);
      var l :| 0 <= l < n && original[l] == paths[k];
      var m :| 0 <= m < n && paths[m] == original[k];
      assert script(l) == paths[k] && script(k) == paths[m];
    }
  }

  function OutcomeOf(path: Path, probe: nat): PathOutcome {
    match StepOf(path, probe)
    case Tested(outcome) => outcome
    case _ => BuyFailed
  }

  function OutcomesOf(paths: seq<Path>, probe: nat): (o: seq<PathOutcome>)
    ensures |o| == |paths| && forall k :: 0 <= k < |o| ==> o[k] == OutcomeOf(paths[k], probe)
  {
    seq(|paths|, k requires 0 <= k < |paths| => OutcomeOf(paths[k], probe))
  }

  lemma OutcomesWithout(b: seq<Path>, k: nat, probe: nat)
    requires k < |b|
    ensures multiset(OutcomesOf(b, probe)) ==
      multiset{OutcomeOf(b[k], probe)} + multiset(OutcomesOf(b[..k] + b[k + 1..], probe))
  {
    hide OutcomeOf;
    var o := OutcomesOf(b, probe);
    assert OutcomesOf(b[..k] + b[k + 1..], probe) == o[..k] + o[k + 1..];
    SplitAt(o, k);
  }

  lemma FirstOutcome(a: seq<Path>, probe: nat)
    requires a != []
    ensures multiset(OutcomesOf(a, probe)) == multiset{OutcomeOf(a[0], probe)} + multiset(OutcomesOf(a[1..], probe))
  {
    hide *;
    OutcomesWithout(a, 0, probe);
    WithoutFirst(a);
  }

  lemma {:induction false} OutcomesOfPermutation(a: seq<Path>, b: seq<Path>, probe: nat)
    requires multiset(a) == multiset(b)
    ensures multiset(OutcomesOf(a, probe)) == multiset(OutcomesOf(b, probe))
    decreases |a|
  {
    hide *;
    if a == [] {
      NothingElsewhere(b);
    } else {
      var k := FirstElsewhere(a, b);
      OutcomesWithout(b, k, probe);
      FirstOutcome(a, probe);
      OutcomesOfPermutation(a[1..], b[..k] + b[k + 1..], probe);
    }
  }

  lemma TestedOutcome(script: Script, cfg: SimulationConfig, sigmoid: Sigmoid)
    requires AllTested(script, cfg.paths, cfg.probeLamports)
    ensures SimulationOutcome(script, cfg, sigmoid) ==
      Ok(Summary(OutcomesOf(Paths(script, cfg.paths), cfg.probeLamports), cfg, sigmoid))
  {
    hide Summary, StepOf, WalkPaths;
    WalkOutcomes(script, cfg.paths, cfg.probeLamports);
    assert WalkPaths(script, cfg.paths, cfg.probeLamports).outcomes ==
      OutcomesOf(Paths(script, cfg.paths), cfg.probeLamports);
  }

  /** Position `k` of a reordered script holds some path of the original, and the other way round. */
  lemma ReorderedAt(paths: seq<Path>, script: Script, n: nat, k: nat) returns (there: nat, back: nat)
    requires Reorders(paths, script, n) && k < n
    ensures there < n && InOrder(paths)(k) == script(there)
    ensures back < n && script(k) == InOrder(paths)(back)
  {
    ReorderedMember(paths, script, n, k);
    there :| 0 <= there < n && paths[k] == script(there);
    back :| 0 <= back < n && script(k) == paths[back];
  }

  lemma ReorderedTested(paths: seq<Path>, script: Script, n: nat, probe: nat)
    requires Reorders(paths, script, n)
    ensures |paths| == n && (AllTested(InOrder(paths), n, probe) <==> AllTested(script, n, probe))
  {
    hide StepOf, Reorders, InOrder;
    ReordersSize(paths, script, n);
    forall k | 0 <= k < n
      ensures AllTested(script, n, probe) ==> StepOf(InOrder(paths)(k), probe).Tested?
      ensures AllTested(InOrder(paths), n, probe) ==> StepOf(script(k), probe).Tested?
    {
      var there, back := ReorderedAt(paths, script, n, k);
    }
  }

  lemma ReordersSize(paths: seq<Path>, script: Script, n: nat)
    requires Reorders(paths, script, n)
    ensures |paths| == n
  {
    ReorderedMember(paths, script, n, 0);
  }

  /** Where no path ends the simulation, or all that do end it alike, every order gives the same answer. */
  lemma ReorderingKeeps(script: Script, paths: seq<Path>, cfg: SimulationConfig, sigmoid: Sigmoid)
    requires Reorders(paths, script, cfg.paths) && EndsAlike(script, cfg.paths, cfg.probeLamports)
    ensures SimulationOutcome(InOrder(paths), cfg, sigmoid) == SimulationOutcome(script, cfg, sigmoid)
  {
    var n, probe := cfg.paths, cfg.probeLamports;
    hide Summary, StepOf, WalkPaths, EndsAlike, AllTested;
    ReorderedTested(paths, script, n, probe);
    if AllTested(script, n, probe) {
      hide EndsAt, OutcomeOf, SimulationOutcome;
      TestedOutcome(script, cfg, sigmoid);
      TestedOutcome(InOrder(paths), cfg, sigmoid);
      assert Paths(InOrder(paths), n) == paths;
      OutcomesOfPermutation(paths, Paths(script, n), probe);
      SummaryOfPermutation(OutcomesOf(paths, probe), OutcomesOf(Paths(script, n), probe), cfg, sigmoid);
    } else {
      hide Reorders, InOrder;
      WalkMeaning(script, n, probe);
      WalkMeaning(InOrder(paths), n, probe);
      var k :| EndsAt(script, n, probe, k);
      var m :| EndsAt(InOrder(paths), n, probe, m);
      var there, _ := ReorderedAt(paths, script, n, m);
      EndAlike(script, n, probe, k, there);
    }
  }

  lemma EndAlike(script: Script, n: nat, probe: nat, k: nat, l: nat)
    requires EndsAlike(script, n, probe) && k < n && l < n
    requires !StepOf(script(k), probe).Tested? && !StepOf(script(l), probe).Tested?
    ensures StepOf(script(k), probe) == StepOf(script(l), probe)
  {
    hide StepOf;
  }

  lemma SwapIsPermutation(s: seq<Path>, i: nat, j: nat)
    requires i < j < |s|
    ensures multiset(s[i := s[j]][j := s[i]]) == multiset(s)
  {
  }

  lemma Swapped(script: Script, n: nat, i: nat, j: nat) returns (paths: seq<Path>)
    requires i < j < n
    ensures Reorders(paths, script, n) && |paths| == n && InOrder(paths)(i) == script(j)
    ensures forall k :: 0 <= k < i ==> InOrder(paths)(k) == script(k)
  {
    var original := Paths(script, n);
    paths := original[i := original[j]][j := original[i]];
    SwapIsPermutation(original, i, j);
  }

  /** Where two end it differently, taking the other one first changes the answer. */
  lemma ReorderingChanges(script: Script, cfg: SimulationConfig, sigmoid: Sigmoid, first: nat, m: nat)
    returns (paths: seq<Path>)
    requires EndsAt(script, cfg.paths, cfg.probeLamports, first) && first < m < cfg.paths
    requires !StepOf(script(m), cfg.probeLamports).Tested?
    requires StepOf(script(m), cfg.probeLamports) != StepOf(script(first), cfg.probeLamports)
    ensures Reorders(paths, script, cfg.paths)
    ensures SimulationOutcome(InOrder(paths), cfg, sigmoid) != SimulationOutcome(script, cfg, sigmoid)
  {
    hide Summary, StepOf, WalkPaths, Reorders, InOrder;
    var n, probe := cfg.paths, cfg.probeLamports;
    paths := Swapped(script, n, first, m);
    WalkMeaning(script, n, probe);
    assert EndsAt(InOrder(paths), n, probe, first);
    WalkMeaning(InOrder(paths), n, probe);
  }

  lemma DifferentEnds(script: Script, n: nat, probe: nat) returns (first: nat, m: nat)
    requires !EndsAlike(script, n, probe)
    ensures EndsAt(script, n, probe, first) && first < m < n
    ensures !StepOf(script(m), probe).Tested? && StepOf(script(m), probe) != StepOf(script(first), probe)
  {
    hide StepOf, WalkPaths;
    WalkMeaning(script, n, probe);
    var k, l :| 0 <= k < n && 0 <= l < n && !StepOf(script(k), probe).Tested? && !StepOf(script(l), probe).Tested?
      && StepOf(script(k), probe) != StepOf(script(l), probe);
    assert !AllTested(script, n, probe);
    first :| EndsAt(script, n, probe, first);
    m := if StepOf(script(k), probe) != StepOf(script(first), probe) then k else l;
    assert m >= first;
  }

  /** The order of the paths never matters exactly if all paths that end the simulation end it alike. */
  lemma SimulationIgnoresPathOrderIff(script: Script, cfg: SimulationConfig, sigmoid: Sigmoid)
    ensures EndsAlike(script, cfg.paths, cfg.probeLamports) <==>
      forall paths :: Reorders(paths, script, cfg.paths) ==>
        SimulationOutcome(InOrder(paths), cfg, sigmoid) == SimulationOutcome(script, cfg, sigmoid)
  {
    hide SimulationOutcome, EndsAlike;
    if EndsAlike(script, cfg.paths, cfg.probeLamports) {
      forall paths | Reorders(paths, script, cfg.paths)
        ensures SimulationOutcome(InOrder(paths), cfg, sigmoid) == SimulationOutcome(script, cfg, sigmoid)
      {
        ReorderingKeeps(script, paths, cfg, sigmoid);
      }
    } else {
      var first, m := DifferentEnds(script, cfg.paths, cfg.probeLamports);
      var paths := ReorderingChanges(script, cfg, sigmoid, first, m);
    }
  }

  // ---------------------------------------------------------------------------------------------
  // Static signals and the combination
  // ---------------------------------------------------------------------------------------------

  datatype StaticConfig = StaticConfig(
    taxThresholdBps: nat, minBuyCount: int, ratioSentinel: real, feeAuthorityWeight: real, nonTransferableWeight: real)

  datatype Ratio = Ratio(buyCount: int, buySellRatio: real)

  datatype TokenFacts = TokenFacts(
    freezeAuthority: bool,
    nonTransferable: bool,
    feeBps: nat,
    liveFeeAuthority: bool,
    permanentDelegate: bool,
    transferHook: bool,
    ratio: Option<Ratio>,
    jupVerified: bool)

  function FreezeWeight(facts: TokenFacts, cfg: StaticConfig): real {
    if !facts.freezeAuthority then 0.0 else if facts.nonTransferable then cfg.nonTransferableWeight else 0.25
  }

  function TaxWeight(facts: TokenFacts, cfg: StaticConfig, sigmoid: Sigmoid): real {
    if facts.feeBps > cfg.taxThresholdBps
    then sigmoid((facts.feeBps as real / 10_000.0 - 0.50) / 0.20) * 0.45
    else 0.0
  }

  /** A zero sentinel divides to infinity, which the minimum turns into one. */
  function RatioWeight(facts: TokenFacts, cfg: StaticConfig): real {
    if facts.ratio.Some? && facts.ratio.value.buyCount >= cfg.minBuyCount
       && facts.ratio.value.buySellRatio > cfg.ratioSentinel
    then (if cfg.ratioSentinel == 0.0 then 1.0
      else Min(facts.ratio.value.buySellRatio / (cfg.ratioSentinel * 10.0), 1.0)) * 0.20
    else 0.0
  }

  function RawScore(facts: TokenFacts, cfg: StaticConfig, sigmoid: Sigmoid): real {
    FreezeWeight(facts, cfg) + TaxWeight(facts, cfg, sigmoid)
    + (if facts.liveFeeAuthority then cfg.feeAuthorityWeight else 0.0)
    + (if facts.permanentDelegate then 0.20 else 0.0)
    + (if facts.transferHook then 0.20 else 0.0)
    + RatioWeight(facts, cfg)
  }

  function StaticConfidence(facts: TokenFacts, cfg: StaticConfig, sigmoid: Sigmoid): real {
    sigmoid(RawScore(facts, cfg, sigmoid) / 0.55 - 1.0)
  }

  /** `compute_static`: the weights are accumulated signal by signal. */
  method ComputeStatic(facts: TokenFacts, cfg: StaticConfig, sigmoid: Sigmoid) returns (confidence: real)
    ensures confidence == StaticConfidence(facts, cfg, sigmoid)
    ensures 0.0 < confidence < 1.0
  {
    hide RatioWeight;
    var raw := 0.0;
    if facts.freezeAuthority {
      raw := raw + if facts.nonTransferable then cfg.nonTransferableWeight else 0.25;
    }
    if facts.feeBps > cfg.taxThresholdBps {
      var taxSig := sigmoid((facts.feeBps as real / 10_000.0 - 0.50) / 0.20);
      raw := raw + taxSig * 0.45;
    }
    if facts.liveFeeAuthority {
      raw := raw + cfg.feeAuthorityWeight;
    }
    if facts.permanentDelegate {
      raw := raw + 0.20;
    }
    if facts.transferHook {
      raw := raw + 0.20;
    }
    raw := raw + RatioWeight(facts, cfg);
    confidence := sigmoid(raw / 0.55 - 1.0);
  }

  /** The combination in `evaluate`, from the static confidence and the simulation (if enabled). */
  function FinalConfidence(base: real, simulation: Option<SimulationResult>, jupVerified: bool): real {
    var add := if simulation.Some? then simulation.value.confidenceAdd else 0.0;
    var skipped := simulation.None? || simulation.value.skipped;
    var combined :=
      if skipped then Min((base + add) * 0.80, 1.0)
      else if add >= 1.0 then 1.0
      else Min(base + add, 1.0);
    if jupVerified then Min(combined, 0.25) else combined
  }

  /** The static confidence is the sigmoid of the score, of which 0.55 is neutral. A freeze authority scores 0.25, or
      the configured weight if the token cannot be transferred; a fee above its threshold 0.45 times a sigmoid around
      50 percent; a live fee authority its configured weight; a permanent delegate and a transfer hook 0.20 each; and
      a trade ratio above its sentinel, seen often enough, up to 0.20 at ten sentinels. `fee` measures the fee in
      steps of 20 percent from 50 and `tenths` the ratio in ten sentinels. */
  lemma StaticMeaning(
    facts: TokenFacts, cfg: StaticConfig, sigmoid: Sigmoid, fee: real, tenths: real, score: real, z: real)
    requires facts.feeBps as real == 10_000.0 * (0.50 + 0.20 * fee)
    requires facts.ratio.Some? && cfg.ratioSentinel != 0.0 ==>
      tenths * (10.0 * cfg.ratioSentinel) == facts.ratio.value.buySellRatio
    requires cfg.ratioSentinel == 0.0 ==> tenths == 1.0
    requires score ==
      (if facts.freezeAuthority && facts.nonTransferable then cfg.nonTransferableWeight else 0.0)
      + (if facts.freezeAuthority && !facts.nonTransferable then 0.25 else 0.0)
      + (if facts.feeBps > cfg.taxThresholdBps then 0.45 * sigmoid(fee) else 0.0)
      + (if facts.liveFeeAuthority then cfg.feeAuthorityWeight else 0.0)
      + (if facts.permanentDelegate then 0.20 else 0.0) + (if facts.transferHook then 0.20 else 0.0)
      + (if facts.ratio.Some? && facts.ratio.value.buyCount >= cfg.minBuyCount
            && facts.ratio.value.buySellRatio > cfg.ratioSentinel
         then 0.20 * (if tenths < 1.0 then tenths else 1.0) else 0.0)
    requires 0.55 * (z + 1.0) == score
    ensures StaticConfidence(facts, cfg, sigmoid) == sigmoid(z)
  {
    assert (facts.feeBps as real / 10_000.0 - 0.50) / 0.20 == fee;
    RatioWeightIs(facts, cfg);
    hide RatioWeight;
    if facts.ratio.Some? && cfg.ratioSentinel != 0.0 {
      assert cfg.ratioSentinel * 10.0 == 10.0 * cfg.ratioSentinel;
      SameQuotient(tenths, facts.ratio.value.buySellRatio, cfg.ratioSentinel * 10.0);
    }
    assert RawScore(facts, cfg, sigmoid) == score;
    assert score / 0.55 - 1.0 == z;
  }

  /** The final confidence: without a simulation, or with a skipped one, 0.80 of the sum; a simulation that adds one
      decides alone; otherwise the sum; all at most one, and for a verified token at most 0.25. */
  lemma FinalMeaning(base: real, simulation: Option<SimulationResult>, jupVerified: bool)
    ensures
      var add := if simulation.None? then 0.0 else simulation.value.confidenceAdd;
      var final := FinalConfidence(base, simulation, jupVerified);
      var limit := if jupVerified then 0.25 else 1.0;
      var sum :=
        if simulation.None? || simulation.value.skipped then 0.80 * (base + add)
        else if add < 1.0 then base + add else 1.0;
      final == if sum < limit then sum else limit
  {
  }

  /** At least as risky in every signal: no flag is dropped, no fee is lowered, no attenuation is gained, and
      a trade ratio appears or worsens. */
  predicate NoLessRisky(a: TokenFacts, b: TokenFacts) {
    && (a.freezeAuthority ==> b.freezeAuthority)
    && (b.nonTransferable ==> a.nonTransferable)
    && a.feeBps <= b.feeBps
    && (a.liveFeeAuthority ==> b.liveFeeAuthority)
    && (a.permanentDelegate ==> b.permanentDelegate)
    && (a.transferHook ==> b.transferHook)
    && (a.ratio.None? || (b.ratio.Some? && a.ratio.value.buyCount <= b.ratio.value.buyCount
        && a.ratio.value.buySellRatio <= b.ratio.value.buySellRatio))
    && (b.jupVerified ==> a.jupVerified)
  }

  lemma TaxWeightGrows(a: TokenFacts, b: TokenFacts, cfg: StaticConfig, sigmoid: Sigmoid)
    requires a.feeBps <= b.feeBps
    ensures 0.0 <= TaxWeight(a, cfg, sigmoid) <= TaxWeight(b, cfg, sigmoid) < 0.45
  {
    var x, y := (a.feeBps as real / 10_000.0 - 0.50) / 0.20, (b.feeBps as real / 10_000.0 - 0.50) / 0.20;
    assert x <= y;
    assert sigmoid(x) <= sigmoid(y);
  }

  function RatioScore(ratio: real, sentinel: real): real {
    (if sentinel == 0.0 then 1.0 else Min(ratio / (sentinel * 10.0), 1.0)) * 0.20
  }

  lemma RatioScoreGrows(x: real, y: real, sentinel: real)
    requires sentinel >= 0.0 && sentinel < x <= y
    ensures 0.0 <= RatioScore(x, sentinel) <= RatioScore(y, sentinel)
  {
    if sentinel > 0.0 {
      var d := sentinel * 10.0;
      QuotientBound(x, d, 0.0);
      QuotientBound(y, d, y / d);
      QuotientBound(x, d, y / d);
    }
  }

  lemma RatioWeightIs(facts: TokenFacts, cfg: StaticConfig)
    ensures RatioWeight(facts, cfg) ==
      if facts.ratio.Some? && facts.ratio.value.buyCount >= cfg.minBuyCount &&
        facts.ratio.value.buySellRatio > cfg.ratioSentinel
      then RatioScore(facts.ratio.value.buySellRatio, cfg.ratioSentinel) else 0.0
  {
  }

  lemma RatioWeightGrows(a: TokenFacts, b: TokenFacts, cfg: StaticConfig)
    requires NoLessRisky(a, b) && cfg.ratioSentinel >= 0.0
    ensures RatioWeight(a, cfg) <= RatioWeight(b, cfg)
  {
    RatioWeightIs(a, cfg);
    RatioWeightIs(b, cfg);
    hide RatioWeight, RatioScore;
    var s := cfg.ratioSentinel;
    if b.ratio.Some? && b.ratio.value.buySellRatio > s {
      RatioScoreGrows(b.ratio.value.buySellRatio, b.ratio.value.buySellRatio, s);
      if a.ratio.Some? && a.ratio.value.buySellRatio > s {
        RatioScoreGrows(a.ratio.value.buySellRatio, b.ratio.value.buySellRatio, s);
      }
    }
  }

  /** The settings with which every signal adds to the score and the attenuation never exceeds what it
      attenuates. */
  predicate WeightsAdd(cfg: StaticConfig) {
    0.0 <= cfg.nonTransferableWeight <= 0.25 && cfg.feeAuthorityWeight >= 0.0 && cfg.ratioSentinel >= 0.0
  }

  lemma StaticGrows(a: TokenFacts, b: TokenFacts, cfg: StaticConfig, sigmoid: Sigmoid)
    requires NoLessRisky(a, b) && WeightsAdd(cfg)
    ensures StaticConfidence(a, cfg, sigmoid) <= StaticConfidence(b, cfg, sigmoid)
  {
    hide TaxWeight, RatioWeight;
    TaxWeightGrows(a, b, cfg, sigmoid);
    RatioWeightGrows(a, b, cfg);
    var x, y := RawScore(a, cfg, sigmoid), RawScore(b, cfg, sigmoid);
    assert x <= y;
    assert x < y ==> sigmoid(x / 0.55 - 1.0) < sigmoid(y / 0.55 - 1.0);
  }

  const HARMLESS: TokenFacts := TokenFacts(false, false, 0, false, false, false, None, false)

  /** Two tokens on which the static confidence falls although the risk does not, for other settings. */
  lemma StaticFalls(cfg: StaticConfig, sigmoid: Sigmoid) returns (a: TokenFacts, b: TokenFacts)
    requires !WeightsAdd(cfg)
    ensures NoLessRisky(a, b) && StaticConfidence(a, cfg, sigmoid) > StaticConfidence(b, cfg, sigmoid)
  {
    a, b := HARMLESS, HARMLESS;
    if cfg.nonTransferableWeight < 0.0 {
      a := a.(nonTransferable := true);
      b := a.(freezeAuthority := true);
    } else if cfg.nonTransferableWeight > 0.25 {
      b := b.(freezeAuthority := true);
      a := b.(nonTransferable := true);
    } else if cfg.feeAuthorityWeight < 0.0 {
      b := b.(liveFeeAuthority := true);
    } else {
      b := b.(ratio := Some(Ratio(cfg.minBuyCount, 1.0)));
      NegativeSentinel(cfg.ratioSentinel);
    }
    RatioWeightIs(a, cfg);
    RatioWeightIs(b, cfg);
    hide RatioWeight, RatioScore;
    assert TaxWeight(a, cfg, sigmoid) == TaxWeight(b, cfg, sigmoid);
    var x, y := RawScore(a, cfg, sigmoid), RawScore(b, cfg, sigmoid);
    assert y < x;
    assert sigmoid(y / 0.55 - 1.0) < sigmoid(x / 0.55 - 1.0);
  }

  lemma NegativeSentinel(sentinel: real)
    requires sentinel < 0.0
    ensures RatioScore(1.0, sentinel) < 0.0
  {
    var d := -(sentinel * 10.0);
    QuotientBound(-1.0, d, 0.0);
    assert 1.0 / (sentinel * 10.0) == -1.0 / d;
    assert -1.0 / d < 0.0 by {
      if -1.0 / d >= 0.0 {
        QuotientBound(-1.0, d, 0.0);
      }
    }
  }

  /** More risk signals never lower the static confidence, whatever the tokens, exactly for those settings. */
  lemma StaticGrowsIff(cfg: StaticConfig, sigmoid: Sigmoid)
    ensures WeightsAdd(cfg) <==>
      forall a, b :: NoLessRisky(a, b) ==> StaticConfidence(a, cfg, sigmoid) <= StaticConfidence(b, cfg, sigmoid)
  {
    hide StaticConfidence;
    if WeightsAdd(cfg) {
      forall a, b | NoLessRisky(a, b)
        ensures StaticConfidence(a, cfg, sigmoid) <= StaticConfidence(b, cfg, sigmoid)
      {
        StaticGrows(a, b, cfg, sigmoid);
      }
    } else {
      var a, b := StaticFalls(cfg, sigmoid);
    }
  }

  function Added(simulation: Option<SimulationResult>): real {
    if simulation.Some? then simulation.value.confidenceAdd else 0.0
  }

  predicate WasSkipped(simulation: Option<SimulationResult>) { simulation.None? || simulation.value.skipped }

  /** What `OutcomeMeaning` establishes about every answer of the simulation. */
  predicate Consistent(simulation: Option<SimulationResult>) {
    && 0.0 <= Added(simulation) <= 1.0
    && (WasSkipped(simulation) ==> Added(simulation) == 0.0)
  }

  /** A higher static confidence with a simulation that adds no less, or is no longer skipped, never lowers
      the final one, which is a confidence and at most 0.25 for a verified token. */
  lemma ConfidenceGrowsWithRisk(
    s: real, t: real, p: Option<SimulationResult>, q: Option<SimulationResult>, verifiedBefore: bool, verified: bool)
    requires 0.0 < s <= t < 1.0 && (verified ==> verifiedBefore)
    requires Consistent(p) && Consistent(q) && Added(p) <= Added(q) && (WasSkipped(q) ==> WasSkipped(p))
    ensures 0.0 <= FinalConfidence(s, p, verifiedBefore) <= FinalConfidence(t, q, verified) <= 1.0
    ensures verified ==> FinalConfidence(t, q, verified) <= 0.25
  {
  }
}
