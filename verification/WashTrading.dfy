/** Signal B of the D05 wash-trading detector (`d05_wash_trading.rs`): transfer cycles, their bottleneck
    volume and the confidence drawn from all qualified cycles. */
module WashTrading {
  import opened Signals
  import opened Powers
  import opened Quotients
  import opened Sums
  import opened Wrappers
  import CycleRecords

  type Cycle = CycleRecords.Cycle

  const U64_MAX: nat := 0xFFFF_FFFF_FFFF_FFFF

  /** `10u64.saturating_pow(decimals)`. */
  function Divisor(decimals: nat): (d: nat)
    ensures d >= 1
  {
    if Pow10(decimals) <= U64_MAX then Pow10(decimals) else U64_MAX
  }

  function EdgeUsd(amountRaw: nat, price: real, decimals: nat): real {
    amountRaw as real / Divisor(decimals) as real * price
  }

  /** The value of an edge, multiplied out: its amount times the price, in units of the power of ten, which saturates
      at 2^64 - 1 from the twentieth on. */
  lemma EdgeUsdMeaning(amountRaw: nat, price: real, decimals: nat)
    ensures
      var unit := if decimals <= 19 then Pow10(decimals) else 18_446_744_073_709_551_615;
      EdgeUsd(amountRaw, price, decimals) * unit as real == amountRaw as real * price
  {
    DivisorMeaning(decimals);
    hide Divisor, Pow10;
    UnitPrice(amountRaw as real, Divisor(decimals) as real, price);
  }

  lemma UnitPrice(amount: real, unit: real, price: real)
    requires unit > 0.0
    ensures amount / unit * price * unit == amount * price
  {
    var units := amount / unit;
    assert units * unit == amount;
    assert units * price * unit == units * unit * price;
  }

  lemma DivisorMeaning(decimals: nat)
    ensures Divisor(decimals) == if decimals <= 19 then Pow10(decimals) else 18_446_744_073_709_551_615
  {
    PowersInU64();
    if decimals <= 19 {
      Pow10Add(decimals, 19 - decimals);
      AtLeastFactor(Pow10(decimals), Pow10(19 - decimals));
    } else {
      Pow10Add(20, decimals - 20);
      AtLeastFactor(Pow10(20), Pow10(decimals - 20));
    }
  }

  lemma AtLeastFactor(a: nat, b: nat)
    requires b >= 1
    ensures a <= a * b
  {
  }

  // ---------------------------------------------------------------------------------------------
  // Volume of one cycle
  // ---------------------------------------------------------------------------------------------

  /** The smallest edge value; zero for a cycle without edges. */
  function CycleVolume(edges: seq<nat>, price: real, decimals: nat): real {
    if edges == [] then 0.0
    else
      var last := EdgeUsd(edges[|edges| - 1], price, decimals);
      if |edges| == 1 then last else Min(CycleVolume(edges[..|edges| - 1], price, decimals), last)
  }

  ghost predicate IsBottleneck(volume: real, edges: seq<nat>, price: real, decimals: nat) {
    && (exists k :: 0 <= k < |edges| && volume == EdgeUsd(edges[k], price, decimals))
    && (forall k :: 0 <= k < |edges| ==> volume <= EdgeUsd(edges[k], price, decimals))
  }

  lemma {:induction false} CycleVolumeIsBottleneck(edges: seq<nat>, price: real, decimals: nat)
    requires edges != []
    ensures IsBottleneck(CycleVolume(edges, price, decimals), edges, price, decimals)
  {
    hide EdgeUsd;
    var last := |edges| - 1;
    if last == 0 {
    } else {
      CycleVolumeIsBottleneck(edges[..last], price, decimals);
      var k :| 0 <= k < last && CycleVolume(edges[..last], price, decimals) ==
        EdgeUsd(edges[..last][k], price, decimals);
      assert edges[..last][k] == edges[k];
      assert forall j :: 0 <= j < last ==> edges[j] == edges[..last][j];
    }
  }

  lemma BottleneckIsUnique(a: real, b: real, edges: seq<nat>, other: seq<nat>, price: real, decimals: nat)
    requires IsBottleneck(a, edges, price, decimals) && IsBottleneck(b, other, price, decimals)
    requires forall x :: x in edges <==> x in other
    ensures a == b
  {
    hide EdgeUsd;
    var i :| 0 <= i < |edges| && a == EdgeUsd(edges[i], price, decimals);
    var j :| 0 <= j < |other| && b == EdgeUsd(other[j], price, decimals);
    assert edges[i] in other && other[j] in edges;
  }

  /** `cycle_volume_usd`: the bottleneck is kept in an option over the loop. */
  method CycleVolumeUsd(cycle: Cycle, price: real, decimals: nat) returns (volume: real)
    ensures cycle.edgeAmounts == [] ==> volume == 0.0
    ensures cycle.edgeAmounts != [] ==> IsBottleneck(volume, cycle.edgeAmounts, price, decimals)
    ensures volume == CycleVolume(cycle.edgeAmounts, price, decimals)
  {
    hide EdgeUsd, IsBottleneck;
    var edges := cycle.edgeAmounts;
    if edges == [] {
      return 0.0;
    }
    var bottleneck: Option<real> := None;
    for k := 0 to |edges|
      invariant bottleneck == if k == 0 then None else Some(CycleVolume(edges[..k], price, decimals))
    {
      var edgeUsd := EdgeUsd(edges[k], price, decimals);
      assert edges[..k + 1][..k] == edges[..k];
      bottleneck := Some(if bottleneck.Some? && bottleneck.value <= edgeUsd then bottleneck.value else edgeUsd);
    }
    assert edges[..|edges|] == edges;
    CycleVolumeIsBottleneck(edges, price, decimals);
    return bottleneck.value;
  }

  function Rotated<T>(s: seq<T>, k: nat): seq<T>
    requires k <= |s|
  {
    s[k..] + s[..k]
  }

  /** Starting the cycle at another vertex keeps its volume. */
  lemma VolumeOfRotation(edges: seq<nat>, k: nat, price: real, decimals: nat)
    requires k <= |edges|
    ensures CycleVolume(Rotated(edges, k), price, decimals) == CycleVolume(edges, price, decimals)
  {
    if edges != [] {
      var rotated := Rotated(edges, k);
      assert edges == edges[..k] + edges[k..];
      forall x
        ensures x in edges <==> x in rotated
      {
      }
      CycleVolumeIsBottleneck(edges, price, decimals);
      CycleVolumeIsBottleneck(rotated, price, decimals);
      var volume, rotatedVolume := CycleVolume(edges, price, decimals), CycleVolume(rotated, price, decimals);
      BottleneckIsUnique(volume, rotatedVolume, edges, rotated, price, decimals);
    }
  }

  lemma EdgeSign(amountRaw: nat, price: real, decimals: nat)
    ensures price >= 0.0 ==> EdgeUsd(amountRaw, price, decimals) >= 0.0
    ensures price <= 0.0 ==> EdgeUsd(amountRaw, price, decimals) <= 0.0
  {
    var units := amountRaw as real / Divisor(decimals) as real;
    QuotientBound(amountRaw as real, Divisor(decimals) as real, 0.0);
    if price >= 0.0 {
      MulMonotone(units, 0.0, price);
    } else {
      MulMonotone(units, price, 0.0);
    }
  }

  lemma VolumeSign(edges: seq<nat>, price: real, decimals: nat)
    ensures price >= 0.0 ==> CycleVolume(edges, price, decimals) >= 0.0
    ensures price <= 0.0 ==> CycleVolume(edges, price, decimals) <= 0.0
  {
    hide EdgeUsd;
    if edges != [] {
      CycleVolumeIsBottleneck(edges, price, decimals);
      var k :| 0 <= k < |edges| && CycleVolume(edges, price, decimals) == EdgeUsd(edges[k], price, decimals);
      EdgeSign(edges[k], price, decimals);
    }
  }

  // ---------------------------------------------------------------------------------------------
  // All qualified cycles
  // ---------------------------------------------------------------------------------------------

  /** The volume of a cycle at a price, as a function to be summed. */
  function VolumeAt(price: real, decimals: nat): Cycle -> real {
    (c: Cycle) => CycleVolume(c.edgeAmounts, price, decimals)
  }

  function Total(cycles: seq<Cycle>, price: real, decimals: nat): real { Sum(cycles, VolumeAt(price, decimals)) }

  function LargestLength(cycles: seq<Cycle>): nat {
    if cycles == [] then 0
    else
      var front, last := LargestLength(cycles[..|cycles| - 1]), |cycles[|cycles| - 1].vertices|;
      if last > front then last else front
  }

  function Wallets(cycles: seq<Cycle>): set<string> {
    set k, v | 0 <= k < |cycles| && 0 <= v < |cycles[k].vertices| :: cycles[k].vertices[v]
  }

  function Confidence(total: real): (c: real)
    ensures 0.40 <= c <= 0.80
  {
    Min(0.40 + 0.40 * Min(Max(total, 0.0) / 10_000.0, 1.0), 0.85)
  }

  datatype SignalB = SignalB(confidence: real, cycleCount: nat, totalUsd: real, largestLength: nat, uniqueWallets: nat)

  function SignalBOf(cycles: seq<Cycle>, price: real, decimals: nat): SignalB {
    if cycles == [] then SignalB(0.0, 0, 0.0, 0, 0)
    else
      var total := Total(cycles, price, decimals);
      SignalB(Confidence(total), |cycles|, total, LargestLength(cycles), |Wallets(cycles)|)
  }

  /** The result in terms of the cycles: nothing for none; otherwise how many they are, the sum of their volumes, the
      number of different members, and a confidence that rises from 0.40 by 0.40 for 10,000 and no further. */
  lemma SignalBMeaning(cycles: seq<Cycle>, price: real, decimals: nat)
    ensures cycles == [] ==> SignalBOf(cycles, price, decimals) == SignalB(0.0, 0, 0.0, 0, 0)
    ensures cycles != [] ==>
      var result := SignalBOf(cycles, price, decimals);
      && result.cycleCount == |cycles|
      && result.totalUsd == Sum(cycles, VolumeAt(price, decimals))
      && result.uniqueWallets == |set c, w | c in cycles && w in c.vertices :: w|
      && (result.totalUsd <= 0.0 ==> result.confidence == 0.40)
      && (0.0 <= result.totalUsd <= 10_000.0 ==> (result.confidence - 0.40) * 10_000.0 == 0.40 * result.totalUsd)
      && (result.totalUsd >= 10_000.0 ==> result.confidence == 0.80)
  {
    hide LargestLength, Sum, CycleVolume;
    WalletsMeaning(cycles);
  }

  lemma WalletsMeaning(cycles: seq<Cycle>)
    ensures Wallets(cycles) == set c, w | c in cycles && w in c.vertices :: w
  {
    forall w | w in Wallets(cycles)
      ensures exists c :: c in cycles && w in c.vertices
    {
      var k, v :| 0 <= k < |cycles| && 0 <= v < |cycles[k].vertices| && cycles[k].vertices[v] == w;
      assert cycles[k] in cycles && w in cycles[k].vertices;
    }
    forall c, w | c in cycles && w in c.vertices
      ensures w in Wallets(cycles)
    {
      var k :| 0 <= k < |cycles| && cycles[k] == c;
      var v :| 0 <= v < |c.vertices| && c.vertices[v] == w;
      assert cycles[k].vertices[v] == w;
    }
  }

  lemma TotalStep(cycles: seq<Cycle>, k: nat, price: real, decimals: nat)
    requires k < |cycles|
    ensures Total(cycles[..k + 1], price, decimals) ==
      Total(cycles[..k], price, decimals) + CycleVolume(cycles[k].edgeAmounts, price, decimals)
    ensures Total([], price, decimals) == 0.0
  {
    var f := VolumeAt(price, decimals);
    assert cycles[..k + 1] == cycles[..k] + [cycles[k]];
    SumOfConcat(cycles[..k], [cycles[k]], f);
    assert [cycles[k]][1..] == [];
  }

  /** The first n members of a cycle. */
  function FirstMembers(vertices: seq<string>, n: nat): set<string>
    requires n <= |vertices|
  {
    set v | 0 <= v < n :: vertices[v]
  }

  lemma FirstMembersStep(vertices: seq<string>, n: nat)
    requires n < |vertices|
    ensures FirstMembers(vertices, n + 1) == FirstMembers(vertices, n) + {vertices[n]}
    ensures FirstMembers(vertices, 0) == {}
  {
  }

  lemma WalletsStep(cycles: seq<Cycle>, k: nat)
    requires k < |cycles|
    ensures Wallets(cycles[..k + 1]) == Wallets(cycles[..k]) + FirstMembers(cycles[k].vertices, |cycles[k].vertices|)
    ensures FirstMembers(cycles[k].vertices, 0) == {}
  {
    assert forall j :: 0 <= j < k ==> cycles[..k + 1][j] == cycles[..k][j];
    forall w | w in Wallets(cycles[..k])
      ensures w in Wallets(cycles[..k + 1])
    {
      var j, v :| 0 <= j < k && 0 <= v < |cycles[..k][j].vertices| && cycles[..k][j].vertices[v] == w;
      assert cycles[..k + 1][j].vertices[v] == w;
    }
    forall v | 0 <= v < |cycles[k].vertices|
      ensures cycles[k].vertices[v] in Wallets(cycles[..k + 1])
    {
      assert cycles[..k + 1][k].vertices[v] == cycles[k].vertices[v];
    }
  }

  lemma LargestLengthStep(cycles: seq<Cycle>, k: nat)
    requires k < |cycles|
    ensures LargestLength(cycles[..k + 1]) ==
      if |cycles[k].vertices| > LargestLength(cycles[..k]) then |cycles[k].vertices| else LargestLength(cycles[..k])
    ensures LargestLength([]) == 0
  {
    assert cycles[..k + 1][..k] == cycles[..k];
  }

  lemma Assembled(cycles: seq<Cycle>, price: real, decimals: nat)
    ensures SignalBOf(cycles, price, decimals) ==
      if cycles == [] then SignalB(0.0, 0, 0.0, 0, 0)
      else
        var total := Total(cycles, price, decimals);
        SignalB(Confidence(total), |cycles|, total, LargestLength(cycles), |Wallets(cycles)|)
  {
  }

  /** `compute_signal_b_cycles`. */
  method ComputeSignalBCycles(cycles: seq<Cycle>, price: real, decimals: nat) returns (result: SignalB)
    ensures result == SignalBOf(cycles, price, decimals)
  {
    hide *;
    Assembled(cycles, price, decimals);
    if cycles == [] {
      return SignalB(0.0, 0, 0.0, 0, 0);
    }
    var totalVol, largestLen := 0.0, 0;
    var uniqueWallets: set<string> := {};
    TotalStep(cycles, 0, price, decimals);
    LargestLengthStep(cycles, 0);
    assert cycles[..0] == [];
    NoWallets();
    for k := 0 to |cycles|
      invariant totalVol == Total(cycles[..k], price, decimals)
      invariant largestLen == LargestLength(cycles[..k])
      invariant uniqueWallets == Wallets(cycles[..k])
    {
      var cycle := cycles[k];
      var vol := CycleVolumeUsd(cycle, price, decimals);
      TotalStep(cycles, k, price, decimals);
      WalletsStep(cycles, k);
      LargestLengthStep(cycles, k);
      totalVol := totalVol + vol;
      if |cycle.vertices| > largestLen {
        largestLen := |cycle.vertices|;
      }
      for v := 0 to |cycle.vertices|
        invariant uniqueWallets == Wallets(cycles[..k]) + FirstMembers(cycle.vertices, v)
      {
        FirstMembersStep(cycle.vertices, v);
        uniqueWallets := uniqueWallets + {cycle.vertices[v]};
      }
    }
    assert cycles[..|cycles|] == cycles;
    result := SignalB(Confidence(totalVol), |cycles|, totalVol, largestLen, |uniqueWallets|);
  }

  lemma NoWallets()
    ensures Wallets([]) == {}
  {
  }

  // ---------------------------------------------------------------------------------------------
  // Guarantees
  // ---------------------------------------------------------------------------------------------

  lemma {:induction false} LargestLengthBounds(cycles: seq<Cycle>)
    ensures forall c :: c in cycles ==> |c.vertices| <= LargestLength(cycles)
    ensures cycles != [] ==> exists c :: c in cycles && |c.vertices| == LargestLength(cycles)
  {
    if cycles == [] {
    } else {
      var front, last := cycles[..|cycles| - 1], cycles[|cycles| - 1];
      LargestLengthBounds(front);
      assert cycles == front + [last] && last in cycles;
    }
  }

  lemma WalletsAreMembers(a: seq<Cycle>, b: seq<Cycle>)
    requires forall c :: c in a ==> c in b
    ensures Wallets(a) <= Wallets(b)
    ensures LargestLength(a) <= LargestLength(b)
  {
    LargestLengthBounds(a);
    LargestLengthBounds(b);
    forall w | w in Wallets(a)
      ensures w in Wallets(b)
    {
      var k, v :| 0 <= k < |a| && 0 <= v < |a[k].vertices| && a[k].vertices[v] == w;
      assert a[k] in b;
      var j :| 0 <= j < |b| && b[j] == a[k];
      assert b[j].vertices[v] == w;
    }
  }

  /** The result does not depend on the order in which the cycles were found. */
  lemma SignalBOfPermutation(a: seq<Cycle>, b: seq<Cycle>, price: real, decimals: nat)
    requires multiset(a) == multiset(b)
    ensures SignalBOf(a, price, decimals) == SignalBOf(b, price, decimals)
  {
    hide Wallets, LargestLength, Confidence;
    SumOfPermutation(a, b, VolumeAt(price, decimals));
    assert |a| == |multiset(a)| == |multiset(b)| == |b|;
    forall c
      ensures c in a <==> c in b
    {
      assert c in a <==> c in multiset(a);
      assert c in b <==> c in multiset(b);
    }
    WalletsAreMembers(a, b);
    WalletsAreMembers(b, a);
    assert Wallets(a) == Wallets(b) && LargestLength(a) == LargestLength(b);
    assert Total(a, price, decimals) == Total(b, price, decimals);
    assert a == [] <==> b == [];
  }

  lemma {:induction false} TotalSign(cycles: seq<Cycle>, price: real, decimals: nat)
    ensures price >= 0.0 ==> Total(cycles, price, decimals) >= 0.0
    ensures price <= 0.0 ==> Total(cycles, price, decimals) <= 0.0
  {
    if cycles == [] {
    } else {
      VolumeSign(cycles[0].edgeAmounts, price, decimals);
      TotalSign(cycles[1..], price, decimals);
    }
  }

  lemma ConfidenceGrows(a: real, b: real)
    requires a <= b || (a <= 0.0 && b <= 0.0)
    ensures Confidence(a) <= Confidence(b)
    ensures Confidence(b) == 0.80 <==> b >= 10_000.0
  {
  }

  /** Further cycles never lower the count, the longest length, the number of wallets or the confidence,
      whatever the price; they never lower the total for a price that is not negative. A nonempty result
      lies in [0.40, 0.80]: the cap of 0.85 is out of reach. */
  lemma FurtherCyclesNeverLower(cycles: seq<Cycle>, more: seq<Cycle>, price: real, decimals: nat)
    ensures
      var before, after := SignalBOf(cycles, price, decimals), SignalBOf(cycles + more, price, decimals);
      && before.cycleCount <= after.cycleCount
      && before.largestLength <= after.largestLength
      && before.uniqueWallets <= after.uniqueWallets
      && before.confidence <= after.confidence
      && (price >= 0.0 ==> before.totalUsd <= after.totalUsd)
      && (cycles != [] ==> 0.40 <= before.confidence <= 0.80)
  {
    hide Wallets, Confidence;
    SumOfConcat(cycles, more, VolumeAt(price, decimals));
    TotalSign(cycles, price, decimals);
    TotalSign(more, price, decimals);
    TotalSign(cycles + more, price, decimals);
    WalletsAreMembers(cycles, cycles + more);
    SubsetSize(Wallets(cycles), Wallets(cycles + more));
    ConfidenceGrows(Total(cycles, price, decimals), Total(cycles + more, price, decimals));
  }

  lemma SubsetSize(a: set<string>, b: set<string>)
    requires a <= b
    ensures |a| <= |b|
  {
    assert b == a + (b - a);
  }

  /** The filter in `evaluate`. */
  predicate Qualifies(cycle: Cycle, price: real, decimals: nat, minVolume: real, maxMinutes: nat) {
    CycleVolume(cycle.edgeAmounts, price, decimals) >= minVolume && cycle.spanMinutes <= maxMinutes
  }

  function Qualified(cycles: seq<Cycle>, price: real, decimals: nat, minVolume: real, maxMinutes: nat): (q: seq<Cycle>)
    ensures forall c :: c in q <==> c in cycles && Qualifies(c, price, decimals, minVolume, maxMinutes)
  {
    if cycles == [] then []
    else
      (if Qualifies(cycles[0], price, decimals, minVolume, maxMinutes) then [cycles[0]] else [])
      + Qualified(cycles[1..], price, decimals, minVolume, maxMinutes)
  }

  /** The filter keeps the cycles of at least the minimum volume within the time window, in their order. */
  lemma {:induction false} QualifiedMeaning(
    cycles: seq<Cycle>, more: seq<Cycle>, c: Cycle, price: real, decimals: nat, minVolume: real, maxMinutes: nat)
    ensures Qualified(cycles + more, price, decimals, minVolume, maxMinutes) ==
      Qualified(cycles, price, decimals, minVolume, maxMinutes) +
      Qualified(more, price, decimals, minVolume, maxMinutes)
    ensures Qualified([c], price, decimals, minVolume, maxMinutes) ==
      if CycleVolume(c.edgeAmounts, price, decimals) < minVolume || c.spanMinutes > maxMinutes then [] else [c]
  {
    hide CycleVolume;
    assert [c][1..] == [];
    if cycles == [] {
      assert cycles + more == more;
    } else {
      assert (cycles + more)[1..] == cycles[1..] + more;
      QualifiedMeaning(cycles[1..], more, c, price, decimals, minVolume, maxMinutes);
    }
  }

  /** After the filter the total is at least the minimum volume for every counted cycle. */
  lemma QualifiedTotal(cycles: seq<Cycle>, price: real, decimals: nat, minVolume: real, maxMinutes: nat)
    ensures
      var result := SignalBOf(Qualified(cycles, price, decimals, minVolume, maxMinutes), price, decimals);
      result.totalUsd >= result.cycleCount as real * minVolume
  {
    hide Wallets, LargestLength, Confidence, CycleVolume, Sum;
    var q := Qualified(cycles, price, decimals, minVolume, maxMinutes);
    hide Qualified;
    forall k | 0 <= k < |q|
      ensures VolumeAt(price, decimals)(q[k]) >= minVolume
    {
      assert q[k] in q;
    }
    SumIsAtLeast(q, VolumeAt(price, decimals), minVolume);
  }
}
