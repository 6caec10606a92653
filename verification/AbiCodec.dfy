/** The `getAmountsOut` call of the D01 EVM branch (`d01_honeypot.rs`): the calldata it builds and the
    response it reads, against the encoding of the Solidity Contract ABI Specification, section "Formal
    Specification of the Encoding". */
module AbiCodec {
  import opened Wrappers
  import opened EvmCodec
  import opened Octets
  import Quotients
  import Signals

  function Zeros(n: nat): (z: Bytes)
    ensures |z| == n && forall k :: 0 <= k < n ==> z[k] == 0
  {
    if n == 0 then [] else Zeros(n - 1) + [0]
  }

  const SELECTOR: Bytes := [0xd0, 0x6c, 0xa6, 0x1f]

  /** 10^18 as eight bytes. */
  const PROBE_BYTES: Bytes := [0x0d, 0xe0, 0xb6, 0xb3, 0xa7, 0x64, 0x00, 0x00]
  const PROBE: nat := 1_000_000_000_000_000_000

  // ---------------------------------------------------------------------------------------------
  // A reference decoder for calls of (uint256, address[])
  // ---------------------------------------------------------------------------------------------

  /** The 32-byte word at an offset. */
  function WordAt(data: Bytes, offset: nat): Bytes
    requires offset + 32 <= |data|
  {
    data[offset..offset + 32]
  }

  /** An address is a word whose high 12 bytes are zero. */
  function DecodeAddresses(data: Bytes, offset: nat, n: nat): Option<seq<Bytes>>
    decreases n
  {
    if n == 0 then Some([])
    else if offset + 32 > |data| || WordAt(data, offset)[..12] != Zeros(12) then None
    else match DecodeAddresses(data, offset + 32, n - 1)
      case None => None
      case Some(rest) => Some([WordAt(data, offset)[12..]] + rest)
  }

  datatype Quote = Quote(amountIn: nat, path: seq<Bytes>)

  /** Selector, then the head: the amount and the offset of the array; at the offset its length and its
      elements. */
  function DecodeCall(calldata: Bytes): Option<Quote> {
    if |calldata| < 4 || calldata[..4] != SELECTOR then None
    else
      var params := calldata[4..];
      if |params| < 64 then None
      else
        var offset := BigEndian(WordAt(params, 32));
        if offset + 32 > |params| then None
        else match DecodeAddresses(params, offset + 32, BigEndian(WordAt(params, offset)))
          case None => None
          case Some(path) => Some(Quote(BigEndian(WordAt(params, 0)), path))
  }

  // ---------------------------------------------------------------------------------------------
  // Building the calldata
  // ---------------------------------------------------------------------------------------------

  lemma {:induction false} LeftPadded(n: nat, b: Bytes)
    ensures BigEndian(Zeros(n) + b) == BigEndian(b)
  {
    if b != [] {
      assert (Zeros(n) + b)[..n + |b| - 1] == Zeros(n) + b[..|b| - 1];
      LeftPadded(n, b[..|b| - 1]);
    } else {
      assert Zeros(n) + b == Zeros(n);
      if n > 0 {
        LeftPadded(n - 1, []);
        assert Zeros(n - 1) + [] == Zeros(n - 1);
        assert Zeros(n)[..n - 1] == Zeros(n - 1);
      }
    }
  }

  lemma ProbeValue()
    ensures BigEndian(PROBE_BYTES) == PROBE
  {
    var p := PROBE_BYTES;
    assert p[..7][..6] == p[..6] && p[..6][..5] == p[..5] && p[..5][..4] == p[..4];
    assert p[..4][..3] == p[..3] && p[..3][..2] == p[..2] && p[..2][..1] == p[..1] && p[..1][..0] == [];
    assert BigEndian(p[..1]) == 0x0d;
    assert BigEndian(p[..2]) == 0x0de0;
    assert BigEndian(p[..3]) == 0x0de0b6;
    assert BigEndian(p[..4]) == 0x0de0b6b3;
    assert BigEndian(p[..5]) == 0x0de0b6b3a7;
    assert BigEndian(p[..6]) == 0x0de0b6b3a764;
    assert BigEndian(p[..7]) == 0x0de0b6b3a76400;
  }

  lemma SmallValue(b: bv8)
    ensures BigEndian([b]) == b as nat
  {
    assert [b][..0] == [];
  }

  /** `build_get_amounts_out_calldata`: the buffer is filled word by word. */
  method BuildGetAmountsOutCalldata(token: Bytes, weth: Bytes) returns (result: Result<Bytes, AddressError>)
    ensures ParsedAddress(token).Err? ==> result == Err(ParsedAddress(token).error)
    ensures ParsedAddress(token).Ok? && ParsedAddress(weth).Err? ==> result == Err(ParsedAddress(weth).error)
    ensures ParsedAddress(token).Ok? && ParsedAddress(weth).Ok? ==>
      && result.Ok? && |result.value| == 164
      && result.value[..4] == [0xd0, 0x6c, 0xa6, 0x1f]
      && DecodeCall(result.value) ==
         Some(Quote(1_000_000_000_000_000_000, [ParsedAddress(token).value, ParsedAddress(weth).value]))
  {
    hide ParsedAddress, BigEndian, DecodeAddresses, Zeros;
    var parsedToken := ParseEvmAddress(token);
    if parsedToken.Err? {
      return Err(parsedToken.error);
    }
    var parsedWeth := ParseEvmAddress(weth);
    if parsedWeth.Err? {
      return Err(parsedWeth.error);
    }
    var calldata := [0xd0, 0x6c, 0xa6, 0x1f];
    calldata := calldata + (Zeros(24) + PROBE_BYTES);
    calldata := calldata + (Zeros(31) + [64]);
    calldata := calldata + (Zeros(31) + [2]);
    calldata := calldata + (Zeros(12) + parsedToken.value);
    calldata := calldata + (Zeros(12) + parsedWeth.value);
    CalldataDecodes(calldata, parsedToken.value, parsedWeth.value);
    return Ok(calldata);
  }

  lemma WordsInOrder(params: Bytes, a: Bytes, b: Bytes, c: Bytes, rest: Bytes)
    requires |a| == |b| == |c| == 32 && params == a + b + c + rest
    ensures WordAt(params, 0) == a && WordAt(params, 32) == b && WordAt(params, 64) == c && params[96..] == rest
  {
  }

  lemma CalldataDecodes(calldata: Bytes, token: Bytes, weth: Bytes)
    requires |token| == |weth| == 20
    requires calldata ==
      SELECTOR + (Zeros(24) + PROBE_BYTES) + (Zeros(31) + [64]) + (Zeros(31) + [2]) + (Zeros(12) + token) +
        (Zeros(12) + weth)
    ensures |calldata| == 164
    ensures DecodeCall(calldata) == Some(Quote(PROBE, [token, weth]))
  {
    hide BigEndian, DecodeAddresses, Zeros, WordAt;
    var probe, start, count := Zeros(24) + PROBE_BYTES, Zeros(31) + [64], Zeros(31) + [2];
    var path := (Zeros(12) + token) + (Zeros(12) + weth);
    var params := probe + start + count + path;
    assert calldata[..4] == SELECTOR && calldata[4..] == params;
    WordsInOrder(params, probe, start, count, path);
    LeftPadded(24, PROBE_BYTES);
    ProbeValue();
    LeftPadded(31, [64]);
    SmallValue(64);
    LeftPadded(31, [2]);
    SmallValue(2);
    PathDecodes(params, token, weth);
  }

  lemma PathDecodes(params: Bytes, token: Bytes, weth: Bytes)
    requires |token| == |weth| == 20 && |params| == 160
    requires params[96..] == (Zeros(12) + token) + (Zeros(12) + weth)
    ensures DecodeAddresses(params, 96, 2) == Some([token, weth])
  {
    hide Zeros;
    assert WordAt(params, 96) == params[96..][..32] == Zeros(12) + token;
    assert WordAt(params, 128) == params[96..][32..] == Zeros(12) + weth;
    assert DecodeAddresses(params, 160, 0) == Some([]);
    assert DecodeAddresses(params, 128, 1) == Some([weth] + []);
    assert [token] + ([weth] + []) == [token, weth];
  }

  // ---------------------------------------------------------------------------------------------
  // Reading the response
  // ---------------------------------------------------------------------------------------------

  /** What `eth_call` returns. */
  datatype CallResult = Returned(bytes: Bytes) | Reverted | CallFailed

  /** The verdict on the two amounts. */
  function Verdict(amountIn: nat, amountOut: nat, threshold: real): real {
    if amountIn == 0 then 0.0
    else if amountOut == 0 then 0.80
    else if Signals.Max(1.0 - amountOut as real / amountIn as real, 0.0) > threshold then 0.80
    else 0.0
  }

  /** The response handling of `evm_simulate_sell`: the low 16 bytes of the third and fourth word. */
  function Classify(response: CallResult, threshold: real): Option<real> {
    match response
    case Returned(bytes) =>
      if |bytes| < 128 then Some(0.0)
      else Some(Verdict(BigEndian(bytes[64..96][16..32]), BigEndian(bytes[96..128][16..32]), threshold))
    case Reverted => Some(0.40)
    case CallFailed => None
  }

  /** The reader answers 0.40 for a reverted call and passes on the error of a failed one; a response too short for two
      amounts is no evidence, and of a longer one it judges bytes 80 to 95 and 112 to 127 as big-endian numbers. */
  lemma ClassifyMeaning(bytes: Bytes, threshold: real)
    ensures Classify(Reverted, threshold) == Some(0.40) && Classify(CallFailed, threshold) == None
    ensures |bytes| < 128 ==> Classify(Returned(bytes), threshold) == Some(0.0)
    ensures |bytes| >= 128 ==>
      Classify(Returned(bytes), threshold) ==
      Some(if LooksLost(BigEndian(bytes[80..96]), BigEndian(bytes[112..128]), threshold) then 0.80 else 0.0)
  {
    hide Verdict, LooksLost, BigEndian;
    if |bytes| >= 128 {
      assert bytes[64..96][16..32] == bytes[80..96] && bytes[96..128][16..32] == bytes[112..128];
      VerdictMeaning(BigEndian(bytes[80..96]), BigEndian(bytes[112..128]), threshold);
    }
  }

  /** The `k` low-order bytes of a number, most significant first. */
  function ToBytes(n: nat, k: nat): (b: Bytes)
    ensures |b| == k
  {
    if k == 0 then [] else ToBytes(n / 256, k - 1) + [ByteOf(n % 256)]
  }

  lemma {:induction false} LowBytes(n: nat, k: nat, j: nat)
    requires j <= k
    ensures ToBytes(n, k)[k - j..] == ToBytes(n, j)
  {
    if j > 0 {
      LowBytes(n / 256, k - 1, j - 1);
      assert ToBytes(n, k)[k - j..] == ToBytes(n / 256, k - 1)[k - j..] + [ByteOf(n % 256)];
    } else {
      assert ToBytes(n, k)[k..] == [];
    }
  }

  lemma SplitRemainder(n: nat, p: nat)
    requires p > 0
    ensures n % (256 * p) == 256 * (n / 256 % p) + n % 256
  {
    var q, r := n / 256, n % 256;
    var a, b := q / p, q % p;
    assert n == 256 * (a * p + b) + r;
    assert 256 * (a * p + b) + r == a * (256 * p) + (256 * b + r);
    assert 0 <= 256 * b + r < 256 * p;
    UniqueRemainder(n, 256 * p, a, 256 * b + r);
  }

  lemma UniqueRemainder(n: nat, d: nat, q: nat, r: nat)
    requires d > 0 && n == q * d + r && r < d
    ensures n % d == r
  {
    var x := n / d - q;
    assert x * d == r - n % d;
  }

  /** Writing a number in `k` bytes and reading it back keeps it modulo 256^k. */
  lemma {:induction false} ToBytesRoundTrip(n: nat, k: nat)
    ensures Power(k) > 0 && BigEndian(ToBytes(n, k)) == n % Power(k)
  {
    if k == 0 {
    } else {
      ToBytesRoundTrip(n / 256, k - 1);
      ByteValue(n % 256);
      SplitRemainder(n, Power(k - 1));
      assert ToBytes(n, k)[..k - 1] == ToBytes(n / 256, k - 1);
    }
  }

  /** 256 to the n. */
  function Power(n: nat): nat { if n == 0 then 1 else 256 * Power(n - 1) }

  const TWO_POW_128: nat := 0x1_0000_0000_0000_0000_0000_0000_0000_0000

  lemma Power16()
    ensures Power(16) == TWO_POW_128
  {
    assert Power(2) == 0x1_0000 && Power(4) == 0x1_0000_0000;
    assert Power(6) == 0x1_0000_0000_0000 && Power(8) == 0x1_0000_0000_0000_0000;
    assert Power(10) == 0x1_0000_0000_0000_0000_0000 && Power(12) == 0x1_0000_0000_0000_0000_0000_0000;
    assert Power(14) == 0x1_0000_0000_0000_0000_0000_0000_0000;
  }

  /** The standard encoding of a two-element `uint256[]`. */
  function EncodeAmounts(amountIn: nat, amountOut: nat): Bytes {
    ToBytes(32, 32) + ToBytes(2, 32) + ToBytes(amountIn, 32) + ToBytes(amountOut, 32)
  }

  /** On the standard encoding of any two amounts the decoder reads both modulo 2^128 and judges by them
      alone. */
  lemma ReadsAmountsModulo(amountIn: nat, amountOut: nat, threshold: real)
    ensures Classify(Returned(EncodeAmounts(amountIn, amountOut)), threshold) ==
      Some(Verdict(amountIn % TWO_POW_128, amountOut % TWO_POW_128, threshold))
  {
    hide ToBytes, BigEndian, Verdict, Power;
    var bytes := EncodeAmounts(amountIn, amountOut);
    assert bytes[64..96] == ToBytes(amountIn, 32) && bytes[96..128] == ToBytes(amountOut, 32);
    LowHalf(amountIn);
    LowHalf(amountOut);
  }

  lemma LowHalf(n: nat)
    ensures BigEndian(ToBytes(n, 32)[16..32]) == n % TWO_POW_128
  {
    hide ToBytes, BigEndian, Power;
    LowBytes(n, 32, 16);
    assert ToBytes(n, 32)[16..32] == ToBytes(n, 32)[16..];
    ToBytesRoundTrip(n, 16);
    Power16();
  }

  /** The truncation is visible: an output of exactly 2^128 is taken for a drained pool. */
  lemma TruncatedOutputCounterexample(threshold: real)
    requires threshold >= 0.0
    ensures Classify(Returned(EncodeAmounts(PROBE, TWO_POW_128)), threshold) == Some(0.80)
    ensures Verdict(PROBE, TWO_POW_128, threshold) == 0.0
  {
    ReadsAmountsModulo(PROBE, TWO_POW_128, threshold);
  }

  /** The judgement without a division: something went in, and nothing, or too small a share of it, came out. */
  predicate LooksLost(amountIn: nat, amountOut: nat, threshold: real) {
    amountIn > 0 && (amountOut == 0 || threshold < 0.0 || amountOut as real < (1.0 - threshold) * amountIn as real)
  }

  lemma VerdictMeaning(amountIn: nat, amountOut: nat, threshold: real)
    ensures Verdict(amountIn, amountOut, threshold) == if LooksLost(amountIn, amountOut, threshold) then 0.80 else 0.0
  {
    if amountIn > 0 {
      Quotients.QuotientBound(amountOut as real, amountIn as real, 1.0 - threshold);
    }
  }

  /** For any two amounts the reader judges as their full values deserve exactly if these look lost both before
      and after the truncation, or at neither time; so it always does below 2^128. */
  lemma AnyTruncationIsHarmlessIff(amountIn: nat, amountOut: nat, threshold: real)
    ensures
      var judged := Classify(Returned(EncodeAmounts(amountIn, amountOut)), threshold);
      && (judged == Some(Verdict(amountIn, amountOut, threshold)) <==>
          (LooksLost(amountIn, amountOut, threshold) <==>
           LooksLost(amountIn % TWO_POW_128, amountOut % TWO_POW_128, threshold)))
      && (amountIn < TWO_POW_128 && amountOut < TWO_POW_128 ==>
          judged == Some(Verdict(amountIn, amountOut, threshold)))
  {
    hide Classify, EncodeAmounts, Verdict, LooksLost;
    ReadsAmountsModulo(amountIn, amountOut, threshold);
    VerdictMeaning(amountIn, amountOut, threshold);
    VerdictMeaning(amountIn % TWO_POW_128, amountOut % TWO_POW_128, threshold);
  }

  lemma VerdictIs(amountOut: nat, threshold: real)
    ensures Verdict(PROBE, amountOut, threshold) ==
      if threshold < 0.0 || amountOut == 0 || 1.0 - amountOut as real / PROBE as real > threshold then 0.80 else 0.0
  {
  }

  lemma LargeIsNoLoss(amountOut: nat)
    requires amountOut >= PROBE
    ensures 1.0 - amountOut as real / PROBE as real <= 0.0
  {
    Quotients.QuotientBound(amountOut as real, PROBE as real, 1.0);
  }

  /** For the amount that is probed with, the reader judges an output as its full value deserves exactly if
      the threshold is negative, so that everything looks lost, the output is below 2^128, or what is left of it
      still looks like no loss. */
  lemma TruncationIsHarmlessIff(amountOut: nat, threshold: real)
    ensures
      var left := amountOut % TWO_POW_128;
      Classify(Returned(EncodeAmounts(PROBE, amountOut)), threshold) == Some(Verdict(PROBE, amountOut, threshold)) <==>
        threshold < 0.0 || amountOut < TWO_POW_128 || (left > 0 && 1.0 - left as real / PROBE as real <= threshold)
  {
    hide Classify, EncodeAmounts, Verdict;
    ReadsAmountsModulo(PROBE, amountOut, threshold);
    VerdictIs(amountOut, threshold);
    VerdictIs(amountOut % TWO_POW_128, threshold);
    if amountOut >= TWO_POW_128 {
      LargeIsNoLoss(amountOut);
    }
  }
}
