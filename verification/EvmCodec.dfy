/** EVM addresses and transaction hashes as hexadecimal text: `evm_canonical`, `evm_from_hex` and its
    `Display` (`chain.rs`), `parse_evm_address` (`d01_honeypot.rs`). A string is its UTF-8 bytes; the
    digits are those of section 8 of RFC 4648, in either case. */
module EvmCodec {
  import opened Octets
  import opened Wrappers

  type Bytes = seq<bv8>

  const CHAR_0: bv8 := 48
  const CHAR_UPPER_X: bv8 := 88
  const CHAR_LOWER_X: bv8 := 120

  // ---------------------------------------------------------------------------------------------
  // Digits
  // ---------------------------------------------------------------------------------------------

  predicate IsHexDigit(c: bv8) { 48 <= c <= 57 || 97 <= c <= 102 || 65 <= c <= 70 }

  /** `hex_char_to_nibble`. */
  function HexCharToNibble(c: bv8): Option<bv8> {
    if 48 <= c <= 57 then Some(c - 48)
    else if 97 <= c <= 102 then Some(c - 97 + 10)
    else if 65 <= c <= 70 then Some(c - 65 + 10)
    else None
  }

  /** The lower-case digit of a nibble. */
  function Digit(n: bv8): bv8
    requires n < 16
  {
    if n < 10 then 48 + n else 87 + n
  }

  function LowerChar(c: bv8): bv8 { if 65 <= c <= 90 then c + 32 else c }

  function Lower(s: Bytes): (t: Bytes)
    ensures |t| == |s|
  {
    if s == [] then [] else [LowerChar(s[0])] + Lower(s[1..])
  }

  lemma NibbleOfDigit(n: bv8)
    requires n < 16
    ensures HexCharToNibble(Digit(n)) == Some(n)
  {
  }

  lemma DigitOfNibble(c: bv8)
    ensures HexCharToNibble(c).Some? <==> IsHexDigit(c)
    ensures IsHexDigit(c) ==> HexCharToNibble(c).value < 16 && Digit(HexCharToNibble(c).value) == LowerChar(c)
    ensures HexCharToNibble(LowerChar(c)) == HexCharToNibble(c) && LowerChar(LowerChar(c)) == LowerChar(c)
  {
  }

  /** "0123456789abcdef" and "0123456789ABCDEF" in ASCII. */
  const LOWER_DIGITS: Bytes := [48, 49, 50, 51, 52, 53, 54, 55, 56, 57, 97, 98, 99, 100, 101, 102]
  const UPPER_DIGITS: Bytes := [48, 49, 50, 51, 52, 53, 54, 55, 56, 57, 65, 66, 67, 68, 69, 70]

  /** The place of a digit among the sixteen, in either case, is what it stands for; other characters stand for
      nothing. */
  lemma DigitMeaning(n: nat, c: bv8)
    requires n < 16
    ensures HexCharToNibble(LOWER_DIGITS[n]) == HexCharToNibble(UPPER_DIGITS[n]) == Some(n as bv8)
    ensures Digit(n as bv8) == LOWER_DIGITS[n] == LowerChar(UPPER_DIGITS[n]) == LowerChar(LOWER_DIGITS[n])
    ensures IsHexDigit(c) <==> c in LOWER_DIGITS || c in UPPER_DIGITS
    ensures !IsHexDigit(c) ==> HexCharToNibble(c) == None
  {
    DigitAt(n);
    DigitsOf(c);
  }

  lemma DigitAt(n: nat)
    requires n < 16
    ensures HexCharToNibble(LOWER_DIGITS[n]) == HexCharToNibble(UPPER_DIGITS[n]) == Some(n as bv8)
    ensures Digit(n as bv8) == LOWER_DIGITS[n] == LowerChar(UPPER_DIGITS[n]) == LowerChar(LOWER_DIGITS[n])
  {
    assert n in {0, 1, 2, 3, 4, 5, 6, 7, 8, 9, 10, 11, 12, 13, 14, 15};
  }

  lemma DigitsOf(c: bv8)
    ensures IsHexDigit(c) <==> c in LOWER_DIGITS || c in UPPER_DIGITS
    ensures !IsHexDigit(c) ==> HexCharToNibble(c) == None
  {
    if IsHexDigit(c) {
      var n := HexCharToNibble(c).value;
      assert n < 16;
      assert c == LOWER_DIGITS[n as nat] || c == UPPER_DIGITS[n as nat];
    }
  }

  // ---------------------------------------------------------------------------------------------
  // Strings of digits
  // ---------------------------------------------------------------------------------------------

  function HexDecode(s: Bytes): Option<Bytes> {
    if s == [] then Some([])
    else if |s| == 1 then None
    else match (HexCharToNibble(s[0]), HexCharToNibble(s[1]), HexDecode(s[2..]))
      case (Some(hi), Some(lo), Some(rest)) => Some([Pack(hi, lo)] + rest)
      case _ => None
  }

  function HexEncode(b: Bytes): Bytes {
    if b == [] then []
    else
      PackSplit(b[0]);
      [Digit(High(b[0])), Digit(Low(b[0]))] + HexEncode(b[1..])
  }

  ghost predicate AllHex(s: Bytes) { forall k :: 0 <= k < |s| ==> IsHexDigit(s[k]) }

  lemma {:induction false} DecodeSucceedsIff(s: Bytes)
    ensures HexDecode(s).Some? <==> |s| % 2 == 0 && AllHex(s)
    ensures HexDecode(s).Some? ==> 2 * |HexDecode(s).value| == |s|
  {
    if |s| <= 1 {
    } else {
      DecodeSucceedsIff(s[2..]);
      DigitOfNibble(s[0]);
      DigitOfNibble(s[1]);
      if |s| % 2 == 0 && AllHex(s[2..]) && IsHexDigit(s[0]) && IsHexDigit(s[1]) {
        assert forall k :: 2 <= k < |s| ==> s[k] == s[2..][k - 2];
      }
    }
  }

  lemma {:induction false} DecodeOfEncode(b: Bytes)
    ensures HexDecode(HexEncode(b)) == Some(b)
  {
    if b == [] {
    } else {
      var text := HexEncode(b);
      PackSplit(b[0]);
      NibbleOfDigit(High(b[0]));
      NibbleOfDigit(Low(b[0]));
      DecodeOfEncode(b[1..]);
      assert text[2..] == HexEncode(b[1..]);
      assert b == [b[0]] + b[1..];
    }
  }

  lemma {:induction false} EncodeOfDecode(s: Bytes)
    requires HexDecode(s).Some?
    ensures HexEncode(HexDecode(s).value) == Lower(s)
  {
    if |s| <= 1 {
    } else {
      FirstPair(s);
      LowerPair(s);
      hide Pack, High, Low, HexCharToNibble, LowerChar, Digit, HexDecode, HexEncode, Lower;
      DigitOfNibble(s[0]);
      DigitOfNibble(s[1]);
      var hi, lo, rest := HexCharToNibble(s[0]).value, HexCharToNibble(s[1]).value, HexDecode(s[2..]).value;
      SplitPack(hi, lo);
      EncodeOfDecode(s[2..]);
      FirstByte(Pack(hi, lo), rest);
    }
  }

  lemma FirstPair(s: Bytes)
    requires |s| > 1 && HexDecode(s).Some?
    ensures HexCharToNibble(s[0]).Some? && HexCharToNibble(s[1]).Some? && HexDecode(s[2..]).Some?
    ensures HexDecode(s).value ==
      [Pack(HexCharToNibble(s[0]).value, HexCharToNibble(s[1]).value)] + HexDecode(s[2..]).value
  {
    hide HexCharToNibble, Pack;
  }

  lemma LowerStep(s: Bytes)
    requires s != []
    ensures Lower(s) == [LowerChar(s[0])] + Lower(s[1..])
  {
    hide LowerChar;
  }

  lemma LowerPair(s: Bytes)
    requires |s| > 1
    ensures Lower(s) == [LowerChar(s[0]), LowerChar(s[1])] + Lower(s[2..])
  {
    hide *;
    LowerStep(s);
    LowerStep(s[1..]);
    DropTwo(s);
    JoinPair(LowerChar(s[0]), LowerChar(s[1]), Lower(s[2..]));
  }

  lemma DropTwo(s: Bytes)
    requires |s| > 1
    ensures s[1..][0] == s[1] && s[1..][1..] == s[2..]
  {
  }

  lemma JoinPair(a: bv8, b: bv8, rest: Bytes)
    ensures [a] + ([b] + rest) == [a, b] + rest
  {
  }

  lemma FirstByte(x: bv8, rest: Bytes)
    requires High(x) < 16 && Low(x) < 16
    ensures HexEncode([x] + rest) == [Digit(High(x)), Digit(Low(x))] + HexEncode(rest)
  {
    hide High, Low, Digit;
    assert ([x] + rest)[1..] == rest;
  }

  lemma {:induction false} LowerDenotesTheSame(s: Bytes)
    ensures HexDecode(Lower(s)) == HexDecode(s) && Lower(Lower(s)) == Lower(s)
    ensures AllHex(s) ==> AllHex(Lower(s))
  {
    if s == [] {
    } else {
      DigitOfNibble(s[0]);
      LowerDenotesTheSame(s[1..]);
      assert Lower(s)[1..] == Lower(s[1..]);
      if |s| > 1 {
        hide Pack, HexCharToNibble, LowerChar, Digit;
        DigitOfNibble(s[1]);
        LowerDenotesTheSame(s[2..]);
        assert Lower(s)[2..] == Lower(s[1..])[1..] == Lower(s[2..]);
      }
    }
  }

  /** The number that hexadecimal digits denote, most significant first. */
  function Number(s: Bytes): nat {
    if s == [] then 0
    else
      var last := HexCharToNibble(s[|s| - 1]);
      16 * Number(s[..|s| - 1]) + if last.Some? then last.value as nat else 0
  }

  /** The number that bytes denote, most significant first. */
  function BigEndian(b: Bytes): nat {
    if b == [] then 0 else 256 * BigEndian(b[..|b| - 1]) + b[|b| - 1] as nat
  }

  lemma DecodeLastPair(s: Bytes)
    requires |s| >= 2 && HexDecode(s).Some?
    ensures
      var front, last := s[..|s| - 2], HexDecode(s).value;
      && HexDecode(front).Some?
      && HexCharToNibble(s[|s| - 2]).Some? && HexCharToNibble(s[|s| - 1]).Some?
      && last == HexDecode(front).value + [Pack(HexCharToNibble(s[|s| - 2]).value, HexCharToNibble(s[|s| - 1]).value)]
  {
    hide Pack, HexCharToNibble;
    DecodeSucceedsIff(s);
    if |s| > 2 {
      DecodeLastPair(s[2..]);
      assert s[2..][..|s| - 4] == s[..|s| - 2][2..];
    }
  }

  /** The decoded bytes are the number that the digits denote: the high nibble comes first. */
  lemma {:induction false} DecodeIsPositional(s: Bytes)
    requires HexDecode(s).Some?
    ensures BigEndian(HexDecode(s).value) == Number(s)
  {
    if |s| <= 1 {
    } else {
      hide Pack, HexCharToNibble;
      DecodeLastPair(s);
      var front := s[..|s| - 2];
      var hi, lo := HexCharToNibble(s[|s| - 2]).value, HexCharToNibble(s[|s| - 1]).value;
      DecodeIsPositional(front);
      NibbleIsSmall(s[|s| - 2]);
      NibbleIsSmall(s[|s| - 1]);
      PackIsPositional(hi, lo);
      assert HexDecode(s).value[..|HexDecode(front).value|] == HexDecode(front).value;
      assert s[..|s| - 1][..|s| - 2] == front;
    }
  }

  lemma NibbleIsSmall(c: bv8)
    ensures HexCharToNibble(c).Some? ==> HexCharToNibble(c).value < 16
  {
  }

  // ---------------------------------------------------------------------------------------------
  // Addresses
  // ---------------------------------------------------------------------------------------------

  datatype AddressError = MissingPrefix | WrongLength(length: nat) | NotHex

  predicate HasLowerPrefix(s: Bytes) { |s| >= 2 && s[0] == CHAR_0 && s[1] == CHAR_LOWER_X }

  predicate HasUpperPrefix(s: Bytes) { |s| >= 2 && s[0] == CHAR_0 && s[1] == CHAR_UPPER_X }

  function Prefixed(digits: Bytes): Bytes { [CHAR_0, CHAR_LOWER_X] + digits }

  /** `evm_canonical`. */
  function EvmCanonical(raw: Bytes): Result<Bytes, AddressError> {
    if !HasLowerPrefix(raw) && !HasUpperPrefix(raw) then Err(MissingPrefix)
    else if |raw[2..]| != 40 then Err(WrongLength(|raw[2..]|))
    else if exists k :: 0 <= k < 40 && !IsHexDigit(raw[2..][k]) then Err(NotHex)
    else Ok(Prefixed(Lower(raw[2..])))
  }

  /** What `parse_evm_address` computes: only the lower-case prefix is stripped, and it is optional. */
  function ParsedAddress(addr: Bytes): Result<Bytes, AddressError> {
    var stripped := if HasLowerPrefix(addr) then addr[2..] else addr;
    if |stripped| != 40 then Err(WrongLength(|stripped|))
    else match HexDecode(stripped)
      case Some(bytes) => Ok(bytes)
      case None => Err(NotHex)
  }

  lemma PrefixMeaning(s: Bytes)
    ensures HasLowerPrefix(s) <==> |s| >= 2 && s[0] == 48 && s[1] == 120
    ensures HasUpperPrefix(s) <==> |s| >= 2 && s[0] == 48 && s[1] == 88
    ensures Prefixed(s) == [48, 120] + s
  {
  }

  /** Which of the three errors an address or a hash is refused with, by its form alone. */
  lemma ErrorsByForm(s: Bytes)
    ensures !HasLowerPrefix(s) && !HasUpperPrefix(s) ==>
      && EvmCanonical(s) == Err(MissingPrefix) && EvmFromHex(s) == Err(MissingPrefix)
      && (|s| != 40 ==> ParsedAddress(s) == Err(WrongLength(|s|)))
      && (|s| == 40 && !AllHex(s) ==> ParsedAddress(s) == Err(NotHex))
    ensures HasLowerPrefix(s) || HasUpperPrefix(s) ==>
      && (|s| != 42 ==> EvmCanonical(s) == Err(WrongLength(|s| - 2)))
      && (|s| == 42 && !AllHex(s[2..]) ==> EvmCanonical(s) == Err(NotHex))
      && (|s| == 42 && AllHex(s[2..]) ==> EvmCanonical(s) == Ok([48, 120] + Lower(s[2..])))
      && (|s| != 66 ==> EvmFromHex(s) == Err(WrongLength(|s| - 2)))
      && (|s| == 66 && !AllHex(s[2..]) ==> EvmFromHex(s) == Err(NotHex))
    ensures HasLowerPrefix(s) ==>
      && (|s| != 42 ==> ParsedAddress(s) == Err(WrongLength(|s| - 2)))
      && (|s| == 42 && !AllHex(s[2..]) ==> ParsedAddress(s) == Err(NotHex))
    ensures HasUpperPrefix(s) ==>
      ParsedAddress(s) == Err(if |s| == 40 then NotHex else WrongLength(|s|))
  {
    hide IsHexDigit, Lower;
    DecodeSucceedsIff(s);
    if |s| >= 2 {
      DecodeSucceedsIff(s[2..]);
    }
    CanonicalAccepts(s);
    if HasUpperPrefix(s) && |s| == 40 {
      UpperXIsNoDigit();
      assert !AllHex(s);
    }
    hide HexDecode;
  }

  lemma UpperXIsNoDigit()
    ensures !IsHexDigit(88)
  {
  }

  /** Decoding the digits from position `2 * i` on, one byte further. */
  lemma DecodeStep(s: Bytes, i: nat)
    requires 2 * i + 2 <= |s|
    ensures
      var hi, lo, rest := HexCharToNibble(s[2 * i]), HexCharToNibble(s[2 * i + 1]), HexDecode(s[2 * i + 2..]);
      HexDecode(s[2 * i..]) ==
      if hi.Some? && lo.Some? && rest.Some? then Some([Pack(hi.value, lo.value)] + rest.value) else None
  {
    hide Pack, HexCharToNibble;
    assert s[2 * i..][2..] == s[2 * i + 2..];
  }

  /** `done` followed by what the rest decodes to. */
  function Continue(done: Bytes, rest: Option<Bytes>): Option<Bytes> {
    if rest.Some? then Some(done + rest.value) else None
  }

  lemma ContinueWith(done: Bytes, next: bv8, rest: Option<Bytes>)
    ensures Continue(done, if rest.Some? then Some([next] + rest.value) else None) == Continue(done + [next], rest)
  {
    if rest.Some? {
      assert done + ([next] + rest.value) == done + [next] + rest.value;
    }
  }

  /** `parse_evm_address`: the digits are decoded pair by pair into a 20-byte buffer. */
  method ParseEvmAddress(addr: Bytes) returns (result: Result<Bytes, AddressError>)
    ensures result == ParsedAddress(addr)
    ensures result.Ok? ==> |result.value| == 20
  {
    hide Pack, HexCharToNibble, HexDecode;
    var stripped := if HasLowerPrefix(addr) then addr[2..] else addr;
    if |stripped| != 40 {
      return Err(WrongLength(|stripped|));
    }
    var arr := new bv8[20](_ => 0);
    assert stripped[2 * 0..] == stripped;
    ContinueFromNothing(HexDecode(stripped));
    for i := 0 to 20
      invariant HexDecode(stripped) == Continue(arr[..i], HexDecode(stripped[2 * i..]))
    {
      DecodeStep(stripped, i);
      var hi := HexCharToNibble(stripped[2 * i]);
      if hi.None? {
        return Err(NotHex);
      }
      var lo := HexCharToNibble(stripped[2 * i + 1]);
      if lo.None? {
        return Err(NotHex);
      }
      ContinueWith(arr[..i], Pack(hi.value, lo.value), HexDecode(stripped[2 * i + 2..]));
      arr[i] := Pack(hi.value, lo.value);
      assert arr[..i + 1] == arr[..i] + [Pack(hi.value, lo.value)];
      assert stripped[2 * (i + 1)..] == stripped[2 * i + 2..];
    }
    DecodeOfNothing();
    assert stripped[40..] == [] && arr[..20] + [] == arr[..];
    return Ok(arr[..]);
  }

  lemma ContinueFromNothing(rest: Option<Bytes>)
    ensures Continue([], rest) == rest
  {
    if rest.Some? {
      assert [] + rest.value == rest.value;
    }
  }

  lemma DecodeOfNothing()
    ensures HexDecode([]) == Some([])
  {
  }

  /** The bytes an address string denotes, by the base-16 definition. */
  ghost predicate Denotes(raw: Bytes, bytes: Bytes) {
    |raw| == 42 && |bytes| == 20 && AllHex(raw[2..]) && BigEndian(bytes) == Number(raw[2..])
  }

  lemma CanonicalAccepts(raw: Bytes)
    ensures EvmCanonical(raw).Ok? <==>
      (HasLowerPrefix(raw) || HasUpperPrefix(raw)) && |raw| == 42 && AllHex(raw[2..])
  {
    if |raw| == 42 {
      assert AllHex(raw[2..]) <==> !exists k :: 0 <= k < 40 && !IsHexDigit(raw[2..][k]);
    }
  }

  /** Canonical forms are fixed points of canonicalising, always parse, and parse to the bytes that the
      accepted string denotes. */
  lemma CanonicalRoundTrip(raw: Bytes)
    requires EvmCanonical(raw).Ok?
    ensures
      var canonical := EvmCanonical(raw).value;
      && EvmCanonical(canonical) == Ok(canonical)
      && ParsedAddress(canonical).Ok?
      && Denotes(raw, ParsedAddress(canonical).value)
      && canonical == Prefixed(HexEncode(ParsedAddress(canonical).value))
  {
    hide HexCharToNibble, LowerChar, Pack, Digit, IsHexDigit;
    var digits := raw[2..];
    var canonical := Prefixed(Lower(digits));
    CanonicalAccepts(raw);
    CanonicalAccepts(canonical);
    assert canonical[2..] == Lower(digits);
    LowerDenotesTheSame(digits);
    DecodeSucceedsIff(digits);
    EncodeOfDecode(digits);
    DecodeIsPositional(digits);
  }

  /** Two accepted strings have the same canonical form exactly if they denote the same 20 bytes. */
  lemma CanonicalEqualIff(raw: Bytes, other: Bytes)
    requires EvmCanonical(raw).Ok? && EvmCanonical(other).Ok?
    ensures EvmCanonical(raw) == EvmCanonical(other) <==> exists b :: Denotes(raw, b) && Denotes(other, b)
  {
    CanonicalRoundTrip(raw);
    CanonicalRoundTrip(other);
    var x, y := ParsedAddress(EvmCanonical(raw).value).value, ParsedAddress(EvmCanonical(other).value).value;
    if exists b :: Denotes(raw, b) && Denotes(other, b) {
      BigEndianInjective(x, y);
    }
  }

  lemma BigEndianSplit(a: Bytes)
    requires a != []
    ensures BigEndian(a) % 256 == a[|a| - 1] as nat
    ensures BigEndian(a) / 256 == BigEndian(a[..|a| - 1])
  {
    hide BigEndian;
    LastByte(a);
    LowByte(BigEndian(a[..|a| - 1]), a[|a| - 1] as nat);
  }

  lemma LastByte(a: Bytes)
    requires a != []
    ensures BigEndian(a) == 256 * BigEndian(a[..|a| - 1]) + a[|a| - 1] as nat
  {
  }

  lemma LowByte(high: nat, low: nat)
    requires low < 256
    ensures (256 * high + low) % 256 == low && (256 * high + low) / 256 == high
  {
  }

  lemma {:induction false} BigEndianInjective(a: Bytes, b: Bytes)
    requires |a| == |b| && BigEndian(a) == BigEndian(b)
    ensures a == b
  {
    if a == [] {
    } else {
      var n := |a| - 1;
      BigEndianSplit(a);
      BigEndianSplit(b);
      hide BigEndian;
      BigEndianInjective(a[..n], b[..n]);
      assert a == a[..n] + [a[n]] && b == b[..n] + [b[n]];
      SameValueSameByte(a[n], b[n]);
    }
  }

  /** The parser is laxer than canonicalising: it takes digits without a prefix, but it does not take the
      upper-case prefix that canonicalising accepts. */
  lemma ParserAcceptsIff(raw: Bytes)
    ensures ParsedAddress(raw).Ok? <==>
      (HasLowerPrefix(raw) && |raw| == 42 && AllHex(raw[2..])) || (|raw| == 40 && AllHex(raw))
    ensures EvmCanonical(raw).Ok? ==> (ParsedAddress(raw).Ok? <==> HasLowerPrefix(raw))
  {
    CanonicalAccepts(raw);
    DecodeSucceedsIff(raw);
    if |raw| >= 2 {
      DecodeSucceedsIff(raw[2..]);
    }
    if HasLowerPrefix(raw) && |raw| == 40 {
      assert !IsHexDigit(raw[1]);
    }
  }

  // ---------------------------------------------------------------------------------------------
  // Transaction hashes
  // ---------------------------------------------------------------------------------------------

  /** `TxHash::evm_from_hex`; the `hex` crate decodes digits of either case. */
  function EvmFromHex(s: Bytes): Result<Bytes, AddressError> {
    if !HasLowerPrefix(s) && !HasUpperPrefix(s) then Err(MissingPrefix)
    else if |s[2..]| != 64 then Err(WrongLength(|s[2..]|))
    else match HexDecode(s[2..])
      case Some(bytes) => Ok(bytes)
      case None => Err(NotHex)
  }

  /** `Display` of an EVM transaction hash. */
  function DisplayHash(bytes: Bytes): Bytes { Prefixed(HexEncode(bytes)) }

  lemma HashRoundTrip(bytes: Bytes)
    requires |bytes| == 32
    ensures EvmFromHex(DisplayHash(bytes)) == Ok(bytes)
  {
    DecodeOfEncode(bytes);
    DecodeSucceedsIff(HexEncode(bytes));
    assert DisplayHash(bytes)[2..] == HexEncode(bytes);
  }

  lemma HashDisplaysCanonically(s: Bytes)
    requires EvmFromHex(s).Ok?
    ensures DisplayHash(EvmFromHex(s).value) == Prefixed(Lower(s[2..]))
    ensures |EvmFromHex(s).value| == 32
  {
    EncodeOfDecode(s[2..]);
    DecodeSucceedsIff(s[2..]);
  }
}
