/** Evidence policies and their ABI encoding, `packages/shared/src/index.ts`. */
module Policies {
  import opened Digests
  import opened Numerals

  datatype AssetKind = Native | Erc20
  datatype AmountRule = Exact | Minimum

  /** The policy as parsed: hexadecimal texts and decimal strings are the numbers they denote. */
  datatype Policy = Policy(
    evidenceType: nat,
    chainKey: nat,
    assetKind: AssetKind,
    expectedSourceContract: Address,
    expectedRecipient: Address,
    expectedAsset: Address,
    expectedSender: Address,
    amountRule: AmountRule,
    amount: nat,
    minSourceBlock: nat,
    maxSourceBlock: nat,
    calldataSelector: nat,
    requireTransferEvent: bool)

  function Pow256(width: nat): nat {
    if width == 0 then 1 else 256 * Pow256(width - 1)
  }

  const TRANSFER_SELECTOR := 0xa9059cbb
  const MAX_SAFE_INTEGER := 0x1f_ffff_ffff_ffff

  const BYTES4_LIMIT := 0x1_0000_0000
  const UINT64_LIMIT := 0x1_0000_0000_0000_0000
  const ADDRESS_LIMIT := 0x1_0000_0000_0000_0000_0000_0000_0000_0000_0000_0000
  const UINT256_LIMIT := 0x1_0000_0000_0000_0000_0000_0000_0000_0000_0000_0000_0000_0000_0000_0000_0000_0000

  /** Field formats: bytes32, safe positive integer, addresses, uint256, uint64s and bytes4. */
  predicate InRange(p: Policy) {
    && p.evidenceType < UINT256_LIMIT
    && 0 < p.chainKey <= MAX_SAFE_INTEGER
    && p.expectedSourceContract < ADDRESS_LIMIT && p.expectedRecipient < ADDRESS_LIMIT
    && p.expectedAsset < ADDRESS_LIMIT && p.expectedSender < ADDRESS_LIMIT
    && p.amount < UINT256_LIMIT
    && p.minSourceBlock < UINT64_LIMIT && p.maxSourceBlock < UINT64_LIMIT
    && p.calldataSelector < BYTES4_LIMIT
  }

  /** The cross-field rules of the schema. */
  predicate Consistent(p: Policy) {
    && p.expectedRecipient != ZERO_ADDRESS && p.expectedSender != ZERO_ADDRESS
    && p.amount != 0
    && (p.maxSourceBlock != 0 ==> p.minSourceBlock <= p.maxSourceBlock)
    && (if p.assetKind == Native
        then p.expectedAsset == ZERO_ADDRESS && !p.requireTransferEvent
        else p.expectedAsset != ZERO_ADDRESS && p.expectedSourceContract != ZERO_ADDRESS && p.requireTransferEvent)
    && (p.calldataSelector == 0 || p.calldataSelector == TRANSFER_SELECTOR)
  }

  predicate SchemaValid(p: Policy) {
    InRange(p) && Consistent(p)
  }

  /*** Big-endian words ***/

  function BigEndian(n: nat, width: nat): (bytes: seq<nat>)
    ensures |bytes| == width
  {
    if width == 0 then [] else BigEndian(n / 256, width - 1) + [n % 256]
  }

  function Value(bytes: seq<nat>): nat {
    if bytes == [] then 0 else 256 * Value(bytes[..|bytes| - 1]) + bytes[|bytes| - 1]
  }

  lemma {:induction false} ValueOfBigEndian(n: nat, width: nat)
    requires n < Pow256(width)
    ensures Value(BigEndian(n, width)) == n
  {
    if width > 0 {
      ValueOfBigEndian(n / 256, width - 1);
      assert BigEndian(n, width)[..width - 1] == BigEndian(n / 256, width - 1);
    }
  }

  /*** A tuple of static ABI fields, one 32-byte word each ***/

  /** A field's width in bytes; numbers sit at the right of their word, `bytesN` at the left. */
  datatype Field = Right(width: nat) | Left(width: nat)

  predicate Fits(layout: seq<Field>, values: seq<nat>) {
    && |layout| == |values|
    && forall i | 0 <= i < |layout| :: layout[i].width <= 32 && values[i] < Pow256(layout[i].width)
  }

  function Zeros(count: nat): seq<nat> {
    seq(count, _ => 0)
  }

  function Word(field: Field, n: nat): (word: seq<nat>)
    requires field.width <= 32
    ensures |word| == 32
  {
    var padding := Zeros(32 - field.width);
    if field.Right? then padding + BigEndian(n, field.width) else BigEndian(n, field.width) + padding
  }

  /** The number in a word, when everything outside its field is zero. */
  function ReadWord(field: Field, word: seq<nat>): Option<nat>
    requires field.width <= 32 && |word| == 32
  {
    var padding := 32 - field.width;
    if field.Right? && word[..padding] == Zeros(padding) then Some(Value(word[padding..]))
    else if field.Left? && word[field.width..] == Zeros(padding) then Some(Value(word[..field.width]))
    else None
  }

  lemma ReadsBack(field: Field, n: nat)
    requires field.width <= 32 && n < Pow256(field.width)
    ensures ReadWord(field, Word(field, n)) == Some(n)
  {
    ValueOfBigEndian(n, field.width);
    var word := Word(field, n);
    assert field.Right? ==> word[32 - field.width..] == BigEndian(n, field.width);
    assert field.Left? ==> word[..field.width] == BigEndian(n, field.width);
  }

  function EncodeTuple(layout: seq<Field>, values: seq<nat>): (bytes: seq<nat>)
    requires Fits(layout, values)
    ensures |bytes| == 32 * |layout|
  {
    if layout == [] then [] else Word(layout[0], values[0]) + EncodeTuple(layout[1..], values[1..])
  }

  /** A strict decoder: exact length, and no stray bits in any word. */
  function DecodeTuple(layout: seq<Field>, bytes: seq<nat>): Option<seq<nat>>
    requires forall field <- layout :: field.width <= 32
  {
    if layout == [] then if bytes == [] then Some([]) else None
    else if |bytes| < 32 then None
    else
      var first := ReadWord(layout[0], bytes[..32]);
      var rest := DecodeTuple(layout[1..], bytes[32..]);
      if first.None? || rest.None? then None else Some([first.value] + rest.value)
  }

  lemma {:induction false} TupleReadsBack(layout: seq<Field>, values: seq<nat>)
    requires Fits(layout, values)
    ensures DecodeTuple(layout, EncodeTuple(layout, values)) == Some(values)
  {
    if layout != [] {
      ReadsBack(layout[0], values[0]);
      TupleReadsBack(layout[1..], values[1..]);
      var bytes := EncodeTuple(layout, values);
      assert bytes[..32] == Word(layout[0], values[0]) && bytes[32..] == EncodeTuple(layout[1..], values[1..]);
      ReadsFirst(layout, bytes, values[0], values[1..]);
      assert values == [values[0]] + values[1..];
    }
  }

  lemma ReadsFirst(layout: seq<Field>, bytes: seq<nat>, n: nat, rest: seq<nat>)
    requires layout != [] && (forall field <- layout :: field.width <= 32) && |bytes| >= 32
    requires ReadWord(layout[0], bytes[..32]) == Some(n) && DecodeTuple(layout[1..], bytes[32..]) == Some(rest)
    ensures DecodeTuple(layout, bytes) == Some([n] + rest)
  {}

  /*** The policy tuple ***/

  const POLICY_LAYOUT := [
    Right(1), Left(32), Right(8), Right(1), Right(20), Right(20), Right(20), Right(20),
    Right(1), Right(32), Right(8), Right(8), Left(4), Right(1)]

  function Bit(b: bool): nat {
    if b then 1 else 0
  }

  function PolicyFields(p: Policy): seq<nat> {
    [1, p.evidenceType, p.chainKey, Bit(p.assetKind != Native),
     p.expectedSourceContract, p.expectedRecipient, p.expectedAsset, p.expectedSender,
     Bit(p.amountRule != Exact), p.amount, p.minSourceBlock, p.maxSourceBlock,
     p.calldataSelector, Bit(p.requireTransferEvent)]
  }

  lemma Limits()
    ensures Pow256(4) == BYTES4_LIMIT && Pow256(8) == UINT64_LIMIT
    ensures Pow256(20) == ADDRESS_LIMIT && Pow256(32) == UINT256_LIMIT
  {
    assert Pow256(8) == 0x1_0000_0000 * Pow256(4);
    assert Pow256(20) == 0x1_0000_0000 * (0x1_0000_0000 * (0x1_0000_0000 * Pow256(8)));
    assert Pow256(32) == 0x1_0000_0000 * (0x1_0000_0000 * (0x1_0000_0000 * Pow256(20)));
  }

  lemma PolicyFits(p: Policy)
    requires InRange(p)
    ensures Fits(POLICY_LAYOUT, PolicyFields(p))
  {
    Limits();
    assert Pow256(1) == 256;
  }

  function Encode(p: Policy): seq<nat>
    requires InRange(p)
  {
    PolicyFits(p);
    EncodeTuple(POLICY_LAYOUT, PolicyFields(p))
  }

  function Decode(bytes: seq<nat>): Option<Policy> {
    match DecodeTuple(POLICY_LAYOUT, bytes)
    case None => None
    case Some(v) =>
      if |v| != 14 || v[0] != 1 || v[3] > 1 || v[8] > 1 || v[13] > 1 then None
      else Some(Policy(v[1], v[2], if v[3] == 0 then Native else Erc20, v[4], v[5], v[6], v[7],
                       if v[8] == 0 then Exact else Minimum, v[9], v[10], v[11], v[12], v[13] == 1))
  }

  lemma DecodeInvertsEncode(p: Policy)
    requires InRange(p)
    ensures Decode(Encode(p)) == Some(p)
    ensures |Encode(p)| == 14 * 32
  {
    PolicyFits(p);
    TupleReadsBack(POLICY_LAYOUT, PolicyFields(p));
  }

  function PolicyCommitment(p: Policy): Digest
    requires InRange(p)
  {
    Keccak(Encoded(Encode(p)))
  }

  /** A commitment names one policy. */
  lemma CommitmentBindsPolicy(p: Policy, q: Policy)
    requires InRange(p) && InRange(q)
    ensures PolicyCommitment(p) == PolicyCommitment(q) <==> p == q
  {
    DecodeInvertsEncode(p);
    DecodeInvertsEncode(q);
  }

  /** A word holds a number: these 32 bytes, most significant first. */
  ghost predicate Holds(word: seq<nat>, n: nat) {
    && |word| == 32 && Value(word) == n
    && forall k | 0 <= k < |word| :: word[k] < 256
  }

  function WordAt(bytes: seq<nat>, i: nat): seq<nat>
    requires 32 * i + 32 <= |bytes|
  {
    bytes[32 * i..32 * i + 32]
  }

  lemma {:induction false} BytesOf(n: nat, width: nat)
    ensures forall b <- BigEndian(n, width) :: b < 256
  {
    if width > 0 { BytesOf(n / 256, width - 1); }
  }

  lemma {:induction false} LeadingZeros(count: nat, bytes: seq<nat>)
    ensures Value(Zeros(count) + bytes) == Value(bytes)
    decreases |bytes|, count
  {
    var all := Zeros(count) + bytes;
    if bytes != [] {
      LeadingZeros(count, bytes[..|bytes| - 1]);
      assert all[..|all| - 1] == Zeros(count) + bytes[..|bytes| - 1];
    } else if count > 0 {
      LeadingZeros(count - 1, []);
      assert all[..|all| - 1] == Zeros(count - 1) + [];
    }
  }

  lemma {:induction false} TrailingZeros(count: nat, bytes: seq<nat>)
    ensures Value(bytes + Zeros(count)) == Value(bytes) * Pow256(count)
  {
    var all := bytes + Zeros(count);
    if count > 0 {
      TrailingZeros(count - 1, bytes);
      assert all[..|all| - 1] == bytes + Zeros(count - 1);
    } else {
      assert all == bytes;
    }
  }

  /** A number stands right-aligned in its word; `bytesN` is followed by zeros. */
  function Placed(field: Field, n: nat): nat
    requires field.width <= 32
  {
    if field.Right? then n else n * Pow256(32 - field.width)
  }

  lemma WordHolds(field: Field, n: nat)
    requires field.width <= 32 && n < Pow256(field.width)
    ensures Holds(Word(field, n), Placed(field, n))
  {
    var digits := BigEndian(n, field.width);
    ValueOfBigEndian(n, field.width);
    BytesOf(n, field.width);
    LeadingZeros(32 - field.width, digits);
    TrailingZeros(32 - field.width, digits);
    forall k | 0 <= k < 32 ensures Word(field, n)[k] < 256 {
      assert forall j | 0 <= j < |digits| :: digits[j] in digits;
    }
  }

  lemma {:induction false} WordOfTuple(layout: seq<Field>, values: seq<nat>, i: nat)
    requires Fits(layout, values) && i < |layout|
    ensures EncodeTuple(layout, values)[32 * i..32 * i + 32] == Word(layout[i], values[i])
    decreases i
  {
    var bytes, rest := EncodeTuple(layout, values), EncodeTuple(layout[1..], values[1..]);
    assert bytes == Word(layout[0], values[0]) + rest;
    if i > 0 {
      WordOfTuple(layout[1..], values[1..], i - 1);
      assert bytes[32 * i..32 * i + 32] == rest[32 * (i - 1)..32 * (i - 1) + 32];
    }
  }

  /** Fourteen words, each with the field that the ABI puts there; the selector is its leading four bytes. */
  ghost predicate IsEncoding(bytes: seq<nat>, p: Policy) {
    && |bytes| == 14 * 32
    && Holds(WordAt(bytes, 0), 1)
    && Holds(WordAt(bytes, 1), p.evidenceType)
    && Holds(WordAt(bytes, 2), p.chainKey)
    && Holds(WordAt(bytes, 3), if p.assetKind.Native? then 0 else 1)
    && Holds(WordAt(bytes, 4), p.expectedSourceContract)
    && Holds(WordAt(bytes, 5), p.expectedRecipient)
    && Holds(WordAt(bytes, 6), p.expectedAsset)
    && Holds(WordAt(bytes, 7), p.expectedSender)
    && Holds(WordAt(bytes, 8), if p.amountRule.Exact? then 0 else 1)
    && Holds(WordAt(bytes, 9), p.amount)
    && Holds(WordAt(bytes, 10), p.minSourceBlock)
    && Holds(WordAt(bytes, 11), p.maxSourceBlock)
    && Holds(WordAt(bytes, 12), p.calldataSelector * Pow256(28))
    && Holds(WordAt(bytes, 13), if p.requireTransferEvent then 1 else 0)
  }

  lemma TupleWord(layout: seq<Field>, values: seq<nat>, bytes: seq<nat>, i: nat)
    requires Fits(layout, values) && i < |layout| && bytes == EncodeTuple(layout, values)
    ensures Holds(WordAt(bytes, i), Placed(layout[i], values[i]))
  {
    WordOfTuple(layout, values, i);
    WordHolds(layout[i], values[i]);
  }

  lemma EncodingLayout(p: Policy)
    requires InRange(p)
    ensures IsEncoding(Encode(p), p)
  {
    PolicyFits(p);
    var layout, values, bytes := POLICY_LAYOUT, PolicyFields(p), Encode(p);
    forall i: nat | i < 14 ensures Holds(WordAt(bytes, i), Placed(layout[i], values[i])) {
      TupleWord(layout, values, bytes, i);
    }
    assert Pow256(0) == 1;
  }

  /*** Policies as the texts callers send ***/

  /** Hexadecimal fields without their `0x`, and canonical decimal strings. */
  datatype PolicyText = PolicyText(
    evidenceType: seq<nat>,
    chainKey: nat,
    assetKind: AssetKind,
    expectedSourceContract: seq<nat>,
    expectedRecipient: seq<nat>,
    expectedAsset: seq<nat>,
    expectedSender: seq<nat>,
    amountRule: AmountRule,
    amount: seq<nat>,
    minSourceBlock: seq<nat>,
    maxSourceBlock: seq<nat>,
    calldataSelector: seq<nat>,
    requireTransferEvent: bool)

  predicate TextFormats(t: PolicyText) {
    && IsHex(t.evidenceType, 64) && IsHex(t.calldataSelector, 8)
    && IsHex(t.expectedSourceContract, 40) && IsHex(t.expectedRecipient, 40)
    && IsHex(t.expectedAsset, 40) && IsHex(t.expectedSender, 40)
    && IsDecimal(t.amount) && IsDecimal(t.minSourceBlock) && IsDecimal(t.maxSourceBlock)
  }

  function Parse(t: PolicyText): Policy
    requires TextFormats(t)
  {
    Policy(HexValue(t.evidenceType), t.chainKey, t.assetKind,
           HexValue(t.expectedSourceContract), HexValue(t.expectedRecipient),
           HexValue(t.expectedAsset), HexValue(t.expectedSender),
           t.amountRule, Number(t.amount), Number(t.minSourceBlock), Number(t.maxSourceBlock),
           HexValue(t.calldataSelector), t.requireTransferEvent)
  }

  /** Every hexadecimal field in lower case. */
  function LowerCase(t: PolicyText): PolicyText {
    t.(evidenceType := Lower(t.evidenceType),
       expectedSourceContract := Lower(t.expectedSourceContract),
       expectedRecipient := Lower(t.expectedRecipient),
       expectedAsset := Lower(t.expectedAsset),
       expectedSender := Lower(t.expectedSender),
       calldataSelector := Lower(t.calldataSelector))
  }

  /** Two policy texts share a commitment exactly when they differ at most in the case of hex digits. */
  lemma CommitmentIsCaseBlind(t: PolicyText, u: PolicyText)
    requires TextFormats(t) && TextFormats(u) && InRange(Parse(t)) && InRange(Parse(u))
    ensures PolicyCommitment(Parse(t)) == PolicyCommitment(Parse(u)) <==> LowerCase(t) == LowerCase(u)
  {
    CommitmentBindsPolicy(Parse(t), Parse(u));
    HexIsCaseBlind(t.evidenceType, u.evidenceType, 64);
    HexIsCaseBlind(t.expectedSourceContract, u.expectedSourceContract, 40);
    HexIsCaseBlind(t.expectedRecipient, u.expectedRecipient, 40);
    HexIsCaseBlind(t.expectedAsset, u.expectedAsset, 40);
    HexIsCaseBlind(t.expectedSender, u.expectedSender, 40);
    HexIsCaseBlind(t.calldataSelector, u.calldataSelector, 8);
    DigitsOfNumber(t.amount);
    DigitsOfNumber(u.amount);
    DigitsOfNumber(t.minSourceBlock);
    DigitsOfNumber(u.minSourceBlock);
    DigitsOfNumber(t.maxSourceBlock);
    DigitsOfNumber(u.maxSourceBlock);
  }
}
