/** Policy evaluation of a verified source transaction, `backend/src/attestcoin/source-transaction-interpreter.ts`. */
module Evaluator {
  import opened Digests
  import opened Policies
  import opened Sorting

  datatype Log = Log(address: Address, topics: seq<nat>, data: seq<nat>)

  datatype Transaction = Transaction(
    chainKey: nat,
    hash: Digest,
    blockNumber: int,
    from: Address,
    to: Option<Address>,
    chainId: nat,
    value: nat,
    data: seq<nat>,
    receiptStatus: int,
    logs: seq<Log>)

  datatype Code =
    | InvalidPolicy | MissingFreshnessContext | UnsupportedSourceChain | SubjectMismatch
    | WrongSourceContract | StaleEvidence | WrongRecipient | WrongAsset | WrongAmount
    | WrongCalldata | WrongEvent
    | PolicyCommitmentMismatch | EvidenceTypeMismatch | TransactionHashMismatch
    | EvidenceCommitmentMismatch | ReplayDetected | AuthorizedClaimFailed | ProviderFailure
    | EscrowMismatch | AgreementCommitmentMismatch | EscrowNotSettleable | EscrowSettlementFailed
    | SourceTransactionNotFound | SourceTransactionNotMined | InvalidProof | PolicyMismatch
    | ConfigurationMissing | SourceBlockNotAttested | ProofBuilderUnavailable | ProofNotFound
    | CreditcoinVerificationFailed | MissingTransactionContext

  /** One check of a program that stops at the first broken one. */
  datatype Check = Check(broken: bool, code: Code)

  function FirstBroken(checks: seq<Check>): Option<Code> {
    if checks == [] then None
    else if checks[0].broken then Some(checks[0].code)
    else FirstBroken(checks[1..])
  }

  datatype Result<+T> = Ok(value: T) | Failed(code: Code)

  datatype Evidence = Evidence(evidenceType: nat, subject: Address, amount: nat)

  const TRANSFER_TOPIC := 0xddf252ad1be2c89b69c2b068fc378daa952ba7f163c4a11628f55a4df523b3ef

  predicate AmountOk(amount: nat, p: Policy) {
    if p.amountRule == Exact then amount == p.amount else amount >= p.amount
  }

  function CheckAmount(amount: nat, p: Policy): Result<Evidence> {
    if AmountOk(amount, p) then Ok(Evidence(p.evidenceType, p.expectedSender, amount)) else Failed(WrongAmount)
  }

  function DecodeTransfer(data: seq<nat>): Option<(Address, nat)> {
    if |data| < 68 || Value(data[..4]) != TRANSFER_SELECTOR || Value(data[4..36]) >= ADDRESS_LIMIT then None
    else Some((Value(data[4..36]), Value(data[36..68])))
  }

  /** The selector is disabled, or the calldata is a transfer of an allowed amount to the recipient. */
  predicate CalldataOk(t: Transaction, p: Policy) {
    p.calldataSelector != 0 ==>
      && |t.data| >= 4 && Value(t.data[..4]) == p.calldataSelector
      && var call := DecodeTransfer(t.data);
         call.Some? && call.value.0 == p.expectedRecipient && AmountOk(call.value.1, p)
  }

  predicate IsTransfer(log: Log) {
    log.topics != [] && log.topics[0] == TRANSFER_TOPIC
  }

  predicate IsAssetTransfer(log: Log, p: Policy) {
    IsTransfer(log) && log.address == p.expectedAsset
  }

  /** A well-formed transfer of the committed token between the committed parties. */
  predicate Carries(log: Log, p: Policy) {
    && IsAssetTransfer(log, p)
    && |log.topics| == 3 && |log.data| >= 32
    && log.topics[1] % ADDRESS_LIMIT == p.expectedSender
    && log.topics[2] % ADDRESS_LIMIT == p.expectedRecipient
  }

  function Amount(log: Log): nat
    requires |log.data| >= 32
  {
    Value(log.data[..32])
  }

  function FirstCarrier(logs: seq<Log>, p: Policy): (r: Option<Log>)
    ensures r.Some? ==> Carries(r.value, p)
  {
    if logs == [] then None
    else if Carries(logs[0], p) then Some(logs[0])
    else FirstCarrier(logs[1..], p)
  }

  function Erc20Verdict(t: Transaction, p: Policy): Result<Evidence> {
    if t.value != 0 then Failed(WrongAsset)
    else if !CalldataOk(t, p) then Failed(WrongCalldata)
    else if !(exists log <- t.logs :: IsTransfer(log)) then Failed(WrongEvent)
    else if !(exists log <- t.logs :: IsAssetTransfer(log, p)) then Failed(WrongAsset)
    else
      match FirstCarrier(t.logs, p)
      case None => Failed(WrongEvent)
      case Some(log) => CheckAmount(Amount(log), p)
  }

  /** Dropping logs that carry nothing does not change the first one that does. */
  lemma {:induction false} FilterKeepsFirstCarrier(logs: seq<Log>, keep: Log -> bool, p: Policy)
    requires forall log <- logs | Carries(log, p) :: keep(log)
    ensures FirstCarrier(Filter(keep, logs), p) == FirstCarrier(logs, p)
  {
    if logs != [] {
      FilterKeepsFirstCarrier(logs[1..], keep, p);
      if keep(logs[0]) {
        assert Filter(keep, logs)[1..] == Filter(keep, logs[1..]);
      }
    }
  }

  function TransferLogs(logs: seq<Log>): seq<Log> {
    Filter((log: Log) => IsTransfer(log), logs)
  }

  function AssetLogs(logs: seq<Log>, p: Policy): seq<Log> {
    Filter((log: Log) => log.address == p.expectedAsset, TransferLogs(logs))
  }

  lemma FilteredLogs(logs: seq<Log>, p: Policy)
    ensures TransferLogs(logs) == [] <==> !(exists log <- logs :: IsTransfer(log))
    ensures AssetLogs(logs, p) == [] <==> !(exists log <- logs :: IsAssetTransfer(log, p))
    ensures FirstCarrier(AssetLogs(logs, p), p) == FirstCarrier(logs, p)
  {
    FilterKeepsFirstCarrier(logs, (log: Log) => IsTransfer(log), p);
    FilterKeepsFirstCarrier(TransferLogs(logs), (log: Log) => log.address == p.expectedAsset, p);
    assert forall log :: log in TransferLogs(logs) <==> log in logs && IsTransfer(log);
    assert forall log :: log in AssetLogs(logs, p) <==> log in logs && IsAssetTransfer(log, p);
    if TransferLogs(logs) != [] { assert TransferLogs(logs)[0] in TransferLogs(logs); }
    if AssetLogs(logs, p) != [] { assert AssetLogs(logs, p)[0] in AssetLogs(logs, p); }
  }

  method EvaluateErc20(t: Transaction, p: Policy) returns (r: Result<Evidence>)
    ensures r == Erc20Verdict(t, p)
  {
    if t.value != 0 { return Failed(WrongAsset); }
    if p.calldataSelector != 0 {
      if |t.data| < 4 || Value(t.data[..4]) != p.calldataSelector { return Failed(WrongCalldata); }
      var decoded := DecodeTransfer(t.data);
      if decoded.None? { return Failed(WrongCalldata); }
      if decoded.value.0 != p.expectedRecipient { return Failed(WrongCalldata); }
      if !AmountOk(decoded.value.1, p) { return Failed(WrongCalldata); }
    }
    FilteredLogs(t.logs, p);
    var transferLogs := TransferLogs(t.logs);
    if transferLogs == [] { return Failed(WrongEvent); }
    var assetLogs := AssetLogs(t.logs, p);
    if assetLogs == [] { return Failed(WrongAsset); }
    r := ScanTransfers(assetLogs, p);
  }

  /** The loop over the committed token's transfers. */
  method ScanTransfers(assetLogs: seq<Log>, p: Policy) returns (r: Result<Evidence>)
    requires forall log <- assetLogs :: IsAssetTransfer(log, p)
    ensures r == match FirstCarrier(assetLogs, p)
                 case None => Failed(WrongEvent)
                 case Some(log) => CheckAmount(Amount(log), p)
  {
    var i := 0;
    while i < |assetLogs|
      invariant 0 <= i <= |assetLogs|
      invariant FirstCarrier(assetLogs[i..], p) == FirstCarrier(assetLogs, p)
    {
      var log := assetLogs[i];
      assert log in assetLogs && assetLogs[i..][1..] == assetLogs[i + 1..];
      i := i + 1;
      if |log.topics| != 3 { continue; }
      var sender, recipient := log.topics[1] % ADDRESS_LIMIT, log.topics[2] % ADDRESS_LIMIT;
      if |log.data| < 32 { continue; }
      var amount := Value(log.data[..32]);
      if sender != p.expectedSender { continue; }
      if recipient != p.expectedRecipient { continue; }
      return CheckAmount(amount, p);
    }
    return Failed(WrongEvent);
  }

  function NativeVerdict(t: Transaction, p: Policy): Result<Evidence> {
    if t.to != Some(p.expectedRecipient) then Failed(WrongRecipient) else CheckAmount(t.value, p)
  }

  /** The guards every asset kind shares. */
  function ScalarFailure(t: Transaction, p: Policy): Option<Code> {
    if !SchemaValid(p) then Some(InvalidPolicy)
    else if t.blockNumber < 0 || t.blockNumber > MAX_SAFE_INTEGER then Some(MissingFreshnessContext)
    else if t.receiptStatus != 1 then Some(WrongEvent)
    else if t.chainKey != p.chainKey then Some(UnsupportedSourceChain)
    else if t.from != p.expectedSender then Some(SubjectMismatch)
    else if p.expectedSourceContract != ZERO_ADDRESS && t.to != Some(p.expectedSourceContract)
    then Some(WrongSourceContract)
    else if p.minSourceBlock > t.blockNumber then Some(StaleEvidence)
    else if p.maxSourceBlock != 0 && t.blockNumber > p.maxSourceBlock then Some(StaleEvidence)
    else None
  }

  function Evaluate(t: Transaction, p: Policy): Result<Evidence> {
    match ScalarFailure(t, p)
    case Some(code) => Failed(code)
    case None => if p.assetKind == Native then NativeVerdict(t, p) else Erc20Verdict(t, p)
  }

  /*** What acceptance means ***/

  /** The transaction pays `amount` of the policy's asset as the policy demands. */
  ghost predicate Pays(t: Transaction, p: Policy, amount: nat) {
    && amount >= p.amount && (p.amountRule == Exact ==> amount == p.amount)
    && if p.assetKind == Native then t.to == Some(p.expectedRecipient) && t.value == amount
       else
         && t.value == 0 && CalldataOk(t, p)
         && exists i | 0 <= i < |t.logs| :: FirstCarrierAt(t.logs, p, i) && Amount(t.logs[i]) == amount
  }

  predicate FirstCarrierAt(logs: seq<Log>, p: Policy, i: nat)
    requires i < |logs|
  {
    Carries(logs[i], p) && forall j | 0 <= j < i :: !Carries(logs[j], p)
  }

  predicate InWindow(t: Transaction, p: Policy) {
    && p.minSourceBlock <= t.blockNumber
    && (p.maxSourceBlock == 0 || t.blockNumber <= p.maxSourceBlock)
  }

  predicate Admissible(t: Transaction, p: Policy) {
    && SchemaValid(p) && 0 <= t.blockNumber <= MAX_SAFE_INTEGER && InWindow(t, p)
    && t.receiptStatus == 1 && t.chainKey == p.chainKey && t.from == p.expectedSender
    && (p.expectedSourceContract != ZERO_ADDRESS ==> t.to == Some(p.expectedSourceContract))
  }

  lemma {:induction false} FirstCarrierIsFirst(logs: seq<Log>, p: Policy, i: nat)
    requires i < |logs| && FirstCarrierAt(logs, p, i)
    ensures FirstCarrier(logs, p) == Some(logs[i])
  {
    if i > 0 {
      assert !Carries(logs[0], p);
      assert forall j | 0 <= j < i - 1 :: logs[1..][j] == logs[j + 1];
      FirstCarrierIsFirst(logs[1..], p, i - 1);
    }
  }

  lemma {:induction false} FirstCarrierHasIndex(logs: seq<Log>, p: Policy) returns (i: nat)
    requires FirstCarrier(logs, p).Some?
    ensures i < |logs| && FirstCarrierAt(logs, p, i)
  {
    if Carries(logs[0], p) {
      i := 0;
    } else {
      var k := FirstCarrierHasIndex(logs[1..], p);
      i := k + 1;
      assert forall j | 0 < j < i :: logs[j] == logs[1..][j - 1];
    }
  }

  /** The evaluator accepts with an amount exactly when the transaction pays it under the policy. */
  lemma AcceptanceIsExact(t: Transaction, p: Policy, amount: nat)
    ensures Evaluate(t, p) == Ok(Evidence(p.evidenceType, p.expectedSender, amount))
            <==> Admissible(t, p) && Pays(t, p, amount)
  {
    if p.assetKind == Erc20 && ScalarFailure(t, p).None? {
      if Erc20Verdict(t, p).Ok? {
        var i := FirstCarrierHasIndex(t.logs, p);
        FirstCarrierIsFirst(t.logs, p, i);
      }
      if Pays(t, p, amount) {
        var i :| 0 <= i < |t.logs| && FirstCarrierAt(t.logs, p, i) && Amount(t.logs[i]) == amount;
        FirstCarrierIsFirst(t.logs, p, i);
        assert t.logs[i] in t.logs && IsTransfer(t.logs[i]) && IsAssetTransfer(t.logs[i], p);
      }
    }
  }

  /*** Token transfers as they are encoded ***/

  /** The call `transfer(to, amount)`. */
  function TransferCall(to: Address, amount: nat): (data: seq<nat>)
    ensures |data| == 68
  {
    BigEndian(TRANSFER_SELECTOR, 4) + BigEndian(to, 32) + BigEndian(amount, 32)
  }

  /** The event `Transfer(from, to, amount)`, its two parties indexed. */
  function TransferEvent(token: Address, from: Address, to: Address, amount: nat): Log {
    Log(token, [TRANSFER_TOPIC, from, to], BigEndian(amount, 32))
  }

  lemma CallIsRead(to: Address, amount: nat)
    requires to < ADDRESS_LIMIT && amount < UINT256_LIMIT
    ensures Value(TransferCall(to, amount)[..4]) == TRANSFER_SELECTOR
    ensures DecodeTransfer(TransferCall(to, amount)) == Some((to, amount))
  {
    var data := TransferCall(to, amount);
    Limits();
    ValueOfBigEndian(TRANSFER_SELECTOR, 4);
    ValueOfBigEndian(to, 32);
    ValueOfBigEndian(amount, 32);
    var head := BigEndian(TRANSFER_SELECTOR, 4) + BigEndian(to, 32);
    assert data == head + BigEndian(amount, 32) && |head| == 36;
    assert data[..4] == BigEndian(TRANSFER_SELECTOR, 4);
    assert data[4..36] == BigEndian(to, 32);
    assert data[36..68] == BigEndian(amount, 32);
  }

  lemma EventIsRead(p: Policy, token: Address, from: Address, to: Address, amount: nat)
    requires from < ADDRESS_LIMIT && to < ADDRESS_LIMIT && amount < UINT256_LIMIT
    ensures Carries(TransferEvent(token, from, to, amount), p)
            <==> token == p.expectedAsset && from == p.expectedSender && to == p.expectedRecipient
    ensures Amount(TransferEvent(token, from, to, amount)) == amount
  {
    Limits();
    ValueOfBigEndian(amount, 32);
    var log := TransferEvent(token, from, to, amount);
    assert log.data[..32] == BigEndian(amount, 32);
  }

  /**
   * A transaction that calls `transfer(to, amount)` and emits the one event of it pays a token policy exactly when it
   * is admissible and token, parties and amount are the committed ones, an open policy taking any larger amount.
   */
  lemma TransferIsExact(t: Transaction, p: Policy, token: Address, from: Address, to: Address, amount: nat)
    requires p.assetKind == Erc20 && from < ADDRESS_LIMIT && to < ADDRESS_LIMIT && amount < UINT256_LIMIT
    requires t.value == 0 && t.data == TransferCall(to, amount) && t.logs == [TransferEvent(token, from, to, amount)]
    ensures Evaluate(t, p) == Ok(Evidence(p.evidenceType, p.expectedSender, amount))
            <==> && Admissible(t, p)
                 && token == p.expectedAsset && from == p.expectedSender && to == p.expectedRecipient
                 && (if p.amountRule.Exact? then amount == p.amount else amount >= p.amount)
  {
    CallIsRead(to, amount);
    EventIsRead(p, token, from, to, amount);
    AcceptanceIsExact(t, p, amount);
    assert FirstCarrierAt(t.logs, p, 0) <==> Carries(t.logs[0], p);
  }

  /** A wrong amount in the first carrier is final: no later log is looked at. */
  lemma FirstCarrierDecides(t: Transaction, p: Policy, i: nat, later: seq<Log>)
    requires p.assetKind == Erc20 && Admissible(t, p) && t.value == 0 && CalldataOk(t, p)
    requires i < |t.logs| && FirstCarrierAt(t.logs, p, i)
    ensures Evaluate(t.(logs := t.logs + later), p) == CheckAmount(Amount(t.logs[i]), p)
  {
    var logs := t.logs + later;
    assert forall j | 0 <= j <= i :: logs[j] == t.logs[j];
    FirstCarrierIsFirst(logs, p, i);
    assert logs[i] in logs && IsTransfer(logs[i]) && IsAssetTransfer(logs[i], p);
  }

  /** The evidence type is a label: a transaction pays the same amount under a policy of any type. */
  lemma EvidenceTypeIsFree(t: Transaction, p: Policy, evidenceType: nat, amount: nat)
    requires evidenceType < UINT256_LIMIT && p.evidenceType < UINT256_LIMIT
    ensures var q := p.(evidenceType := evidenceType);
            Evaluate(t, p) == Ok(Evidence(p.evidenceType, p.expectedSender, amount))
            <==> Evaluate(t, q) == Ok(Evidence(evidenceType, p.expectedSender, amount))
  {
    var q := p.(evidenceType := evidenceType);
    AcceptanceIsExact(t, p, amount);
    AcceptanceIsExact(t, q, amount);
    CarriersAgree(t.logs, p, q);
  }

  lemma CarriersAgree(logs: seq<Log>, p: Policy, q: Policy)
    requires q == p.(evidenceType := q.evidenceType)
    ensures forall i | 0 <= i < |logs| :: FirstCarrierAt(logs, p, i) <==> FirstCarrierAt(logs, q, i)
  {
    assert forall log :: Carries(log, p) == Carries(log, q);
  }

  /*** Failures ***/

  lemma {:induction false} FirstOfTwo(a: seq<Check>, b: seq<Check>)
    ensures FirstBroken(a + b) == if FirstBroken(a).Some? then FirstBroken(a) else FirstBroken(b)
  {
    if a == [] {
      assert a + b == b;
    } else {
      FirstOfTwo(a[1..], b);
      assert (a + b)[1..] == a[1..] + b;
    }
  }

  predicate Broken(checks: seq<Check>, i: nat) {
    i < |checks| && checks[i].broken
  }

  lemma FirstOfFour(checks: seq<Check>)
    ensures FirstBroken(checks) == if Broken(checks, 0) then Some(checks[0].code)
                                   else if Broken(checks, 1) then Some(checks[1].code)
                                   else if Broken(checks, 2) then Some(checks[2].code)
                                   else if Broken(checks, 3) then Some(checks[3].code)
                                   else if |checks| <= 4 then None
                                   else FirstBroken(checks[4..])
  {
    assert |checks| > 1 ==> checks[1..][1..] == checks[2..];
    assert |checks| > 2 ==> checks[2..][1..] == checks[3..];
    assert |checks| > 3 ==> checks[3..][1..] == checks[4..];
  }

  /** The checks of the evaluator in order: the shared guards, then those of the asset kind. */
  ghost function EvaluationChecks(t: Transaction, p: Policy): seq<Check> {
    [Check(!SchemaValid(p), InvalidPolicy),
     Check(!(0 <= t.blockNumber <= MAX_SAFE_INTEGER), MissingFreshnessContext),
     Check(t.receiptStatus != 1, WrongEvent),
     Check(t.chainKey != p.chainKey, UnsupportedSourceChain),
     Check(t.from != p.expectedSender, SubjectMismatch),
     Check(p.expectedSourceContract != ZERO_ADDRESS && t.to != Some(p.expectedSourceContract), WrongSourceContract),
     Check(!InWindow(t, p), StaleEvidence)]
    + if p.assetKind == Native then NativeChecks(t, p) else Erc20Checks(t, p)
  }

  function NativeChecks(t: Transaction, p: Policy): seq<Check> {
    [Check(t.to != Some(p.expectedRecipient), WrongRecipient), Check(!AmountOk(t.value, p), WrongAmount)]
  }

  ghost function Erc20Checks(t: Transaction, p: Policy): seq<Check> {
    [Check(t.value != 0, WrongAsset),
     Check(!CalldataOk(t, p), WrongCalldata),
     Check(forall i | 0 <= i < |t.logs| :: !IsTransfer(t.logs[i]), WrongEvent),
     Check(forall i | 0 <= i < |t.logs| :: !IsAssetTransfer(t.logs[i], p), WrongAsset),
     Check(forall i | 0 <= i < |t.logs| :: !FirstCarrierAt(t.logs, p, i), WrongEvent),
     Check(exists i | 0 <= i < |t.logs| :: FirstCarrierAt(t.logs, p, i) && !AmountOk(Amount(t.logs[i]), p),
           WrongAmount)]
  }

  lemma ScalarFails(t: Transaction, p: Policy)
    ensures FirstBroken(EvaluationChecks(t, p)[..7]) == ScalarFailure(t, p)
  {
    var cs := EvaluationChecks(t, p)[..7];
    FirstOfFour(cs);
    FirstOfFour(cs[4..]);
  }

  lemma NativeFails(t: Transaction, p: Policy)
    ensures match FirstBroken(NativeChecks(t, p))
            case Some(code) => NativeVerdict(t, p) == Failed(code)
            case None => NativeVerdict(t, p).Ok?
  {
    var cs := NativeChecks(t, p);
    FirstOfFour(cs);
  }

  lemma Erc20Fails(t: Transaction, p: Policy)
    ensures match FirstBroken(Erc20Checks(t, p))
            case Some(code) => Erc20Verdict(t, p) == Failed(code)
            case None => Erc20Verdict(t, p).Ok?
  {
    var cs := Erc20Checks(t, p);
    FirstOfFour(cs);
    FirstOfFour(cs[4..]);
    assert (exists log <- t.logs :: IsTransfer(log)) <==> !cs[2].broken;
    assert (exists log <- t.logs :: IsAssetTransfer(log, p)) <==> !cs[3].broken;
    if FirstCarrier(t.logs, p).Some? {
      var i := FirstCarrierHasIndex(t.logs, p);
      FirstCarrierIsFirst(t.logs, p, i);
      forall j: nat | j < |t.logs| && FirstCarrierAt(t.logs, p, j) ensures j == i {}
      assert t.logs[i] in t.logs;
    } else {
      forall i: nat | i < |t.logs| ensures !FirstCarrierAt(t.logs, p, i) {
        if FirstCarrierAt(t.logs, p, i) { FirstCarrierIsFirst(t.logs, p, i); }
      }
    }
  }

  /** Every failure of the evaluator carries the code of the first broken check; there is none exactly on success. */
  lemma EvaluationFailsFirst(t: Transaction, p: Policy)
    ensures match FirstBroken(EvaluationChecks(t, p))
            case Some(code) => Evaluate(t, p) == Failed(code)
            case None => Evaluate(t, p).Ok?
  {
    var rest := if p.assetKind == Native then NativeChecks(t, p) else Erc20Checks(t, p);
    ScalarFails(t, p);
    assert EvaluationChecks(t, p) == EvaluationChecks(t, p)[..7] + rest;
    FirstOfTwo(EvaluationChecks(t, p)[..7], rest);
    if p.assetKind == Native { NativeFails(t, p); } else { Erc20Fails(t, p); }
  }
}
