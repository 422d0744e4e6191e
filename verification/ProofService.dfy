/** The oracle-driven proof verification, `backend/src/attestcoin/attestcoin-service.ts`. */
module ProofService {
  import opened Digests
  import opened Evaluator
  import opened Policies
  import opened Registry
  import opened Verifier

  const CREDITCOIN_CHAIN := 102031

  datatype SourceReceipt = SourceReceipt(blockNumber: Option<int>, status: Option<int>)

  datatype Attested = Attested(present: bool, height: int)

  datatype ProofData = ProofData(chainKey: nat, headerNumber: int, hash: Digest, index: nat, bytes: seq<nat>)

  datatype ProofAnswer = Refused(status: Option<nat>) | Empty | Proof(data: ProofData)

  /**
   * What every awaited call would answer. The outer `None` is a call that throws; `decode` is the
   * transaction the attested bytes hold, if they are well formed.
   */
  datatype Oracle = Oracle(
    sourceChain: Option<nat>,
    transactionBlock: Option<Option<Option<int>>>,
    receipt: Option<Option<SourceReceipt>>,
    block: Option<Option<int>>,
    creditcoinChain: Option<nat>,
    supported: Option<seq<(nat, nat)>>,
    latest: Option<Attested>,
    waited: bool,
    latestAfterWait: Option<Attested>,
    builderWaits: bool,
    builderReady: bool,
    proof: Option<ProofAnswer>,
    index: Option<nat>,
    accepted: Option<bool>,
    decode: seq<nat> -> Option<Transaction>)

  /** What the service asked for and learned, in order. */
  datatype Seen =
    | HeightSeen(chainKey: nat, height: int)
    | ProofAsked(hash: Digest)
    | ProverAccepted(chainKey: nat, block: int, bytes: seq<nat>)

  /*** The outcome as a function of the answers ***/

  function ChainOf(supported: seq<(nat, nat)>, key: nat): Option<nat> {
    if supported == [] then None
    else if supported[0].0 == key then Some(supported[0].1)
    else ChainOf(supported[1..], key)
  }

  /** The block of the successful source transaction, as its receipt states it. */
  function SourceBlock(r: Request, o: Oracle): Result<int> {
    if o.sourceChain.None? || o.transactionBlock.None? then Failed(ProviderFailure)
    else if o.transactionBlock.value.None? then Failed(SourceTransactionNotFound)
    else if o.transactionBlock.value.value.None? then Failed(SourceTransactionNotMined)
    else if o.receipt.None? then Failed(ProviderFailure)
    else if o.receipt.value.None? || o.receipt.value.value.blockNumber.None? then Failed(SourceTransactionNotMined)
    else
      var b := o.receipt.value.value.blockNumber.value;
      if o.transactionBlock.value.value.value != b then Failed(InvalidProof)
      else if o.block.None? then Failed(ProviderFailure)
      else if o.block.value != Some(b) then Failed(SourceTransactionNotMined)
      else if o.receipt.value.value.status != Some(1) then Failed(PolicyMismatch)
      else Ok(b)
  }

  /** Both networks and the chain-key mapping are as configured. */
  function NetworkFailure(r: Request, o: Oracle): Option<Code>
    requires o.sourceChain.Some?
  {
    if o.creditcoinChain.None? then Some(ProviderFailure)
    else if o.creditcoinChain.value != CREDITCOIN_CHAIN then Some(ConfigurationMissing)
    else if o.supported.None? then Some(ProviderFailure)
    else if ChainOf(o.supported.value, r.chainKey) != o.sourceChain then Some(UnsupportedSourceChain)
    else None
  }

  predicate Reaches(a: Attested, block: int) {
    a.present && a.height >= block
  }

  /** The source block is attested, at once or after waiting, and the proof builder has it. */
  function AttestationFailure(o: Oracle, block: int): Option<Code> {
    if o.latest.None? then Some(ProviderFailure)
    else if !Reaches(o.latest.value, block)
            && (!o.waited || o.latestAfterWait.None? || !Reaches(o.latestAfterWait.value, block))
    then Some(SourceBlockNotAttested)
    else if o.builderWaits && !o.builderReady then Some(ProofBuilderUnavailable)
    else None
  }

  /** The proof's own statements agree with the request, the receipt's block and the Merkle path. */
  function ProofFailure(r: Request, o: Oracle, block: int): Option<Code> {
    if o.proof.None? then Some(ProofBuilderUnavailable)
    else
      match o.proof.value
      case Refused(status) =>
        Some(if status == Some(404) then ProofNotFound
             else if status.Some? && status.value >= 500 then ProofBuilderUnavailable else InvalidProof)
      case Empty => Some(InvalidProof)
      case Proof(p) =>
        if p.chainKey != r.chainKey then Some(UnsupportedSourceChain)
        else if p.headerNumber != block then Some(InvalidProof)
        else if p.hash != r.transactionHash then Some(TransactionHashMismatch)
        else if o.index != Some(p.index) then Some(InvalidProof)
        else None
  }

  /** The native prover's answer, and the transaction inside the proven bytes. */
  function Proven(r: Request, o: Oracle, p: ProofData): Result<Transaction> {
    if o.accepted != Some(true) then Failed(CreditcoinVerificationFailed)
    else
      var t := o.decode(p.bytes);
      if t.None? then Failed(MissingTransactionContext)
      else if t.value.hash != r.transactionHash then Failed(TransactionHashMismatch)
      else if t.value.receiptStatus != 1 then Failed(InvalidProof)
      else Ok(t.value.(chainKey := p.chainKey, blockNumber := p.headerNumber))
  }

  function Verdict(r: Request, o: Oracle, configured: nat): Result<Transaction> {
    if r.chainKey != configured then Failed(UnsupportedSourceChain)
    else
      var block := SourceBlock(r, o);
      if block.Failed? then Failed(block.code)
      else if NetworkFailure(r, o).Some? then Failed(NetworkFailure(r, o).value)
      else if AttestationFailure(o, block.value).Some? then Failed(AttestationFailure(o, block.value).value)
      else if ProofFailure(r, o, block.value).Some? then Failed(ProofFailure(r, o, block.value).value)
      else Proven(r, o, o.proof.value.data)
  }

  /*** The steps of the program ***/

  /** A proof is asked for only after an attested height that covers the receipt's block was seen. */
  ghost predicate NoEarlyProof(r: Request, o: Oracle, seen: seq<Seen>) {
    forall i | 0 <= i < |seen| && seen[i].ProofAsked? ::
      SourceBlock(r, o).Ok? && exists j | 0 <= j < i :: Covers(seen[j], r.chainKey, SourceBlock(r, o).value)
  }

  predicate Covers(event: Seen, chainKey: nat, block: int) {
    event.HeightSeen? && event.chainKey == chainKey && event.height >= block
  }

  method Verify(r: Request, o: Oracle, configured: nat) returns (result: Result<Transaction>, seen: seq<Seen>)
    ensures result == Verdict(r, o, configured)
    ensures NoEarlyProof(r, o, seen)
    ensures result.Ok? ==>
              && ProofAsked(r.transactionHash) in seen
              && o.proof.Some? && o.proof.value.Proof?
              && ProverAccepted(r.chainKey, result.value.blockNumber, o.proof.value.data.bytes) in seen
  {
    seen := [];
    if r.chainKey != configured { return Failed(UnsupportedSourceChain), seen; }
    if o.sourceChain.None? || o.transactionBlock.None? { return Failed(ProviderFailure), seen; }
    if o.transactionBlock.value.None? { return Failed(SourceTransactionNotFound), seen; }
    if o.transactionBlock.value.value.None? { return Failed(SourceTransactionNotMined), seen; }
    if o.receipt.None? { return Failed(ProviderFailure), seen; }
    if o.receipt.value.None? || o.receipt.value.value.blockNumber.None? {
      return Failed(SourceTransactionNotMined), seen;
    }
    var sourceBlockNumber := o.receipt.value.value.blockNumber.value;
    if o.transactionBlock.value.value.value != sourceBlockNumber { return Failed(InvalidProof), seen; }
    if o.block.None? { return Failed(ProviderFailure), seen; }
    if o.block.value != Some(sourceBlockNumber) { return Failed(SourceTransactionNotMined), seen; }
    if o.receipt.value.value.status != Some(1) { return Failed(PolicyMismatch), seen; }
    assert SourceBlock(r, o) == Ok(sourceBlockNumber);

    if o.creditcoinChain.None? { return Failed(ProviderFailure), seen; }
    if o.creditcoinChain.value != CREDITCOIN_CHAIN { return Failed(ConfigurationMissing), seen; }
    if o.supported.None? { return Failed(ProviderFailure), seen; }
    var supported := FindChain(o.supported.value, r.chainKey);
    if supported.None? { return Failed(UnsupportedSourceChain), seen; }
    if supported.value != o.sourceChain.value { return Failed(UnsupportedSourceChain), seen; }

    if o.latest.None? { return Failed(ProviderFailure), seen; }
    var latest := o.latest.value;
    if latest.present { seen := seen + [HeightSeen(r.chainKey, latest.height)]; }
    var initiallyAttested := latest.present && latest.height >= sourceBlockNumber;
    if !initiallyAttested {
      if !o.waited || o.latestAfterWait.None? { return Failed(SourceBlockNotAttested), seen; }
      var attested := o.latestAfterWait.value;
      if attested.present { seen := seen + [HeightSeen(r.chainKey, attested.height)]; }
      if !attested.present || attested.height < sourceBlockNumber { return Failed(SourceBlockNotAttested), seen; }
    }
    assert Covers(seen[|seen| - 1], r.chainKey, sourceBlockNumber);
    if o.builderWaits && !o.builderReady { return Failed(ProofBuilderUnavailable), seen; }

    seen := seen + [ProofAsked(r.transactionHash)];
    ghost var asked := |seen| - 1;
    assert Covers(seen[asked - 1], r.chainKey, sourceBlockNumber);
    if o.proof.None? { return Failed(ProofBuilderUnavailable), seen; }
    if !o.proof.value.Proof? {
      if o.proof.value.Refused? && o.proof.value.status.Some? {
        if o.proof.value.status.value == 404 { return Failed(ProofNotFound), seen; }
        if o.proof.value.status.value >= 500 { return Failed(ProofBuilderUnavailable), seen; }
      }
      return Failed(InvalidProof), seen;
    }
    var p := o.proof.value.data;
    if p.chainKey != r.chainKey { return Failed(UnsupportedSourceChain), seen; }
    if p.headerNumber != sourceBlockNumber { return Failed(InvalidProof), seen; }
    if p.hash != r.transactionHash { return Failed(TransactionHashMismatch), seen; }
    if o.index != Some(p.index) { return Failed(InvalidProof), seen; }
    if o.accepted != Some(true) { return Failed(CreditcoinVerificationFailed), seen; }
    seen := seen + [ProverAccepted(p.chainKey, p.headerNumber, p.bytes)];
    assert seen[asked].ProofAsked? && Covers(seen[asked - 1], r.chainKey, sourceBlockNumber);
    var transaction := o.decode(p.bytes);
    if transaction.None? { return Failed(MissingTransactionContext), seen; }
    if transaction.value.hash != r.transactionHash { return Failed(TransactionHashMismatch), seen; }
    if transaction.value.receiptStatus != 1 { return Failed(InvalidProof), seen; }
    return Ok(transaction.value.(chainKey := p.chainKey, blockNumber := p.headerNumber)), seen;
  }

  method FindChain(supported: seq<(nat, nat)>, key: nat) returns (chain: Option<nat>)
    ensures chain == ChainOf(supported, key)
  {
    for i := 0 to |supported|
      invariant ChainOf(supported, key) == ChainOf(supported[i..], key)
    {
      if supported[i].0 == key { return Some(supported[i].1); }
    }
    return None;
  }

  /*** What a proven transaction, and a broadcast, rest on ***/

  /** The first supported entry with this key is for this chain. */
  ghost predicate FirstEntryIs(supported: seq<(nat, nat)>, key: nat, chain: nat) {
    exists i | 0 <= i < |supported| :: supported[i] == (key, chain) && NoneBefore(supported, key, i)
  }

  predicate NoneBefore(supported: seq<(nat, nat)>, key: nat, i: nat)
    requires i <= |supported|
  {
    forall j | 0 <= j < i :: supported[j].0 != key
  }

  lemma {:induction false} ChainOfIsFirst(supported: seq<(nat, nat)>, key: nat, chain: nat)
    ensures ChainOf(supported, key) == Some(chain) <==> FirstEntryIs(supported, key, chain)
  {
    if supported != [] {
      var tail := supported[1..];
      ChainOfIsFirst(tail, key, chain);
      if supported[0].0 == key {
        assert supported[0] == (key, chain) ==> NoneBefore(supported, key, 0);
      } else {
        if FirstEntryIs(tail, key, chain) {
          var i :| 0 <= i < |tail| && tail[i] == (key, chain) && NoneBefore(tail, key, i);
          assert supported[i + 1] == (key, chain) && NoneBefore(supported, key, i + 1);
        }
        if FirstEntryIs(supported, key, chain) {
          var i :| 0 <= i < |supported| && supported[i] == (key, chain) && NoneBefore(supported, key, i);
          assert tail[i - 1] == (key, chain) && NoneBefore(tail, key, i - 1);
        }
      }
    }
  }

  /** Creditcoin showed an attested height that covers the block, at once or after the wait. */
  predicate AttestedHeight(o: Oracle, block: int) {
    && o.latest.Some?
    && (Reaches(o.latest.value, block)
        || (o.waited && o.latestAfterWait.Some? && Reaches(o.latestAfterWait.value, block)))
  }

  /** The proof is the builder's for this key, block and hash, its Merkle path has its index, and the prover took it. */
  predicate AcceptedProof(r: Request, o: Oracle, block: int, bytes: seq<nat>) {
    && (o.builderWaits ==> o.builderReady)
    && o.proof.Some? && o.proof.value.Proof?
    && var p := o.proof.value.data;
       && p == ProofData(r.chainKey, block, r.transactionHash, p.index, bytes)
       && o.index == Some(p.index) && o.accepted == Some(true)
  }

  /**
   * A transaction is returned exactly when transaction, receipt, block and proof all name its block, the receipt and
   * the proven bytes report success, the chain key is the configured one and stands for the chain the source node is
   * on, an attested height covers the block, the prover accepted the builder's proof, and the transaction is the one
   * in the proven bytes, with the requested hash.
   */
  lemma VerdictIsExact(r: Request, o: Oracle, configured: nat, t: Transaction)
    ensures Verdict(r, o, configured) == Ok(t) <==>
              && t.chainKey == r.chainKey == configured && t.hash == r.transactionHash && t.receiptStatus == 1
              && o.transactionBlock == Some(Some(Some(t.blockNumber)))
              && o.receipt == Some(Some(SourceReceipt(Some(t.blockNumber), Some(1))))
              && o.block == Some(Some(t.blockNumber))
              && o.creditcoinChain == Some(CREDITCOIN_CHAIN)
              && o.sourceChain.Some? && o.supported.Some?
              && FirstEntryIs(o.supported.value, r.chainKey, o.sourceChain.value)
              && AttestedHeight(o, t.blockNumber)
              && exists bytes :: AcceptedProof(r, o, t.blockNumber, bytes) && HoldsTransaction(o, bytes, t)
  {
    if o.sourceChain.Some? && o.supported.Some? { ChainOfIsFirst(o.supported.value, r.chainKey, o.sourceChain.value); }
    if Verdict(r, o, configured) == Ok(t) {
      assert AcceptedProof(r, o, t.blockNumber, o.proof.value.data.bytes);
    }
  }

  /** The transaction in the bytes, placed in its chain and block. */
  predicate HoldsTransaction(o: Oracle, bytes: seq<nat>, t: Transaction) {
    o.decode(bytes).Some? && t == o.decode(bytes).value.(chainKey := t.chainKey, blockNumber := t.blockNumber)
  }

  /**
   * A claim is broadcast only for the block and hash the prover accepted, which is the block the policy
   * window was checked against.
   */
  lemma BroadcastFollowsProof(r: Request, o: Oracle, configured: nat, a: Answers)
    requires a.proof == Verdict(r, o, configured) && Submits(r, a).Some?
    ensures SourceBlock(r, o).Ok? && o.accepted == Some(true) && o.proof.Some? && o.proof.value.Proof?
    ensures var block := SourceBlock(r, o).value;
            && o.proof.value.data.headerNumber == block && o.proof.value.data.hash == r.transactionHash
            && o.decode(o.proof.value.data.bytes).Some?
            && o.decode(o.proof.value.data.bytes).value.hash == r.transactionHash
            && a.proof.value.blockNumber == block && InWindow(a.proof.value, r.policy)
            && (Reaches(o.latest.value, block) || (o.waited && Reaches(o.latestAfterWait.value, block)))
            && Submits(r, a).value.0.transactionHash == r.transactionHash
  {
    VerdictIsExact(r, o, configured, a.proof.value);
    AcceptanceIsExact(a.proof.value, r.policy, Evaluate(a.proof.value, r.policy).value.amount);
  }
}
