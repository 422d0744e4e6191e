/** The authorized verifier, `backend/src/attestcoin/attestcoin-verifier.ts`. */
module Verifier {
  import opened Digests
  import opened Policies
  import opened Evaluator
  import opened Registry
  import Escrow

  datatype Request = Request(
    escrow: Address,
    agreement: Digest,
    policyCommitment: Digest,
    evidence: Digest,
    evidenceType: nat,
    chainKey: nat,
    transactionHash: Digest,
    subject: Address,
    policy: Policy,
    mode: Option<Mode>)

  /** What the escrow views returned; the fields are read by separate calls. */
  datatype Context = Context(
    escrow: Address, agreement: Digest, policy: Digest, active: Digest, direct: bool,
    buyer: Address, seller: Address, state: Escrow.State)

  datatype Settlement = Settlement(state: Escrow.State, verified: Digest, active: Digest, sellerCredit: nat)

  datatype Submission = Submission(claimId: Digest, transactionHash: Digest)

  /** The outcome of every awaited call; `None` and `Failed` stand for a call that threw or refused. */
  datatype Answers = Answers(
    proof: Result<Transaction>,
    replay: Option<(bool, Address)>,
    context: Option<Context>,
    submission: Option<Submission>,
    settlement: Option<Settlement>,
    verifiedClaim: Option<Digest>)

  datatype Facts = Facts(
    chainKey: nat, transactionHash: Digest, blockNumber: int, chainId: nat,
    sender: Address, recipient: Address, asset: Option<Address>, amount: nat)

  datatype Verified = Verified(
    claim: Claim, claimId: Digest, transactionHash: Digest, amount: nat, facts: Facts)

  /*** The decision as a function of the answers ***/

  function ModeOf(r: Request): Mode {
    if r.mode.Some? then r.mode.value else DisputeEvidence
  }

  function RequestFailure(r: Request): Option<Code> {
    if !SchemaValid(r.policy) then Some(InvalidPolicy)
    else if PolicyCommitment(r.policy) != r.policyCommitment then Some(PolicyCommitmentMismatch)
    else if r.policy.chainKey != r.chainKey then Some(UnsupportedSourceChain)
    else if r.policy.evidenceType != r.evidenceType then Some(EvidenceTypeMismatch)
    else if r.policy.expectedSender != r.subject then Some(SubjectMismatch)
    else None
  }

  function Commitment(r: Request, t: Transaction, e: Evidence): Digest {
    EvidenceCommitment(r.policyCommitment, Raw(e.evidenceType), t.chainKey, t.hash, e.subject)
  }

  function TransactionFailure(r: Request, t: Transaction): Option<Code> {
    if t.chainKey != r.chainKey then Some(UnsupportedSourceChain)
    else if t.hash != r.transactionHash then Some(TransactionHashMismatch)
    else
      match Evaluate(t, r.policy)
      case Failed(code) => Some(code)
      case Ok(e) =>
        if e.evidenceType != r.evidenceType then Some(EvidenceTypeMismatch)
        else if e.subject != r.subject then Some(SubjectMismatch)
        else if Commitment(r, t, e) != r.evidence then Some(EvidenceCommitmentMismatch)
        else None
  }

  /** The normalized claim of a transaction the policy accepts. */
  function BuildClaim(r: Request, t: Transaction): Claim
    requires Evaluate(t, r.policy).Ok?
  {
    var e := Evaluate(t, r.policy).value;
    Claim(r.escrow, r.agreement, r.policyCommitment, Commitment(r, t, e), Raw(e.evidenceType),
          t.chainKey, t.hash, e.subject)
  }

  function BuildFacts(r: Request, t: Transaction): Facts
    requires Evaluate(t, r.policy).Ok?
  {
    Facts(t.chainKey, t.hash, t.blockNumber, t.chainId, t.from, r.policy.expectedRecipient,
          if r.policy.assetKind == Native then None else Some(r.policy.expectedAsset),
          Evaluate(t, r.policy).value.amount)
  }

  function ContextFailure(r: Request, submitted: bool, x: Context): Option<Code> {
    if x.escrow != r.escrow then Some(EscrowMismatch)
    else if x.agreement != r.agreement then Some(AgreementCommitmentMismatch)
    else if x.policy != r.policyCommitment then Some(PolicyCommitmentMismatch)
    else if ModeOf(r) != DisputeEvidence && (ModeOf(r) == DirectSettlement) != x.direct then Some(EscrowNotSettleable)
    else if ModeOf(r) != DisputeEvidence && !submitted && x.state != Escrow.AwaitingDelivery
    then Some(EscrowNotSettleable)
    else if ModeOf(r) != DisputeEvidence && !submitted && x.active != ZERO_HASH then Some(EvidenceCommitmentMismatch)
    else if ModeOf(r) == DisputeEvidence && x.active != r.evidence then Some(EvidenceCommitmentMismatch)
    else if ModeOf(r) == DisputeEvidence && x.state != Escrow.Disputed then Some(EscrowNotSettleable)
    else if r.subject != x.buyer && r.subject != x.seller then Some(SubjectMismatch)
    else None
  }

  /** Whether the escrow, as read after the submission, shows the claim's effect. */
  function Confirms(mode: Mode, claimId: Digest, a: Answers): bool {
    match mode
    case DirectSettlement =>
      && a.settlement.Some? && a.settlement.value.state == Escrow.Complete
      && a.settlement.value.verified == claimId && a.settlement.value.sellerCredit > 0
    case PrerequisiteRecord =>
      && a.settlement.Some? && a.settlement.value.state == Escrow.AwaitingDelivery
      && a.settlement.value.verified == claimId && a.settlement.value.active == ZERO_HASH
      && a.settlement.value.sellerCredit == 0
    case DisputeEvidence =>
      a.verifiedClaim == Some(claimId)
  }

  /** Failures before the idempotency check. */
  function Screening(r: Request, a: Answers): Option<Code> {
    if RequestFailure(r).Some? then RequestFailure(r)
    else if a.proof.Failed? then Some(a.proof.code)
    else TransactionFailure(r, a.proof.value)
  }

  function Replayed(c: Claim, replay: (bool, Address)): bool {
    (replay.0 || replay.1 != ZERO_ADDRESS) && replay.1 != c.escrow
  }

  /** Failures between the idempotency check and the submission. */
  function Admission(r: Request, a: Answers, c: Claim): Option<Code> {
    if a.replay.None? then Some(AuthorizedClaimFailed)
    else if Replayed(c, a.replay.value) then Some(ReplayDetected)
    else if a.context.None? then Some(ProviderFailure)
    else ContextFailure(r, a.replay.value.1 == c.escrow, a.context.value)
  }

  /** The submission requested from the registry gateway, if any. */
  function Submits(r: Request, a: Answers): Option<(Claim, Mode)> {
    if Screening(r, a).Some? then None
    else
      var c := BuildClaim(r, a.proof.value);
      if Admission(r, a, c).Some? || a.replay.value.1 == c.escrow then None else Some((c, ModeOf(r)))
  }

  function Decide(r: Request, a: Answers): Result<Verified> {
    if Screening(r, a).Some? then Failed(Screening(r, a).value)
    else
      var t := a.proof.value;
      var c := BuildClaim(r, t);
      if Admission(r, a, c).Some? then Failed(Admission(r, a, c).value)
      else if Submits(r, a).Some? && a.submission.None? then Failed(AuthorizedClaimFailed)
      else
        var claimId := if Submits(r, a).Some? then a.submission.value.claimId else ClaimId(c);
        var hash := if Submits(r, a).Some? then a.submission.value.transactionHash else r.transactionHash;
        if !Confirms(ModeOf(r), claimId, a) then Failed(EscrowSettlementFailed)
        else Ok(Verified(c, claimId, hash, Evaluate(t, r.policy).value.amount, BuildFacts(r, t)))
  }

  /*** The steps of the program ***/

  method VerifyAndSubmit(r: Request, a: Answers)
    returns (result: Result<Verified>, submitted: Option<(Claim, Mode)>)
    ensures result == Decide(r, a)
    ensures submitted == Submits(r, a)
  {
    submitted := None;
    var mode := if r.mode.Some? then r.mode.value else DisputeEvidence;
    if !SchemaValid(r.policy) { return Failed(InvalidPolicy), None; }
    if PolicyCommitment(r.policy) != r.policyCommitment { return Failed(PolicyCommitmentMismatch), None; }
    if r.policy.chainKey != r.chainKey { return Failed(UnsupportedSourceChain), None; }
    if r.policy.evidenceType != r.evidenceType { return Failed(EvidenceTypeMismatch), None; }
    if r.policy.expectedSender != r.subject { return Failed(SubjectMismatch), None; }

    if a.proof.Failed? { return Failed(a.proof.code), None; }
    var t := a.proof.value;
    if t.chainKey != r.chainKey { return Failed(UnsupportedSourceChain), None; }
    if t.hash != r.transactionHash { return Failed(TransactionHashMismatch), None; }
    var verdict := Evaluate(t, r.policy);
    if verdict.Failed? { return Failed(verdict.code), None; }
    var e := verdict.value;
    if e.evidenceType != r.evidenceType { return Failed(EvidenceTypeMismatch), None; }
    if e.subject != r.subject { return Failed(SubjectMismatch), None; }
    var computed := EvidenceCommitment(r.policyCommitment, Raw(e.evidenceType), t.chainKey, t.hash, e.subject);
    if computed != r.evidence { return Failed(EvidenceCommitmentMismatch), None; }
    var claim := Claim(r.escrow, r.agreement, r.policyCommitment, computed, Raw(e.evidenceType),
                       t.chainKey, t.hash, e.subject);
    var claimId := ClaimId(claim);
    assert Screening(r, a).None? && claim == BuildClaim(r, t);

    if a.replay.None? { return Failed(AuthorizedClaimFailed), None; }
    var (consumed, bound) := a.replay.value;
    var claimAlreadySubmitted := bound == claim.escrow;
    if (consumed || bound != ZERO_ADDRESS) && !claimAlreadySubmitted { return Failed(ReplayDetected), None; }

    if a.context.None? { return Failed(ProviderFailure), None; }
    var escrow := a.context.value;
    if escrow.escrow != r.escrow { return Failed(EscrowMismatch), None; }
    if escrow.agreement != r.agreement { return Failed(AgreementCommitmentMismatch), None; }
    if escrow.policy != r.policyCommitment { return Failed(PolicyCommitmentMismatch), None; }
    if mode != DisputeEvidence {
      if (mode == DirectSettlement) != escrow.direct { return Failed(EscrowNotSettleable), None; }
      if !claimAlreadySubmitted && escrow.state != Escrow.AwaitingDelivery { return Failed(EscrowNotSettleable), None; }
      if !claimAlreadySubmitted && escrow.active != ZERO_HASH { return Failed(EvidenceCommitmentMismatch), None; }
    } else {
      if escrow.active != r.evidence { return Failed(EvidenceCommitmentMismatch), None; }
      if escrow.state != Escrow.Disputed { return Failed(EscrowNotSettleable), None; }
    }
    if r.subject != escrow.buyer && r.subject != escrow.seller { return Failed(SubjectMismatch), None; }
    assert Admission(r, a, claim).None?;

    var submission: Option<Submission> := None;
    if !claimAlreadySubmitted {
      submitted := Some((claim, mode));
      if a.submission.None? { return Failed(AuthorizedClaimFailed), submitted; }
      submission := a.submission;
    }
    var acceptedClaimId := if submission.Some? then submission.value.claimId else claimId;
    var hash := if submission.Some? then submission.value.transactionHash else r.transactionHash;
    if mode == DirectSettlement {
      if a.settlement.None? { return Failed(EscrowSettlementFailed), submitted; }
      var s := a.settlement.value;
      var settled := s.state == Escrow.Complete && s.verified == acceptedClaimId && s.sellerCredit > 0;
      if !settled { return Failed(EscrowSettlementFailed), submitted; }
    } else if mode == PrerequisiteRecord {
      if a.settlement.None? { return Failed(EscrowSettlementFailed), submitted; }
      var s := a.settlement.value;
      var recorded := s.state == Escrow.AwaitingDelivery && s.verified == acceptedClaimId
                      && s.active == ZERO_HASH && s.sellerCredit == 0;
      if !recorded { return Failed(EscrowSettlementFailed), submitted; }
    } else {
      if a.verifiedClaim.None? { return Failed(EscrowSettlementFailed), submitted; }
      if a.verifiedClaim.value != acceptedClaimId { return Failed(EscrowSettlementFailed), submitted; }
    }
    var facts := Facts(t.chainKey, t.hash, t.blockNumber, t.chainId, t.from, r.policy.expectedRecipient,
                       if r.policy.assetKind == Native then None else Some(r.policy.expectedAsset), e.amount);
    return Ok(Verified(claim, acceptedClaimId, hash, e.amount, facts)), submitted;
  }
}
