/** When the verifier submits, when it succeeds and how it fails, over the answers alone. */
module Verdicts {
  import opened Digests
  import opened Policies
  import opened Evaluator
  import opened Registry
  import opened Verifier
  import Escrow

  /** The claim a request stands for. */
  function RequestedClaim(r: Request): Claim {
    Claim(r.escrow, r.agreement, r.policyCommitment, r.evidence, Raw(r.evidenceType),
          r.chainKey, r.transactionHash, r.subject)
  }

  /** The request is the policy's, and the proven transaction is the requested one and pays this amount. */
  ghost predicate Proves(r: Request, a: Answers, amount: nat) {
    && SchemaValid(r.policy) && PolicyCommitment(r.policy) == r.policyCommitment
    && r.policy.chainKey == r.chainKey && r.policy.evidenceType == r.evidenceType
    && r.policy.expectedSender == r.subject
    && a.proof.Ok? && a.proof.value.chainKey == r.chainKey && a.proof.value.hash == r.transactionHash
    && Admissible(a.proof.value, r.policy) && Pays(a.proof.value, r.policy, amount)
    && r.evidence
       == EvidenceCommitment(r.policyCommitment, Raw(r.evidenceType), r.chainKey, r.transactionHash, r.subject)
  }

  /** The escrow is the requested one, in the mode and, unless the claim is already bound, the state for it. */
  predicate Fits(r: Request, x: Context, bound: bool) {
    && x.escrow == r.escrow && x.agreement == r.agreement && x.policy == r.policyCommitment
    && (r.subject == x.buyer || r.subject == x.seller)
    && match r.mode
       case Some(DirectSettlement) =>
         x.direct && (bound || (x.state == Escrow.AwaitingDelivery && x.active == ZERO_HASH))
       case Some(PrerequisiteRecord) =>
         !x.direct && (bound || (x.state == Escrow.AwaitingDelivery && x.active == ZERO_HASH))
       case _ => x.state == Escrow.Disputed && x.active == r.evidence
  }

  /** The final reads show the effect of this claim id. */
  predicate Shows(r: Request, a: Answers, claimId: Digest) {
    match r.mode
    case Some(DirectSettlement) =>
      && a.settlement.Some?
      && a.settlement.value.state == Escrow.Complete && a.settlement.value.verified == claimId
      && a.settlement.value.sellerCredit > 0
    case Some(PrerequisiteRecord) =>
      a.settlement == Some(Settlement(Escrow.AwaitingDelivery, claimId, ZERO_HASH, 0))
    case _ => a.verifiedClaim == Some(claimId)
  }

  lemma ProvesIsExact(r: Request, a: Answers, amount: nat)
    ensures Proves(r, a, amount) <==>
              && Screening(r, a).None?
              && Evaluate(a.proof.value, r.policy).value.amount == amount
    ensures Screening(r, a).None? ==> BuildClaim(r, a.proof.value) == RequestedClaim(r)
  {
    if a.proof.Ok? { AcceptanceIsExact(a.proof.value, r.policy, amount); }
    if Screening(r, a).None? { EvaluationNames(a.proof.value, r.policy); }
  }

  lemma EvaluationNames(t: Transaction, p: Policy)
    requires Evaluate(t, p).Ok?
    ensures Evaluate(t, p).value.evidenceType == p.evidenceType && Evaluate(t, p).value.subject == p.expectedSender
    ensures Evaluate(t, p) == Ok(Evidence(p.evidenceType, p.expectedSender, Evaluate(t, p).value.amount))
  {}

  /**
   * A submission is requested exactly for a proven request whose source fact was read as neither consumed nor bound,
   * in an escrow that fits it; and it is of the requested claim, in the requested mode.
   */
  lemma SubmissionIsExact(r: Request, a: Answers, c: Claim, mode: Mode)
    ensures Submits(r, a) == Some((c, mode)) <==>
              && (exists amount :: Proves(r, a, amount))
              && a.replay == Some((false, ZERO_ADDRESS)) && r.escrow != ZERO_ADDRESS
              && a.context.Some? && Fits(r, a.context.value, false)
              && c == RequestedClaim(r)
              && mode == (if r.mode.Some? then r.mode.value else DisputeEvidence)
  {
    if a.proof.Ok? && Evaluate(a.proof.value, r.policy).Ok? {
      ProvesIsExact(r, a, Evaluate(a.proof.value, r.policy).value.amount);
    }
    forall amount | Proves(r, a, amount) ensures Screening(r, a).None? {
      ProvesIsExact(r, a, amount);
    }
  }

  /** Every field of a positive result. */
  predicate Reports(r: Request, a: Answers, v: Verified, bound: bool)
    requires a.proof.Ok? && (!bound ==> a.submission.Some?)
  {
    && v.claim == RequestedClaim(r)
    && v.claimId == (if bound then ClaimId(RequestedClaim(r)) else a.submission.value.claimId)
    && v.transactionHash == (if bound then r.transactionHash else a.submission.value.transactionHash)
    && v.facts.chainKey == r.chainKey && v.facts.transactionHash == r.transactionHash
    && v.facts.blockNumber == a.proof.value.blockNumber && v.facts.chainId == a.proof.value.chainId
    && v.facts.sender == a.proof.value.from && v.facts.recipient == r.policy.expectedRecipient
    && v.facts.asset == (if r.policy.assetKind == Native then None else Some(r.policy.expectedAsset))
    && v.facts.amount == v.amount
  }

  /**
   * Success, exactly: the request is proven, its source fact was read as bound to its own escrow or as entirely
   * unused, the escrow fits, an unused fact was submitted and accepted, and the final reads show the claim. The result
   * carries the requested claim, the submission's id and hash when there was one, and the proven transaction's facts.
   */
  lemma SuccessIsExact(r: Request, a: Answers, v: Verified)
    ensures Decide(r, a) == Ok(v) <==>
              && Proves(r, a, v.amount)
              && a.replay.Some? && a.context.Some?
              && var bound := a.replay.value.1 == r.escrow;
                 && (bound || (a.replay == Some((false, ZERO_ADDRESS)) && a.submission.Some?))
                 && Fits(r, a.context.value, bound)
                 && Reports(r, a, v, bound) && Shows(r, a, v.claimId)
  {
    ProvesIsExact(r, a, v.amount);
  }

  /*** Failures ***/

  /** The checks of `verifyAndSubmit` in the order it makes them, each over the answers. */
  function Checks(r: Request, a: Answers): seq<Check> {
    RequestChecks(r) + ProofChecks(r, a) + ReplayChecks(r, a) + ContextChecks(r, a) + FinalChecks(r, a)
  }

  function RequestChecks(r: Request): seq<Check> {
    [Check(!SchemaValid(r.policy), InvalidPolicy),
     Check(SchemaValid(r.policy) && PolicyCommitment(r.policy) != r.policyCommitment, PolicyCommitmentMismatch),
     Check(r.policy.chainKey != r.chainKey, UnsupportedSourceChain),
     Check(r.policy.evidenceType != r.evidenceType, EvidenceTypeMismatch),
     Check(r.policy.expectedSender != r.subject, SubjectMismatch)]
  }

  function ProofChecks(r: Request, a: Answers): seq<Check> {
    if a.proof.Failed? then [Check(true, a.proof.code)]
    else
      var t := a.proof.value;
      var verdict := Evaluate(t, r.policy);
      [Check(t.chainKey != r.chainKey, UnsupportedSourceChain),
       Check(t.hash != r.transactionHash, TransactionHashMismatch),
       Check(verdict.Failed?, if verdict.Failed? then verdict.code else WrongEvent),
       Check(r.evidence != EvidenceCommitment(r.policyCommitment, Raw(r.evidenceType), r.chainKey, r.transactionHash,
                                              r.subject),
             EvidenceCommitmentMismatch)]
  }

  function ReplayChecks(r: Request, a: Answers): seq<Check> {
    if a.replay.None? then [Check(true, AuthorizedClaimFailed)]
    else [Check(a.replay.value != (false, ZERO_ADDRESS) && a.replay.value.1 != r.escrow, ReplayDetected)]
  }

  function ContextChecks(r: Request, a: Answers): seq<Check> {
    if a.context.None? then [Check(true, ProviderFailure)]
    else
      var x := a.context.value;
      var unused := a.replay.Some? && a.replay.value.1 != r.escrow;
      [Check(x.escrow != r.escrow, EscrowMismatch),
       Check(x.agreement != r.agreement, AgreementCommitmentMismatch),
       Check(x.policy != r.policyCommitment, PolicyCommitmentMismatch)]
      + (match r.mode
         case Some(DirectSettlement) =>
           [Check(!x.direct || (unused && x.state != Escrow.AwaitingDelivery), EscrowNotSettleable),
            Check(unused && x.active != ZERO_HASH, EvidenceCommitmentMismatch)]
         case Some(PrerequisiteRecord) =>
           [Check(x.direct || (unused && x.state != Escrow.AwaitingDelivery), EscrowNotSettleable),
            Check(unused && x.active != ZERO_HASH, EvidenceCommitmentMismatch)]
         case _ =>
           [Check(x.active != r.evidence, EvidenceCommitmentMismatch),
            Check(x.state != Escrow.Disputed, EscrowNotSettleable)])
      + [Check(r.subject != x.buyer && r.subject != x.seller, SubjectMismatch)]
  }

  function FinalChecks(r: Request, a: Answers): seq<Check> {
    var unused := a.replay.Some? && a.replay.value.1 != r.escrow;
    var claimId := if unused && a.submission.Some? then a.submission.value.claimId else ClaimId(RequestedClaim(r));
    [Check(unused && a.submission.None?, AuthorizedClaimFailed), Check(!Shows(r, a, claimId), EscrowSettlementFailed)]
  }

  lemma RequestFails(r: Request)
    ensures FirstBroken(RequestChecks(r)) == RequestFailure(r)
  {
    var cs := RequestChecks(r);
    FirstOfFour(cs);
  }

  lemma ProofFails(r: Request, a: Answers)
    requires a.proof.Ok? && RequestFailure(r).None?
    ensures FirstBroken(ProofChecks(r, a)) == TransactionFailure(r, a.proof.value)
  {
    var cs := ProofChecks(r, a);
    FirstOfFour(cs);
    if Evaluate(a.proof.value, r.policy).Ok? { EvaluationNames(a.proof.value, r.policy); }
  }

  lemma ScreeningFails(r: Request, a: Answers)
    ensures FirstBroken(RequestChecks(r) + ProofChecks(r, a)) == Screening(r, a)
  {
    RequestFails(r);
    FirstOfTwo(RequestChecks(r), ProofChecks(r, a));
    if RequestFailure(r).None? && a.proof.Ok? { ProofFails(r, a); }
  }

  lemma ContextFails(r: Request, a: Answers)
    requires a.replay.Some? && a.context.Some?
    ensures FirstBroken(ContextChecks(r, a)) == ContextFailure(r, a.replay.value.1 == r.escrow, a.context.value)
  {
    var cs := ContextChecks(r, a);
    FirstOfFour(cs);
    FirstOfFour(cs[4..]);
  }

  lemma AdmissionFails(r: Request, a: Answers)
    requires Screening(r, a).None?
    ensures FirstBroken(ReplayChecks(r, a) + ContextChecks(r, a)) == Admission(r, a, BuildClaim(r, a.proof.value))
  {
    FirstOfTwo(ReplayChecks(r, a), ContextChecks(r, a));
    if a.replay.Some? && a.context.Some? { ContextFails(r, a); }
  }

  /** Every failure carries the code of the first broken check, and there is none exactly on success. */
  lemma FailureIsTheFirst(r: Request, a: Answers)
    ensures match FirstBroken(Checks(r, a))
            case Some(code) => Decide(r, a) == Failed(code)
            case None => Decide(r, a).Ok?
  {
    var screening := RequestChecks(r) + ProofChecks(r, a);
    var admission := ReplayChecks(r, a) + ContextChecks(r, a);
    assert Checks(r, a) == screening + (admission + FinalChecks(r, a));
    FirstOfTwo(screening, admission + FinalChecks(r, a));
    FirstOfTwo(admission, FinalChecks(r, a));
    ScreeningFails(r, a);
    if Screening(r, a).None? {
      AdmissionFails(r, a);
      ProvesIsExact(r, a, Evaluate(a.proof.value, r.policy).value.amount);
      FirstOfFour(FinalChecks(r, a));
    }
  }
}
