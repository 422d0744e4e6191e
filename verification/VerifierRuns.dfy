/** The verifier on a moving chain: its reads happen one by one while everybody else acts. */
module VerifierRuns {
  import opened Digests
  import opened Policies
  import opened Evaluator
  import opened Registry
  import opened OnePayment
  import opened Verifier
  import Escrow

  /** When each answer was read; a submission is answered after its own reads of the registry. */
  datatype Times = Times(
    consumed: nat, bound: nat, state: nat, active: nat, submission: nat,
    finalState: nat, finalVerified: nat, finalActive: nat, finalCredit: nat)

  predicate Ordered(t: Times, length: nat) {
    && t.consumed <= t.submission && t.bound <= t.submission
    && t.state <= t.submission && t.active <= t.submission
    && t.submission <= t.finalState < length && t.submission <= t.finalVerified < length
    && t.submission <= t.finalActive < length && t.submission <= t.finalCredit < length
  }

  predicate Live(w: World, a: Address) {
    a in w.escrows
  }

  function TermsOf(w: World, a: Address): Escrow.Terms
    requires Live(w, a)
  {
    w.escrows[a].terms
  }

  function StorageOf(w: World, a: Address): Escrow.Storage
    requires Live(w, a)
  {
    w.escrows[a].storage
  }

  function SellerCredit(w: World, a: Address): nat
    requires Live(w, a)
  {
    Escrow.Credit(StorageOf(w, a).withdrawals, TermsOf(w, a).seller)
  }

  ghost predicate ReplayRead(run: seq<World>, c: Claim, t: Times, replay: (bool, Address))
    requires t.consumed < |run| && t.bound < |run|
  {
    && replay.0 == (ClaimId(c) in run[t.consumed].consumed)
    && replay.1 == BoundEscrow(run[t.bound], SourceKey(c))
  }

  ghost predicate ContextRead(run: seq<World>, a: Address, t: Times, x: Context)
    requires t.state < |run| && t.active < |run|
  {
    && Live(run[t.state], a) && Live(run[t.active], a)
    && x.state == StorageOf(run[t.state], a).state
    && x.active == StorageOf(run[t.active], a).active
    && var terms := TermsOf(run[t.state], a);
       && x.escrow == a && x.agreement == terms.agreement && x.policy == terms.policy
       && x.direct == terms.direct && x.buyer == terms.buyer && x.seller == terms.seller
  }

  ghost predicate SettlementRead(run: seq<World>, a: Address, t: Times, s: Settlement)
    requires t.finalState < |run| && t.finalVerified < |run| && t.finalActive < |run| && t.finalCredit < |run|
  {
    && Live(run[t.finalState], a) && Live(run[t.finalVerified], a)
    && Live(run[t.finalActive], a) && Live(run[t.finalCredit], a)
    && s.state == StorageOf(run[t.finalState], a).state
    && s.verified == StorageOf(run[t.finalVerified], a).verified
    && s.active == StorageOf(run[t.finalActive], a).active
    && s.sellerCredit == SellerCredit(run[t.finalCredit], a)
  }

  /** The answers to the verifier's own reads are what the chain held at these times. */
  ghost predicate Reads(run: seq<World>, r: Request, a: Answers, t: Times) {
    && Ordered(t, |run|)
    && (Screening(r, a).None? && a.replay.Some? ==> ReplayRead(run, BuildClaim(r, a.proof.value), t, a.replay.value))
    && (a.context.Some? ==> ContextRead(run, r.escrow, t, a.context.value))
    && (a.settlement.Some? ==> SettlementRead(run, r.escrow, t, a.settlement.value))
    && (a.verifiedClaim.Some? ==>
          Live(run[t.finalVerified], r.escrow)
          && a.verifiedClaim.value == StorageOf(run[t.finalVerified], r.escrow).verified)
  }

  /** The answer to a submission, if one was made: `Pipeline.ServedIsObserved` proves it of the gateway. */
  ghost predicate SubmissionAnswer(run: seq<World>, r: Request, a: Answers, t: Times)
    requires t.submission < |run|
  {
    Submits(r, a).Some? && a.submission.Some? ==>
      var claim := Submits(r, a).value.0;
      a.submission.value.claimId == ClaimId(claim) && ClaimId(claim) in run[t.submission].consumed
  }

  ghost predicate Observed(run: seq<World>, r: Request, a: Answers, t: Times) {
    IsRun(run) && Reads(run, r, a, t) && SubmissionAnswer(run, r, a, t)
  }

  /** Along a run an escrow stays, keeps its terms, and its verdicts are final. */
  lemma EscrowPersists(run: seq<World>, i: nat, j: nat, a: Address)
    requires IsRun(run) && i <= j < |run| && Live(run[i], a)
    ensures Live(run[j], a) && TermsOf(run[j], a) == TermsOf(run[i], a)
    ensures Escrow.Advances(StorageOf(run[i], a), StorageOf(run[j], a))
    ensures run[j].registry == run[i].registry
  {
    RunMovesForward(run, i, j);
    assert EscrowLater(run[i], run[j], a);
  }

  /** The ledger facts the verifier's reads rely on. */
  lemma EscrowSound(run: seq<World>, i: nat, a: Address)
    requires IsRun(run) && i < |run| && Live(run[i], a)
    ensures var t := TermsOf(run[i], a);
            var s := StorageOf(run[i], a);
            && SellerCredit(run[i], a)
               == (if s.state == Escrow.Complete && s.payouts == [] then t.requiredAmount else 0)
            && t.requiredAmount > 0
            && (s.state == Escrow.AwaitingDelivery ==> s.active == ZERO_HASH && s.deposited == t.requiredAmount)
            && (s.state == Escrow.Disputed ==> s.credits == [])
  {
    RunKeepsInv(run, i);
  }

  lemma ConsumedPersists(run: seq<World>, i: nat, j: nat, c: Claim)
    requires IsRun(run) && i <= j < |run| && ClaimId(c) in run[i].consumed
    ensures ClaimId(c) in run[j].consumed
  {
    RunMovesForward(run, i, j);
  }

  /*** What a positive result means ***/

  /** The claim of an accepted request is on chain when the submission phase ends. */
  lemma ClaimLanded(run: seq<World>, r: Request, a: Answers, t: Times)
    requires Observed(run, r, a, t) && Decide(r, a).Ok?
    ensures var c := Decide(r, a).value.claim;
            && c == BuildClaim(r, a.proof.value) && Decide(r, a).value.claimId == ClaimId(c)
            && ClaimId(c) in run[t.submission].consumed
  {
    var c := BuildClaim(r, a.proof.value);
    if a.replay.value.1 == c.escrow {
      BoundClaimIsThis(run, r, a, t);
      ConsumedPersists(run, t.bound, t.submission, c);
    }
  }

  /** A source fact bound to the request's escrow was bound by this very claim. */
  lemma BoundClaimIsThis(run: seq<World>, r: Request, a: Answers, t: Times)
    requires Observed(run, r, a, t) && Screening(r, a).None?
    requires Admission(r, a, BuildClaim(r, a.proof.value)).None?
    requires a.replay.value.1 == r.escrow
    ensures ClaimId(BuildClaim(r, a.proof.value)) in run[t.bound].consumed
  {
    var c := BuildClaim(r, a.proof.value);
    RunKeepsInv(run, t.state);
    var d := BoundNamesClaim(run, t.bound, SourceKey(c));
    ConsumedIsBound(run, t.bound, d);
    if t.bound <= t.state {
      EscrowPersists(run, t.bound, t.state, r.escrow);
    } else {
      EscrowPersists(run, t.state, t.bound, r.escrow);
    }
    assert d == c;
  }

  /** From its acceptance on, the escrow carries the claim. */
  lemma EscrowCarriesClaim(run: seq<World>, c: Claim, i: nat, j: nat)
    requires IsRun(run) && i <= j < |run| && ClaimId(c) in run[i].consumed
    ensures Live(run[j], c.escrow)
    ensures StorageOf(run[j], c.escrow).verified == ClaimId(c)
    ensures Matches(TermsOf(run[j], c.escrow), c) && Concerns(TermsOf(run[j], c.escrow), c)
  {
    ConsumedPersists(run, i, j, c);
    ConsumedIsBound(run, j, c);
  }

  /** The proven transaction is the requested one, admissible, and pays this amount. */
  ghost predicate ProvenPayment(r: Request, a: Answers, amount: nat) {
    && a.proof.Ok? && a.proof.value.hash == r.transactionHash && a.proof.value.chainKey == r.chainKey
    && Admissible(a.proof.value, r.policy) && Pays(a.proof.value, r.policy, amount)
  }

  lemma PaymentIsProven(r: Request, a: Answers, v: Verified, other: Policy)
    requires Decide(r, a) == Ok(v)
    ensures ProvenPayment(r, a, v.amount)
    ensures InRange(r.policy) && v.claim.policy == PolicyCommitment(r.policy)
    ensures InRange(other) && PolicyCommitment(other) == v.claim.policy ==> other == r.policy
  {
    AcceptanceIsExact(a.proof.value, r.policy, v.amount);
    if InRange(other) { CommitmentBindsPolicy(r.policy, other); }
  }

  /** The reads behind a positive result. */
  lemma ConfirmingReads(r: Request, a: Answers, v: Verified)
    requires Decide(r, a) == Ok(v)
    ensures Confirms(ModeOf(r), v.claimId, a) && v.claim.escrow == r.escrow && v.claim.evidence == r.evidence
    ensures a.context.Some?
    ensures ModeOf(r) == DirectSettlement ==> a.context.value.direct
    ensures ModeOf(r) == PrerequisiteRecord ==> !a.context.value.direct
    ensures ModeOf(r) == DisputeEvidence ==>
              a.context.value.state == Escrow.Disputed && a.context.value.active == r.evidence
  {}

  /** At the credit read: complete with this claim, the whole amount owed to the seller, for a proven payment. */
  ghost predicate SettledDirectly(run: seq<World>, r: Request, a: Answers, t: Times, v: Verified)
    requires t.finalCredit < |run|
  {
    && Live(run[t.finalCredit], r.escrow)
    && var terms := TermsOf(run[t.finalCredit], r.escrow);
       var s := StorageOf(run[t.finalCredit], r.escrow);
       && terms.direct && s.state == Escrow.Complete && s.verified == v.claimId == ClaimId(v.claim)
       && SellerCredit(run[t.finalCredit], r.escrow) == terms.requiredAmount
       && ProvenPayment(r, a, v.amount) && terms.policy == v.claim.policy
  }

  /**
   * Soundness of direct settlement, whatever others do between the reads: when the seller's credit was
   * read, the escrow was complete with this claim, the seller was owed the whole required amount, and the
   * proven transaction pays the only policy the escrow's commitment can stand for.
   */
  lemma DirectSettlementIsSound(run: seq<World>, r: Request, a: Answers, t: Times, v: Verified, other: Policy)
    requires Observed(run, r, a, t) && Decide(r, a) == Ok(v) && ModeOf(r) == DirectSettlement
    ensures SettledDirectly(run, r, a, t, v)
    ensures InRange(other) && PolicyCommitment(other) == TermsOf(run[t.finalCredit], r.escrow).policy
            <==> other == r.policy
  {
    ClaimLanded(run, r, a, t);
    PaymentIsProven(r, a, v, other);
    ConfirmingReads(r, a, v);
    EscrowCarriesClaim(run, v.claim, t.submission, t.finalCredit);
    EscrowSound(run, t.finalCredit, r.escrow);
    EscrowPersists(run, t.state, t.finalCredit, r.escrow);
  }

  /** A recorded prerequisite: still awaiting delivery when the state was read, with nothing credited. */
  lemma PrerequisiteIsSound(run: seq<World>, r: Request, a: Answers, t: Times, v: Verified)
    requires Observed(run, r, a, t) && Decide(r, a) == Ok(v) && ModeOf(r) == PrerequisiteRecord
    ensures Live(run[t.finalState], r.escrow)
    ensures var terms := TermsOf(run[t.finalState], r.escrow);
            var s := StorageOf(run[t.finalState], r.escrow);
            && !terms.direct && s.state == Escrow.AwaitingDelivery && s.verified == v.claimId == ClaimId(v.claim)
            && s.active == ZERO_HASH && SellerCredit(run[t.finalState], r.escrow) == 0
            && s.deposited == terms.requiredAmount
            && ProvenPayment(r, a, v.amount) && InRange(r.policy) && terms.policy == PolicyCommitment(r.policy)
  {
    ClaimLanded(run, r, a, t);
    PaymentIsProven(r, a, v, r.policy);
    ConfirmingReads(r, a, v);
    EscrowCarriesClaim(run, v.claim, t.submission, t.finalState);
    EscrowSound(run, t.finalState, r.escrow);
    EscrowPersists(run, t.state, t.finalState, r.escrow);
  }

  /** Recorded dispute evidence: the escrow carries the claim, and had credited nobody while disputed. */
  lemma DisputeEvidenceIsSound(run: seq<World>, r: Request, a: Answers, t: Times, v: Verified)
    requires Observed(run, r, a, t) && Decide(r, a) == Ok(v) && ModeOf(r) == DisputeEvidence
    ensures Live(run[t.state], r.escrow) && Live(run[t.active], r.escrow) && Live(run[t.finalVerified], r.escrow)
    ensures StorageOf(run[t.state], r.escrow).state == Escrow.Disputed
    ensures StorageOf(run[t.state], r.escrow).credits == []
    ensures StorageOf(run[t.active], r.escrow).active == v.claim.evidence
    ensures StorageOf(run[t.finalVerified], r.escrow).verified == v.claimId == ClaimId(v.claim)
    ensures ProvenPayment(r, a, v.amount)
  {
    ClaimLanded(run, r, a, t);
    PaymentIsProven(r, a, v, r.policy);
    ConfirmingReads(r, a, v);
    EscrowCarriesClaim(run, v.claim, t.submission, t.finalVerified);
    EscrowSound(run, t.state, r.escrow);
  }

  /** What is broadcast: a claim built from a proven, policy-conforming transaction, read as unbound. */
  lemma BroadcastIsJustified(r: Request, a: Answers)
    requires Submits(r, a).Some?
    ensures a.proof.Ok? && Admissible(a.proof.value, r.policy)
    ensures a.proof.value.hash == r.transactionHash && a.proof.value.chainKey == r.chainKey
    ensures var (c, mode) := Submits(r, a).value;
            && mode == ModeOf(r) && c.escrow == r.escrow && c.evidence == r.evidence
            && c.transactionHash == r.transactionHash && c.subject == r.subject
            && a.replay == Some((false, ZERO_ADDRESS))
            && a.context.Some? && a.context.value.agreement == c.agreement && a.context.value.policy == c.policy
            && (mode == DirectSettlement <==> a.context.value.direct && mode != DisputeEvidence)
  {
    AcceptanceIsExact(a.proof.value, r.policy, Evaluate(a.proof.value, r.policy).value.amount);
  }

  /*** One payment, one escrow ***/

  /**
   * Two successful decisions anywhere on one run, for the same transaction, subject and evidence type, in whatever
   * modes and at whatever times, are for one escrow and one claim.
   */
  lemma OnePaymentOneEscrow(run: seq<World>, r: Request, a: Answers, t: Times, r': Request, a': Answers, t': Times)
    requires Observed(run, r, a, t) && Decide(r, a).Ok? && Observed(run, r', a', t') && Decide(r', a').Ok?
    requires r.chainKey == r'.chainKey && r.transactionHash == r'.transactionHash
    requires r.subject == r'.subject && r.evidenceType == r'.evidenceType
    ensures r.escrow == r'.escrow && Decide(r, a).value.claim == Decide(r', a').value.claim
  {
    var c, d := Decide(r, a).value.claim, Decide(r', a').value.claim;
    ClaimLanded(run, r, a, t);
    ClaimLanded(run, r', a', t');
    ClaimNamesPayment(r, a);
    ClaimNamesPayment(r', a');
    var last := |run| - 1;
    ConsumedPersists(run, t.submission, last, c);
    ConsumedPersists(run, t'.submission, last, d);
    OnePaymentOneClaim(run, last, c, d);
  }

  lemma ClaimNamesPayment(r: Request, a: Answers)
    requires Screening(r, a).None?
    ensures var c := BuildClaim(r, a.proof.value);
            && c.escrow == r.escrow && c.chainKey == r.chainKey && c.transactionHash == r.transactionHash
            && c.subject == r.subject && c.evidenceType == Raw(r.evidenceType)
  {}

  /*** Retrying after a lost response ***/

  /** What a retry reads of a claim that settled directly before it started. */
  lemma RetryReads(run: seq<World>, c: Claim, t: Times, x: Context, s: Settlement, landed: nat)
    requires IsRun(run) && Ordered(t, |run|) && landed <= t.bound && landed <= t.state
    requires ClaimId(c) in run[landed].consumed && Live(run[landed], c.escrow)
    requires StorageOf(run[landed], c.escrow).state == Escrow.Complete
    requires ContextRead(run, c.escrow, t, x) && SettlementRead(run, c.escrow, t, s)
    ensures BoundEscrow(run[t.bound], SourceKey(c)) == c.escrow
    ensures x.escrow == c.escrow && x.agreement == c.agreement && x.policy == c.policy
    ensures x.direct == TermsOf(run[landed], c.escrow).direct
    ensures c.subject == x.buyer || c.subject == x.seller
    ensures s.state == Escrow.Complete && s.verified == ClaimId(c)
    ensures s.sellerCredit > 0 <==> StorageOf(run[t.finalCredit], c.escrow).payouts == []
  {
    EscrowCarriesClaim(run, c, landed, t.finalVerified);
    EscrowCarriesClaim(run, c, landed, t.state);
    ConsumedPersists(run, landed, t.bound, c);
    ConsumedIsBound(run, t.bound, c);
    EscrowPersists(run, landed, t.state, c.escrow);
    EscrowPersists(run, landed, t.finalState, c.escrow);
    EscrowPersists(run, landed, t.finalCredit, c.escrow);
    EscrowSound(run, t.finalCredit, c.escrow);
  }

  /** What an attempt that submits nothing itself returns. */
  function Unchanged(r: Request, a: Answers): Verified
    requires a.proof.Ok? && Evaluate(a.proof.value, r.policy).Ok?
  {
    var c := BuildClaim(r, a.proof.value);
    Verified(c, ClaimId(c), r.transactionHash, Evaluate(a.proof.value, r.policy).value.amount,
             BuildFacts(r, a.proof.value))
  }

  /** Any two attempts of one request that pass the screening build the same claim. */
  lemma ClaimIsTheRequests(r: Request, first: Answers, a: Answers)
    requires Screening(r, first).None? && Screening(r, a).None?
    ensures BuildClaim(r, first.proof.value) == BuildClaim(r, a.proof.value)
  {}

  /** The same claim and id, and for the same proof the same amount and facts. */
  predicate SameResult(v: Verified, w: Verified, sameProof: bool) {
    v.claim == w.claim && v.claimId == w.claimId && (sameProof ==> v.amount == w.amount && v.facts == w.facts)
  }

  /** What the verifier decides on such reads. */
  lemma RetryDecision(r: Request, a: Answers)
    requires Screening(r, a).None? && a.replay.Some? && a.context.Some? && a.settlement.Some?
    requires ModeOf(r) == DirectSettlement && a.replay.value.1 == r.escrow
    requires var x := a.context.value;
             && x.escrow == r.escrow && x.agreement == r.agreement && x.policy == r.policyCommitment && x.direct
             && (r.subject == x.buyer || r.subject == x.seller)
    ensures Submits(r, a) == None
    ensures var c := BuildClaim(r, a.proof.value);
            var s := a.settlement.value;
            Decide(r, a) ==
              if s.state == Escrow.Complete && s.verified == ClaimId(c) && s.sellerCredit > 0
              then Ok(Unchanged(r, a))
              else Failed(EscrowSettlementFailed)
  {}

  /**
   * A first attempt whose direct claim landed, whether its response arrived or not: any later attempt with the same
   * request and responsive oracles broadcasts nothing. While the seller has not withdrawn it returns the claim and id
   * of the first attempt, and with the same proof its amount and facts; afterwards it reports a failed settlement.
   */
  lemma RetryConverges(run: seq<World>, r: Request, first: Answers, u: Times, a: Answers, t: Times, landed: nat)
    requires Observed(run, r, a, t) && ModeOf(r) == DirectSettlement && Screening(r, first).None?
    requires landed <= t.bound && landed <= t.state
    requires Screening(r, a).None? && a.replay.Some? && a.context.Some? && a.settlement.Some?
    requires ClaimId(BuildClaim(r, first.proof.value)) in run[landed].consumed
    requires Live(run[landed], r.escrow) && TermsOf(run[landed], r.escrow).direct
    requires StorageOf(run[landed], r.escrow).state == Escrow.Complete
    ensures Submits(r, a) == None && Live(run[t.finalCredit], r.escrow)
    ensures if StorageOf(run[t.finalCredit], r.escrow).payouts == []
            then Decide(r, a).Ok? && SameResult(Decide(r, a).value, Unchanged(r, first), a.proof == first.proof)
            else Decide(r, a) == Failed(EscrowSettlementFailed)
    ensures Decide(r, a).Ok? && Decide(r, first).Ok? && Observed(run, r, first, u) ==>
              SameResult(Decide(r, a).value, Decide(r, first).value, a.proof == first.proof)
  {
    ClaimIsTheRequests(r, first, a);
    RetryReads(run, BuildClaim(r, a.proof.value), t, a.context.value, a.settlement.value, landed);
    RetryDecision(r, a);
  }

  /*** Replay detection under non-atomic reads ***/

  lemma ReplayDecision(r: Request, a: Answers)
    requires Screening(r, a).None? && a.replay.Some?
    ensures Decide(r, a) == Failed(ReplayDetected) <==> Replayed(BuildClaim(r, a.proof.value), a.replay.value)
  {}

  /**
   * `REPLAY_DETECTED` is returned exactly when the source fact was read as bound to another escrow, or
   * this very claim was accepted after the binding was read and before its consumption was.
   */
  lemma ReplayIsExact(run: seq<World>, r: Request, a: Answers, t: Times)
    requires Observed(run, r, a, t) && Screening(r, a).None? && a.replay.Some?
    ensures var c := BuildClaim(r, a.proof.value);
            Decide(r, a) == Failed(ReplayDetected)
            <==> BoundElsewhere(run[t.bound], c)
                 || (t.bound < t.consumed && LandedBetween(run[t.bound], run[t.consumed], c))
  {
    ReplayDecision(r, a);
    ReplayReads(run, BuildClaim(r, a.proof.value), t.bound, t.consumed);
  }

  predicate BoundElsewhere(w: World, c: Claim) {
    BoundEscrow(w, SourceKey(c)) != ZERO_ADDRESS && BoundEscrow(w, SourceKey(c)) != c.escrow
  }

  predicate LandedBetween(before: World, after: World, c: Claim) {
    && BoundEscrow(before, SourceKey(c)) == ZERO_ADDRESS
    && ClaimId(c) !in before.consumed && ClaimId(c) in after.consumed
  }

  lemma ReplayReads(run: seq<World>, c: Claim, bound: nat, consumed: nat)
    requires IsRun(run) && bound < |run| && consumed < |run|
    ensures Replayed(c, (ClaimId(c) in run[consumed].consumed, BoundEscrow(run[bound], SourceKey(c))))
            <==> BoundElsewhere(run[bound], c)
                 || (bound < consumed && LandedBetween(run[bound], run[consumed], c))
  {
    ConsumedIsBound(run, consumed, c);
    ConsumedIsBound(run, bound, c);
    if consumed <= bound && ClaimId(c) in run[consumed].consumed {
      ConsumedPersists(run, consumed, bound, c);
    }
  }

  /** The exception is real: every acceptance is a moment at which the two reads report a replay of the claim itself. */
  lemma SplitReadsReportReplay(run: seq<World>, i: nat, sender: Address, c: Claim, mode: Mode)
    requires IsRun(run) && i + 1 < |run| && run[i + 1] == Apply(run[i], SubmitClaim(sender, c, mode))
    requires Submit(run[i], sender, c, mode).Some?
    ensures Replayed(c, (ClaimId(c) in run[i + 1].consumed, BoundEscrow(run[i], SourceKey(c))))
    ensures BoundEscrow(run[i + 1], SourceKey(c)) == c.escrow
  {
    SubmitEffect(run[i], sender, c, mode);
    RunKeepsInv(run, i);
  }
}
