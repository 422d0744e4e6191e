/** What the registry accepts, `contracts/src/EvidenceClaimRegistry.sol`, stated without its steps. */
module Submissions {
  import opened Digests
  import opened Escrow
  import opened Registry

  /** What an escrow must be to take a claim in this mode. */
  ghost predicate Ready(t: Terms, s: Storage, c: Claim, mode: Mode) {
    && s.verified == ZERO_HASH
    && match mode
       case DisputeEvidence => s.state == Disputed && s.active == c.evidence
       case PrerequisiteRecord => s.state == AwaitingDelivery && !t.direct
       case DirectSettlement => s.state == AwaitingDelivery && t.direct
  }

  /** The same source fact: one transaction of one chain, taken as one type of evidence of one subject. */
  predicate SameFact(c: Claim, d: Claim) {
    && c.evidenceType == d.evidenceType && c.chainKey == d.chainKey
    && c.transactionHash == d.transactionHash && c.subject == d.subject
  }

  /** Ids name claims and source keys name facts; each hashed tuple holds its fields in their own places. */
  lemma KeysAreExact(c: Claim, d: Claim)
    ensures ClaimId(c) == ClaimId(d) <==> c == d
    ensures SourceKey(c) == SourceKey(d) <==> SameFact(c, d)
    ensures var p := ClaimId(c).preimage;
            && p.ClaimTuple? && p.escrow == c.escrow && p.agreement == c.agreement && p.policy == c.policy
            && p.evidence == c.evidence && p.evidenceType == c.evidenceType && p.chainKey == c.chainKey
            && p.transactionHash == c.transactionHash && p.subject == c.subject
    ensures var p := SourceKey(c).preimage;
            && p.SourceTuple? && p.evidenceType == c.evidenceType && p.chainKey == c.chainKey
            && p.transactionHash == c.transactionHash && p.subject == c.subject
  {}

  /** The evidence a claim must carry: the hash of its own policy and source fact. */
  ghost predicate OwnEvidence(c: Claim) {
    c.evidence == Keccak(EvidenceTuple(c.policy, c.evidenceType, c.chainKey, c.transactionHash, c.subject))
  }

  /**
   * From every reachable chain, a submission is accepted exactly when the verifier sends it, its fields are set, its
   * escrow exists in that very context, trusts this registry, knows the subject and is ready for the mode, and no
   * claim of the same source fact was accepted before, for whatever escrow.
   */
  lemma AcceptanceIsExact(run: seq<World>, i: nat, sender: Address, c: Claim, mode: Mode)
    requires IsRun(run) && i < |run|
    ensures var w := run[i];
            Submit(w, sender, c, mode).Some? <==>
              && sender == w.verifier
              && c.chainKey != 0 && c.transactionHash != ZERO_HASH && c.evidenceType != ZERO_HASH
              && c.escrow in w.escrows && OwnEvidence(c)
              && var Deployed(t, s) := w.escrows[c.escrow];
                 && t.agreement == c.agreement && t.policy == c.policy && t.registry == w.registry
                 && c.subject in {t.buyer, t.seller} && Ready(t, s, c, mode)
                 && !exists d {:trigger ClaimId(d)} :: ClaimId(d) in w.consumed && SameFact(c, d)
  {
    RunKeepsInv(run, i);
    FactIsFree(run, i, c);
    if c.escrow in run[i].escrows {
      EscrowTakesClaim(run[i], c, mode);
    }
  }

  /** A source key is unbound exactly when no consumed claim states its fact; a consumed claim's own is bound. */
  lemma FactIsFree(run: seq<World>, i: nat, c: Claim)
    requires IsRun(run) && i < |run|
    ensures BoundEscrow(run[i], SourceKey(c)) == ZERO_ADDRESS
        <==> !exists d {:trigger ClaimId(d)} :: ClaimId(d) in run[i].consumed && SameFact(c, d)
    ensures ClaimId(c) in run[i].consumed ==> BoundEscrow(run[i], SourceKey(c)) != ZERO_ADDRESS
  {
    ConsumedIsBound(run, i, c);
    if BoundEscrow(run[i], SourceKey(c)) != ZERO_ADDRESS {
      var d := BoundNamesClaim(run, i, SourceKey(c));
      assert SameFact(c, d) && ClaimId(d) in run[i].consumed;
    }
    forall d | ClaimId(d) in run[i].consumed && SameFact(c, d)
      ensures BoundEscrow(run[i], SourceKey(c)) != ZERO_ADDRESS {
      ConsumedIsBound(run, i, d);
      KeysAreExact(c, d);
    }
  }

  /** The escrow's own part: with the registry's guards met, it records or settles exactly when ready. */
  lemma EscrowTakesClaim(w: World, c: Claim, mode: Mode)
    requires EscrowsInv(w) && c.escrow in w.escrows
    ensures var Deployed(t, s) := w.escrows[c.escrow];
            c.evidence != ZERO_HASH && (mode != DisputeEvidence ==> s.active == ZERO_HASH) ==>
              (Exec(t, s, RecordCall(w.registry, c, mode)).Some? <==>
                 w.registry == t.registry && Ready(t, s, c, mode))
    ensures var Deployed(t, s) := w.escrows[c.escrow];
            mode != DisputeEvidence && Ready(t, s, c, mode) ==> s.active == ZERO_HASH
  {}
}
