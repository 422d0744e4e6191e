/** One payment settles one escrow: the source keys of `contracts/src/EvidenceClaimRegistry.sol`. */
module OnePayment {
  import opened Digests
  import opened Escrow
  import opened Registry

  /** The same source fact but for its evidence type: chain, transaction and subject. */
  predicate SamePayment(c: Claim, d: Claim) {
    c.chainKey == d.chainKey && c.transactionHash == d.transactionHash && c.subject == d.subject
  }

  /**
   * Two claims on different escrows, each acceptable by itself: after the first the second is still acceptable exactly
   * when it does not state the same source fact. For one payment that is a matter of the evidence type alone.
   */
  lemma SecondEscrowExactly(w: World, sender: Address, c: Claim, mode: Mode, d: Claim, other: Mode)
    requires Submit(w, sender, c, mode).Some? && Submit(w, sender, d, other).Some? && c.escrow != d.escrow
    ensures Submit(Submit(w, sender, c, mode).value, sender, d, other).Some? <==> SourceKey(c) != SourceKey(d)
    ensures SamePayment(c, d) ==> (SourceKey(c) != SourceKey(d) <==> c.evidenceType != d.evidenceType)
  {
    SubmitEffect(w, sender, c, mode);
  }

  /** In every run: consumed claims of one payment and one evidence type are one claim, on one escrow. */
  lemma OnePaymentOneClaim(run: seq<World>, i: nat, c: Claim, d: Claim)
    requires IsRun(run) && i < |run| && ClaimId(c) in run[i].consumed && ClaimId(d) in run[i].consumed
    requires SamePayment(c, d) && c.evidenceType == d.evidenceType
    ensures c == d
  {
    ConsumedIsBound(run, i, c);
    ConsumedIsBound(run, i, d);
    RunKeepsInv(run, i);
  }

  /** The buyer's payment on the source chain, as a claim of some evidence type on an escrow of these terms. */
  function PaymentClaim(escrow: Address, t: Terms, evidenceType: Digest): Claim {
    var evidence := EvidenceCommitment(t.policy, evidenceType, 1, Raw(1), t.buyer);
    Claim(escrow, t.agreement, t.policy, evidence, evidenceType, 1, Raw(1), t.buyer)
  }

  const FUNDED := (t: Terms) =>
    INITIAL.(deposited := t.requiredAmount, state := AwaitingDelivery, received := t.requiredAmount)

  lemma FundingSteps(w: World, escrow: Address, t: Terms)
    requires ValidTerms(t) && t.buyer != w.registry && escrow != ZERO_ADDRESS && escrow !in w.escrows
    ensures var deployed := Apply(w, Deploy(escrow, t));
            && deployed == w.(escrows := w.escrows[escrow := Deployed(t, INITIAL)])
            && Apply(deployed, Participate(escrow, Deposit(t.buyer, t.requiredAmount)))
               == w.(escrows := w.escrows[escrow := Deployed(t, FUNDED(t))])
  {
    var deployed := Apply(w, Deploy(escrow, t));
    assert After(t, INITIAL, Deposit(t.buyer, t.requiredAmount)) == FUNDED(t);
    var last := Apply(deployed, Participate(escrow, Deposit(t.buyer, t.requiredAmount)));
    assert last.escrows == w.escrows[escrow := Deployed(t, FUNDED(t))];
  }

  /** A direct escrow with its deposit accepts a claim of the buyer's payment, of any evidence type. */
  lemma FundedEscrowAccepts(w: World, escrow: Address, evidenceType: Digest)
    requires escrow in w.escrows && escrow != ZERO_ADDRESS && evidenceType != ZERO_HASH
    requires var Deployed(t, s) := w.escrows[escrow];
             ValidTerms(t) && t.direct && t.registry == w.registry && s == FUNDED(t)
             && ClaimId(PaymentClaim(escrow, t, evidenceType)) !in w.consumed
             && BoundEscrow(w, SourceKey(PaymentClaim(escrow, t, evidenceType))) == ZERO_ADDRESS
    ensures var t := w.escrows[escrow].terms;
            Submit(w, w.verifier, PaymentClaim(escrow, t, evidenceType), DirectSettlement).Some?
  {}

  lemma RunExtends(run: seq<World>, next: World)
    requires IsRun(run) && Follows(run[|run| - 1], next)
    ensures IsRun(run + [next])
  {
    var all := run + [next];
    forall i, j {:trigger Follows(all[i], all[j])} | 0 <= i && j == i + 1 && j < |all| ensures Follows(all[i], all[j]) {
      if j < |run| { assert Follows(run[i], run[j]); }
    }
  }

  ghost predicate HoldsDeposit(w: World, escrow: Address, t: Terms) {
    escrow in w.escrows && w.escrows[escrow] == Deployed(t, FUNDED(t))
  }

  lemma FundingFollows(run: seq<World>, escrow: Address, t: Terms) returns (longer: seq<World>)
    requires IsRun(run) && ValidTerms(t) && escrow != ZERO_ADDRESS && escrow !in run[|run| - 1].escrows
    requires t.buyer != run[|run| - 1].registry
    ensures IsRun(longer)
    ensures var w := run[|run| - 1];
            longer[|longer| - 1] == w.(escrows := w.escrows[escrow := Deployed(t, FUNDED(t))])
  {
    var w := run[|run| - 1];
    var deployed := Apply(w, Deploy(escrow, t));
    var deposited := Apply(deployed, Participate(escrow, Deposit(t.buyer, t.requiredAmount)));
    FundingSteps(w, escrow, t);
    assert Follows(w, deployed) && Follows(deployed, deposited);
    RunExtends(run, deployed);
    RunExtends(run + [deployed], deposited);
    longer := run + [deployed] + [deposited];
  }

  lemma BothFunded(registry: Address, verifier: Address, a: Address, t: Terms, b: Address, u: Terms)
    returns (run: seq<World>)
    requires a != b && a != ZERO_ADDRESS && b != ZERO_ADDRESS && ValidTerms(t) && ValidTerms(u)
    requires t.buyer != registry && u.buyer != registry
    ensures IsRun(run)
    ensures var w := run[|run| - 1];
            && w.registry == registry && w.verifier == verifier && w.consumed == {} && w.sources == map[]
            && HoldsDeposit(w, a, t) && HoldsDeposit(w, b, u)
  {
    var start := [Genesis(registry, verifier)];
    assert IsRun(start);
    run := FundingFollows(start, a, t);
    run := FundingFollows(run, b, u);
  }

  lemma BothSettle(w: World, a: Address, t: Terms, b: Address, u: Terms) returns (w1: World, w2: World)
    requires a != b && a != ZERO_ADDRESS && b != ZERO_ADDRESS && ValidTerms(t) && ValidTerms(u)
    requires t.direct && u.direct && t.registry == u.registry == w.registry && t.buyer == u.buyer
    requires w.consumed == {} && w.sources == map[] && HoldsDeposit(w, a, t) && HoldsDeposit(w, b, u)
    ensures Follows(w, w1) && Follows(w1, w2)
    ensures var c, d := PaymentClaim(a, t, Raw(1)), PaymentClaim(b, u, Raw(2));
            && SamePayment(c, d) && ClaimId(c) in w2.consumed && ClaimId(d) in w2.consumed
            && a in w2.escrows && w2.escrows[a].storage.state == Complete
            && b in w2.escrows && w2.escrows[b].storage.state == Complete
  {
    var c, d := PaymentClaim(a, t, Raw(1)), PaymentClaim(b, u, Raw(2));
    FundedEscrowAccepts(w, a, Raw(1));
    FundedEscrowAccepts(w, b, Raw(2));
    SecondEscrowExactly(w, w.verifier, c, DirectSettlement, d, DirectSettlement);
    SubmitEffect(w, w.verifier, c, DirectSettlement);
    w1 := Apply(w, SubmitClaim(w.verifier, c, DirectSettlement));
    SubmitEffect(w1, w.verifier, d, DirectSettlement);
    w2 := Apply(w1, SubmitClaim(w.verifier, d, DirectSettlement));
  }

  /**
   * The condition bites: for any two direct escrows of one buyer, one payment stated under two evidence types settles
   * both in one run.
   */
  lemma TwoTypesSettleTwoEscrows(registry: Address, verifier: Address, a: Address, t: Terms, b: Address, u: Terms)
    returns (run: seq<World>)
    requires a != b && a != ZERO_ADDRESS && b != ZERO_ADDRESS && ValidTerms(t) && ValidTerms(u)
    requires t.direct && u.direct && t.registry == u.registry == registry && t.buyer == u.buyer != registry
    ensures IsRun(run)
    ensures var w, c, d := run[|run| - 1], PaymentClaim(a, t, Raw(1)), PaymentClaim(b, u, Raw(2));
            && SamePayment(c, d) && ClaimId(c) in w.consumed && ClaimId(d) in w.consumed
            && a in w.escrows && w.escrows[a].storage.state == Complete
            && b in w.escrows && w.escrows[b].storage.state == Complete
  {
    run := BothFunded(registry, verifier, a, t, b, u);
    var w4 := run[|run| - 1];
    var w5, w6 := BothSettle(w4, a, t, b, u);
    RunExtends(run, w5);
    RunExtends(run + [w5], w6);
    run := run + [w5] + [w6];
  }
}
