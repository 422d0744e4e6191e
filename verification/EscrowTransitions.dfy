/** What each call of `contracts/src/VeyronisEscrow.sol` takes the escrow from and to. */
module EscrowTransitions {
  import opened Digests
  import opened Escrow

  /** The sender, state and argument each call demands. */
  ghost predicate Admitted(t: Terms, s: Storage, call: Call) {
    match call
    case Deposit(sender, value) => sender == t.buyer && s.state == AwaitingPayment && value == t.requiredAmount
    case Cancel(sender) => sender == t.buyer && s.state == AwaitingPayment
    case ConfirmDelivery(sender) => sender == t.buyer && s.state == AwaitingDelivery && !t.direct
    case RequestRefund(sender, evidence) => sender == t.buyer && s.state == AwaitingDelivery && evidence != ZERO_HASH
    case ApproveRefund(sender) => sender == t.seller && s.state == RefundRequested
    case OpenDispute(sender, evidence) =>
      sender in {t.buyer, t.seller} && s.state in {AwaitingDelivery, RefundRequested} && evidence != ZERO_HASH
    case ResolveDispute(sender, _) => sender == t.arbitrator && s.state == Disputed
    case RecordVerifiedEvidence(sender, claimId, evidence) =>
      && sender == t.registry && s.state == Disputed && s.verified == ZERO_HASH
      && claimId != ZERO_HASH && evidence == s.active != ZERO_HASH
    case RecordVerifiedCondition(sender, claimId, evidence) =>
      && sender == t.registry && s.state == AwaitingDelivery && !t.direct
      && s.verified == ZERO_HASH && claimId != ZERO_HASH && evidence != ZERO_HASH
    case SettleVerifiedCondition(sender, claimId, evidence) =>
      && sender == t.registry && s.state == AwaitingDelivery && t.direct
      && claimId != ZERO_HASH && evidence != ZERO_HASH
    case Withdraw(sender, _, accepts) => !s.locked && accepts && Credit(s.withdrawals, sender) > 0
  }

  /** The state after an accepted call. */
  function StateAfter(s: Storage, call: Call): State {
    match call
    case Deposit(_, _) => AwaitingDelivery
    case Cancel(_) => Cancelled
    case ConfirmDelivery(_) => Complete
    case RequestRefund(_, _) => RefundRequested
    case ApproveRefund(_) => Refunded
    case OpenDispute(_, _) => Disputed
    case ResolveDispute(_, resolution) => if resolution.RefundBuyer? then Refunded else Complete
    case SettleVerifiedCondition(_, _, _) => Complete
    case _ => s.state
  }

  /** The evidence a call makes the active one, if it does. */
  function EvidenceOf(call: Call): Option<Digest> {
    match call
    case RequestRefund(_, evidence) => Some(evidence)
    case OpenDispute(_, evidence) => Some(evidence)
    case SettleVerifiedCondition(_, _, evidence) => Some(evidence)
    case _ => None
  }

  /** The claim a call records, if it does. */
  function ClaimOf(call: Call): Option<Digest> {
    match call
    case RecordVerifiedEvidence(_, claimId, _) => Some(claimId)
    case RecordVerifiedCondition(_, claimId, _) => Some(claimId)
    case SettleVerifiedCondition(_, claimId, _) => Some(claimId)
    case _ => None
  }

  function Or(given: Option<Digest>, kept: Digest): Digest {
    if given.Some? then given.value else kept
  }

  /**
   * The contract's transition table, for every storage the accounting allows: a call is accepted exactly on its row,
   * and then state, active evidence, verified claim, deposit, credits and payouts are those of the row.
   */
  lemma TransitionTable(t: Terms, s: Storage, call: Call)
    requires ValidTerms(t) && Inv(t, s)
    ensures Exec(t, s, call).Some? <==> Admitted(t, s, call)
    ensures var after := After(t, s, call);
            if !Admitted(t, s, call) then after == s
            else
              && after.state == StateAfter(s, call) && after.active == Or(EvidenceOf(call), s.active)
              && after.verified == Or(ClaimOf(call), s.verified)
              && after.deposited == (if Funded(after.state) then t.requiredAmount else 0)
              && after.credits == (match Winner(t, after.state)
                                   case None => []
                                   case Some(winner) => [Transfer(winner, t.requiredAmount)])
              && after.payouts == (if call.Withdraw? then [Transfer(call.sender, t.requiredAmount)] else s.payouts)
  {
    ExecKeepsInv(t, s, call);
    if call.Withdraw? {
      if Credit(s.withdrawals, call.sender) > 0 {
        HandoverKeepsInv(t, s, call.sender);
        PaidOutIsFrozen(t, Handover(s, call.sender), call.callback);
      }
    }
  }

  /** A cancelled escrow is closed: whatever is called afterwards, nothing is funded, credited or changed. */
  lemma CancelIsFinal(t: Terms, s: Storage, sender: Address, calls: seq<Call>)
    requires ValidTerms(t) && Inv(t, s) && Exec(t, s, Cancel(sender)).Some?
    ensures var after := Exec(t, s, Cancel(sender)).value;
            && after.state == Cancelled && AccountedFunds(t, after) == 0
            && ExecAll(t, after, calls) == after
  {
    TransitionTable(t, s, Cancel(sender));
    ExecKeepsInv(t, s, Cancel(sender));
    CancelledIsFrozen(t, Exec(t, s, Cancel(sender)).value, calls);
  }

  lemma {:induction false} CancelledIsFrozen(t: Terms, s: Storage, calls: seq<Call>)
    requires ValidTerms(t) && Inv(t, s) && s.state == Cancelled
    ensures ExecAll(t, s, calls) == s
    decreases calls
  {
    if calls != [] {
      assert Exec(t, s, calls[0]).None?;
      CancelledIsFrozen(t, s, calls[1..]);
    }
  }

  /*** Where the evidence and the claim of an escrow come from ***/

  /** The accepted calls of a run in order, those a withdrawal's recipient makes among them. */
  function Accepted(t: Terms, s: Storage, calls: seq<Call>): seq<Call>
    decreases calls
  {
    if calls == [] then []
    else
      (if Exec(t, s, calls[0]).None? then []
       else if calls[0].Withdraw? then [calls[0]] + Accepted(t, Handover(s, calls[0].sender), calls[0].callback)
       else [calls[0]])
      + Accepted(t, After(t, s, calls[0]), calls[1..])
  }

  /** The last of these calls that set it. */
  function LastSet(calls: seq<Call>, of: Call -> Option<Digest>): Option<Digest> {
    if calls == [] then None
    else
      var later := LastSet(calls[1..], of);
      if later.Some? then later else of(calls[0])
  }

  lemma {:induction false} LastOfTwo(a: seq<Call>, b: seq<Call>, of: Call -> Option<Digest>)
    ensures LastSet(a + b, of) == if LastSet(b, of).Some? then LastSet(b, of) else LastSet(a, of)
  {
    if a == [] {
      assert a + b == b;
    } else {
      LastOfTwo(a[1..], b, of);
      assert (a + b)[1..] == a[1..] + b;
    }
  }

  lemma {:induction false} SetByLast(t: Terms, s: Storage, calls: seq<Call>)
    ensures var after := ExecAll(t, s, calls);
            && after.active == Or(LastSet(Accepted(t, s, calls), EvidenceOf), s.active)
            && after.verified == Or(LastSet(Accepted(t, s, calls), ClaimOf), s.verified)
    decreases calls
  {
    if calls != [] {
      var call := calls[0];
      var next := After(t, s, call);
      var rest := Accepted(t, next, calls[1..]);
      SetByLast(t, next, calls[1..]);
      if Exec(t, s, call).Some? {
        if call.Withdraw? {
          var inner := Accepted(t, Handover(s, call.sender), call.callback);
          SetByLast(t, Handover(s, call.sender), call.callback);
          LastOfTwo([call], inner, EvidenceOf);
          LastOfTwo([call], inner, ClaimOf);
          LastOfTwo([call] + inner, rest, EvidenceOf);
          LastOfTwo([call] + inner, rest, ClaimOf);
        } else {
          LastOfTwo([call], rest, EvidenceOf);
          LastOfTwo([call], rest, ClaimOf);
        }
      } else {
        assert [] + rest == rest;
      }
    }
  }

  /**
   * Over every run: the active evidence is that of the last accepted refund request, dispute or direct settlement, and
   * the verified claim that of the last accepted record or settlement.
   */
  lemma EvidenceIsTheLast(t: Terms, calls: seq<Call>)
    ensures var after, accepted := ExecAll(t, INITIAL, calls), Accepted(t, INITIAL, calls);
            && after.active == Or(LastSet(accepted, EvidenceOf), ZERO_HASH)
            && after.verified == Or(LastSet(accepted, ClaimOf), ZERO_HASH)
  {
    SetByLast(t, INITIAL, calls);
  }
}
