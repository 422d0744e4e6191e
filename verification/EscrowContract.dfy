/** The contract as an object: storage fields written in place, proved against `Escrow.Exec`. */
module EscrowContract {
  import opened Digests
  import opened Escrow

  class VeyronisEscrow {
    const terms: Terms
    var state: State
    var depositedAmount: nat
    var activeEvidenceCommitment: Digest
    var verifiedClaimId: Digest
    var withdrawals: map<Address, nat>
    var locked: bool
    var received: nat
    var credits: seq<Transfer>
    var payouts: seq<Transfer>

    constructor (terms: Terms)
      requires ValidTerms(terms)
      ensures this.terms == terms && View() == INITIAL
    {
      this.terms := terms;
      state := AwaitingPayment;
      depositedAmount := 0;
      activeEvidenceCommitment := ZERO_HASH;
      verifiedClaimId := ZERO_HASH;
      withdrawals := map[];
      locked := false;
      received := 0;
      credits := [];
      payouts := [];
    }

    function View(): Storage
      reads this
    {
      Storage(state, depositedAmount, activeEvidenceCommitment, verifiedClaimId,
              withdrawals, locked, received, credits, payouts)
    }

    /** A reverting transaction leaves the storage it started from. */
    method Restore(s: Storage)
      modifies this
      ensures View() == s
    {
      state := s.state;
      depositedAmount := s.deposited;
      activeEvidenceCommitment := s.active;
      verifiedClaimId := s.verified;
      withdrawals := s.withdrawals;
      locked := s.locked;
      received := s.received;
      credits := s.credits;
      payouts := s.payouts;
    }

    twostate predicate Follows(call: Call, ok: bool)
      reads this
    {
      && ok == Exec(terms, old(View()), call).Some?
      && View() == After(terms, old(View()), call)
    }

    method Deposit(sender: Address, value: nat) returns (ok: bool)
      modifies this
      ensures Follows(Call.Deposit(sender, value), ok)
    {
      if sender != terms.buyer || state != AwaitingPayment { return false; }
      if value != terms.requiredAmount { return false; }
      received := received + value;
      depositedAmount := value;
      state := AwaitingDelivery;
      return true;
    }

    method Cancel(sender: Address) returns (ok: bool)
      modifies this
      ensures Follows(Call.Cancel(sender), ok)
    {
      if sender != terms.buyer || state != AwaitingPayment { return false; }
      state := Cancelled;
      return true;
    }

    method CreditRecipient(recipient: Address) returns (ok: bool)
      modifies this
      ensures ok == CreditTo(old(View()), recipient).Some?
      ensures ok ==> View() == CreditTo(old(View()), recipient).value
    {
      var amount := depositedAmount;
      depositedAmount := 0;
      var total := Credit(withdrawals, recipient) + amount;
      if total >= UINT256_LIMIT { return false; }
      withdrawals := withdrawals[recipient := total];
      credits := credits + [Transfer(recipient, amount)];
      return true;
    }

    method ConfirmDelivery(sender: Address) returns (ok: bool)
      modifies this
      ensures Follows(Call.ConfirmDelivery(sender), ok)
    {
      if sender != terms.buyer || state != AwaitingDelivery { return false; }
      if terms.direct { return false; }
      var before := View();
      state := Complete;
      ok := CreditRecipient(terms.seller);
      if !ok { Restore(before); }
    }

    method RequestRefund(sender: Address, evidence: Digest) returns (ok: bool)
      modifies this
      ensures Follows(Call.RequestRefund(sender, evidence), ok)
    {
      if sender != terms.buyer || state != AwaitingDelivery { return false; }
      if evidence == ZERO_HASH { return false; }
      state := RefundRequested;
      activeEvidenceCommitment := evidence;
      return true;
    }

    method ApproveRefund(sender: Address) returns (ok: bool)
      modifies this
      ensures Follows(Call.ApproveRefund(sender), ok)
    {
      if sender != terms.seller || state != RefundRequested { return false; }
      var before := View();
      state := Refunded;
      ok := CreditRecipient(terms.buyer);
      if !ok { Restore(before); }
    }

    method OpenDispute(sender: Address, evidence: Digest) returns (ok: bool)
      modifies this
      ensures Follows(Call.OpenDispute(sender, evidence), ok)
    {
      if sender != terms.buyer && sender != terms.seller { return false; }
      if state != AwaitingDelivery && state != RefundRequested { return false; }
      if evidence == ZERO_HASH { return false; }
      state := Disputed;
      activeEvidenceCommitment := evidence;
      return true;
    }

    method RecordVerifiedEvidence(sender: Address, claimId: Digest, evidence: Digest) returns (ok: bool)
      modifies this
      ensures Follows(Call.RecordVerifiedEvidence(sender, claimId, evidence), ok)
    {
      if state != Disputed || sender != terms.registry { return false; }
      if claimId == ZERO_HASH || evidence == ZERO_HASH { return false; }
      if evidence != activeEvidenceCommitment { return false; }
      if verifiedClaimId != ZERO_HASH { return false; }
      verifiedClaimId := claimId;
      return true;
    }

    method SettleVerifiedCondition(sender: Address, claimId: Digest, evidence: Digest) returns (ok: bool)
      modifies this
      ensures Follows(Call.SettleVerifiedCondition(sender, claimId, evidence), ok)
    {
      if state != AwaitingDelivery || sender != terms.registry { return false; }
      if !terms.direct { return false; }
      if claimId == ZERO_HASH || evidence == ZERO_HASH { return false; }
      if activeEvidenceCommitment != ZERO_HASH || verifiedClaimId != ZERO_HASH { return false; }
      var before := View();
      activeEvidenceCommitment := evidence;
      verifiedClaimId := claimId;
      state := Complete;
      ok := CreditRecipient(terms.seller);
      if !ok { Restore(before); }
    }

    method RecordVerifiedCondition(sender: Address, claimId: Digest, evidence: Digest) returns (ok: bool)
      modifies this
      ensures Follows(Call.RecordVerifiedCondition(sender, claimId, evidence), ok)
    {
      if state != AwaitingDelivery || sender != terms.registry { return false; }
      if terms.direct { return false; }
      if claimId == ZERO_HASH || evidence == ZERO_HASH { return false; }
      if activeEvidenceCommitment != ZERO_HASH || verifiedClaimId != ZERO_HASH { return false; }
      verifiedClaimId := claimId;
      return true;
    }

    method ResolveDispute(sender: Address, resolution: Resolution) returns (ok: bool)
      modifies this
      ensures Follows(Call.ResolveDispute(sender, resolution), ok)
    {
      if sender != terms.arbitrator || state != Disputed { return false; }
      var before := View();
      var recipient;
      if resolution == RefundBuyer {
        state := Refunded;
        recipient := terms.buyer;
      } else {
        state := Complete;
        recipient := terms.seller;
      }
      ok := CreditRecipient(recipient);
      if !ok { Restore(before); }
    }

    /** The recipient runs `callback` against this object before it accepts or refuses. */
    method Withdraw(sender: Address, callback: seq<Call>, accepts: bool) returns (ok: bool)
      modifies this
      ensures Follows(Call.Withdraw(sender, callback, accepts), ok)
      decreases callback, 1
    {
      var before := View();
      if locked { return false; }
      locked := true;
      var amount := Credit(withdrawals, sender);
      if amount == 0 { Restore(before); return false; }
      withdrawals := withdrawals[sender := 0];
      if received < Total(payouts) + amount { Restore(before); return false; }
      payouts := payouts + [Transfer(sender, amount)];
      ReceiveAll(callback);
      if !accepts { Restore(before); return false; }
      locked := false;
      return true;
    }

    method ReceiveAll(calls: seq<Call>)
      modifies this
      ensures View() == ExecAll(terms, old(View()), calls)
      decreases calls, 0
    {
      if calls != [] {
        var _ := Receive(calls[0]);
        ReceiveAll(calls[1..]);
      }
    }

    /** Dispatch of one message by selector. */
    method Receive(call: Call) returns (ok: bool)
      modifies this
      ensures Follows(call, ok)
      decreases call, 2
    {
      match call
      case Deposit(sender, value) => ok := Deposit(sender, value);
      case Cancel(sender) => ok := Cancel(sender);
      case ConfirmDelivery(sender) => ok := ConfirmDelivery(sender);
      case RequestRefund(sender, evidence) => ok := RequestRefund(sender, evidence);
      case ApproveRefund(sender) => ok := ApproveRefund(sender);
      case OpenDispute(sender, evidence) => ok := OpenDispute(sender, evidence);
      case ResolveDispute(sender, resolution) => ok := ResolveDispute(sender, resolution);
      case RecordVerifiedEvidence(sender, claimId, evidence) => ok := RecordVerifiedEvidence(sender, claimId, evidence);
      case RecordVerifiedCondition(sender, claimId, evidence) =>
          ok := RecordVerifiedCondition(sender, claimId, evidence);
      case SettleVerifiedCondition(sender, claimId, evidence) =>
          ok := SettleVerifiedCondition(sender, claimId, evidence);
      case Withdraw(sender, callback, accepts) => ok := Withdraw(sender, callback, accepts);
    }
  }
}
