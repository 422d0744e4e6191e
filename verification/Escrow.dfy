/** The escrow contract, `contracts/src/VeyronisEscrow.sol`. */
module Escrow {
  import opened Digests

  datatype State =
    | AwaitingPayment | AwaitingDelivery | RefundRequested | Disputed
    | Complete | Refunded | Cancelled

  datatype Resolution = ReleaseToSeller | RefundBuyer

  /** The immutables fixed by the constructor. */
  datatype Terms = Terms(
    buyer: Address,
    seller: Address,
    arbitrator: Address,
    agreement: Digest,
    policy: Digest,
    requiredAmount: nat,
    registry: Address,
    direct: bool)

  const UINT256_LIMIT := 0x1_0000_0000_0000_0000_0000_0000_0000_0000_0000_0000_0000_0000_0000_0000_0000_0000

  /** The constructor's guards. */
  predicate ValidTerms(t: Terms) {
    && t.buyer != ZERO_ADDRESS && t.seller != ZERO_ADDRESS && t.arbitrator != ZERO_ADDRESS
    && t.buyer != t.seller && t.buyer != t.arbitrator && t.seller != t.arbitrator
    && t.agreement != ZERO_HASH && t.policy != ZERO_HASH
    && 0 < t.requiredAmount < UINT256_LIMIT
    && t.registry != ZERO_ADDRESS
  }

  datatype Transfer = Transfer(to: Address, amount: nat)

  /**
   * Contract storage, together with the ether that has entered (`received`), the
   * `WithdrawalCredited` log (`credits`) and the ether that has left (`payouts`).
   */
  datatype Storage = Storage(
    state: State,
    deposited: nat,
    active: Digest,
    verified: Digest,
    withdrawals: map<Address, nat>,
    locked: bool,
    received: nat,
    credits: seq<Transfer>,
    payouts: seq<Transfer>)

  const INITIAL := Storage(AwaitingPayment, 0, ZERO_HASH, ZERO_HASH, map[], false, 0, [], [])

  function Credit(withdrawals: map<Address, nat>, account: Address): nat {
    if account in withdrawals then withdrawals[account] else 0
  }

  function Total(transfers: seq<Transfer>): nat {
    if transfers == [] then 0 else transfers[0].amount + Total(transfers[1..])
  }

  /**
   * A message to the contract. A withdrawal carries what its recipient does with
   * control: the calls it makes back into the contract, and whether it accepts the ether.
   */
  datatype Call =
    | Deposit(sender: Address, value: nat)
    | Cancel(sender: Address)
    | ConfirmDelivery(sender: Address)
    | RequestRefund(sender: Address, evidence: Digest)
    | ApproveRefund(sender: Address)
    | OpenDispute(sender: Address, evidence: Digest)
    | ResolveDispute(sender: Address, resolution: Resolution)
    | RecordVerifiedEvidence(sender: Address, claimId: Digest, evidence: Digest)
    | RecordVerifiedCondition(sender: Address, claimId: Digest, evidence: Digest)
    | SettleVerifiedCondition(sender: Address, claimId: Digest, evidence: Digest)
    | Withdraw(sender: Address, callback: seq<Call>, accepts: bool)

  function CreditTo(s: Storage, recipient: Address): Option<Storage> {
    var total := Credit(s.withdrawals, recipient) + s.deposited;
    if total >= UINT256_LIMIT then None
    else Some(s.(deposited := 0,
                 withdrawals := s.withdrawals[recipient := total],
                 credits := s.credits + [Transfer(recipient, s.deposited)]))
  }

  /** One call: the storage it leaves, or `None` when it reverts. */
  function Exec(t: Terms, s: Storage, call: Call): (r: Option<Storage>)
    decreases call, 1
  {
    match call
    case Deposit(sender, value) =>
      if sender != t.buyer || s.state != AwaitingPayment || value != t.requiredAmount then None
      else Some(s.(deposited := value, state := AwaitingDelivery, received := s.received + value))
    case Cancel(sender) =>
      if sender != t.buyer || s.state != AwaitingPayment then None
      else Some(s.(state := Cancelled))
    case ConfirmDelivery(sender) =>
      if sender != t.buyer || s.state != AwaitingDelivery || t.direct then None
      else CreditTo(s.(state := Complete), t.seller)
    case RequestRefund(sender, evidence) =>
      if sender != t.buyer || s.state != AwaitingDelivery || evidence == ZERO_HASH then None
      else Some(s.(state := RefundRequested, active := evidence))
    case ApproveRefund(sender) =>
      if sender != t.seller || s.state != RefundRequested then None
      else CreditTo(s.(state := Refunded), t.buyer)
    case OpenDispute(sender, evidence) =>
      if sender != t.buyer && sender != t.seller then None
      else if s.state != AwaitingDelivery && s.state != RefundRequested then None
      else if evidence == ZERO_HASH then None
      else Some(s.(state := Disputed, active := evidence))
    case ResolveDispute(sender, resolution) =>
      if sender != t.arbitrator || s.state != Disputed then None
      else if resolution.RefundBuyer? then CreditTo(s.(state := Refunded), t.buyer)
      else CreditTo(s.(state := Complete), t.seller)
    case RecordVerifiedEvidence(sender, claimId, evidence) =>
      if s.state != Disputed || sender != t.registry then None
      else if claimId == ZERO_HASH || evidence == ZERO_HASH || evidence != s.active then None
      else if s.verified != ZERO_HASH then None
      else Some(s.(verified := claimId))
    case RecordVerifiedCondition(sender, claimId, evidence) =>
      if s.state != AwaitingDelivery || sender != t.registry || t.direct then None
      else if claimId == ZERO_HASH || evidence == ZERO_HASH then None
      else if s.active != ZERO_HASH || s.verified != ZERO_HASH then None
      else Some(s.(verified := claimId))
    case SettleVerifiedCondition(sender, claimId, evidence) =>
      if s.state != AwaitingDelivery || sender != t.registry || !t.direct then None
      else if claimId == ZERO_HASH || evidence == ZERO_HASH then None
      else if s.active != ZERO_HASH || s.verified != ZERO_HASH then None
      else CreditTo(s.(active := evidence, verified := claimId, state := Complete), t.seller)
    case Withdraw(sender, callback, accepts) =>
      if s.locked || Credit(s.withdrawals, sender) == 0 then None
      else if s.received < Total(s.payouts) + Credit(s.withdrawals, sender) || !accepts then None
      else Some(ExecAll(t, Handover(s, sender), callback).(locked := false))
  }

  /** The storage the recipient of a withdrawal sees when it gets control. */
  function Handover(s: Storage, sender: Address): Storage {
    var amount := Credit(s.withdrawals, sender);
    s.(locked := true,
       withdrawals := s.withdrawals[sender := 0],
       payouts := s.payouts + [Transfer(sender, amount)])
  }

  /** Calls in order; a reverted call changes nothing. */
  function ExecAll(t: Terms, s: Storage, calls: seq<Call>): Storage
    decreases calls, 0
  {
    if calls == [] then s
    else ExecAll(t, After(t, s, calls[0]), calls[1..])
  }

  function After(t: Terms, s: Storage, call: Call): Storage
    decreases call, 2
  {
    var r := Exec(t, s, call);
    if r.Some? then r.value else s
  }

  /** Every storage some party can observe while the calls run, callbacks included. */
  function Observed(t: Terms, s: Storage, calls: seq<Call>): seq<Storage>
    decreases calls
  {
    if calls == [] then [s]
    else
      var call := calls[0];
      [s]
      + (if call.Withdraw? && Exec(t, s, call).Some?
         then Observed(t, Handover(s, call.sender), call.callback) else [])
      + Observed(t, After(t, s, call), calls[1..])
  }

  /*** Accounting ***/

  predicate Funded(state: State) {
    state == AwaitingDelivery || state == RefundRequested || state == Disputed
  }

  /** The one party a settled escrow credits. */
  function Winner(t: Terms, state: State): Option<Address> {
    match state
    case Complete => Some(t.seller)
    case Refunded => Some(t.buyer)
    case _ => None
  }

  function AccountedFunds(t: Terms, s: Storage): nat {
    s.deposited + Credit(s.withdrawals, t.buyer) + Credit(s.withdrawals, t.seller)
  }

  ghost predicate Inv(t: Terms, s: Storage) {
    && s.deposited == (if Funded(s.state) then t.requiredAmount else 0)
    && s.received == (if s.state == AwaitingPayment || s.state == Cancelled then 0 else t.requiredAmount)
    && (match Winner(t, s.state)
        case None =>
          s.credits == [] && s.payouts == [] && forall a :: Credit(s.withdrawals, a) == 0
        case Some(winner) =>
          var due := Transfer(winner, t.requiredAmount);
          && s.credits == [due]
          && (s.payouts == [] || s.payouts == [due])
          && forall a :: Credit(s.withdrawals, a) ==
                         if a == winner && s.payouts == [] then t.requiredAmount else 0)
    && (s.state == AwaitingPayment || s.state == Cancelled ==>
          s.active == ZERO_HASH && s.verified == ZERO_HASH)
    && (s.state == AwaitingDelivery ==> s.active == ZERO_HASH)
    && (s.state == AwaitingDelivery && t.direct ==> s.verified == ZERO_HASH)
    && (s.state == RefundRequested || s.state == Disputed || s.state == Refunded ==>
          s.active != ZERO_HASH)
  }

  /** What the ledger promises of any observable storage. */
  ghost predicate Conserved(t: Terms, s: Storage) {
    && AccountedFunds(t, s) + Total(s.payouts) == s.received
    && (s.received == 0 || s.received == t.requiredAmount)
    && (s.deposited > 0 <==> Funded(s.state))
    && |s.credits| <= 1 && |s.payouts| <= |s.credits|
    && (|s.credits| == 1 <==> s.state == Complete || s.state == Refunded)
    && (forall x <- s.credits :: x == Transfer(if s.state == Complete then t.seller else t.buyer, t.requiredAmount))
    && (forall x <- s.payouts :: x in s.credits)
  }

  lemma InvConserves(t: Terms, s: Storage)
    requires ValidTerms(t) && Inv(t, s)
    ensures Conserved(t, s)
  {
    assert forall x: Transfer :: Total([x]) == x.amount;
  }

  lemma ExecKeepsInv(t: Terms, s: Storage, call: Call)
    requires ValidTerms(t) && Inv(t, s)
    ensures Inv(t, After(t, s, call)) && After(t, s, call).locked == s.locked
    decreases call, 1
  {
    if call.Withdraw? && Exec(t, s, call).Some? {
      HandoverKeepsInv(t, s, call.sender);
      ExecAllKeepsInv(t, Handover(s, call.sender), call.callback);
    } else if Exec(t, s, call).Some? && Winner(t, s.state) != Winner(t, Exec(t, s, call).value.state) {
      SettlementKeepsInv(t, s, call);
    }
  }

  /** The calls that settle: the whole deposit becomes the winner's credit. */
  lemma SettlementKeepsInv(t: Terms, s: Storage, call: Call)
    requires ValidTerms(t) && Inv(t, s) && !call.Withdraw? && Exec(t, s, call).Some?
    requires Winner(t, s.state) != Winner(t, Exec(t, s, call).value.state)
    ensures Inv(t, Exec(t, s, call).value)
  {
    var after := Exec(t, s, call).value;
    var winner := Winner(t, after.state).value;
    assert after.withdrawals == s.withdrawals[winner := t.requiredAmount];
    forall a ensures Credit(after.withdrawals, a) == if a == winner then t.requiredAmount else 0 {
      assert Credit(s.withdrawals, a) == 0;
    }
    assert after.credits == [Transfer(winner, t.requiredAmount)];
  }

  lemma HandoverKeepsInv(t: Terms, s: Storage, sender: Address)
    requires ValidTerms(t) && Inv(t, s) && Credit(s.withdrawals, sender) > 0
    ensures Inv(t, Handover(s, sender))
  {
    assert Handover(s, sender).payouts == [Transfer(sender, t.requiredAmount)];
    forall a ensures Credit(Handover(s, sender).withdrawals, a) == 0 {
      assert a != sender ==> Credit(s.withdrawals, a) == 0;
    }
  }

  lemma {:induction false} ExecAllKeepsInv(t: Terms, s: Storage, calls: seq<Call>)
    requires ValidTerms(t) && Inv(t, s)
    ensures Inv(t, ExecAll(t, s, calls)) && ExecAll(t, s, calls).locked == s.locked
    decreases calls, 0
  {
    if calls != [] {
      ExecKeepsInv(t, s, calls[0]);
      ExecAllKeepsInv(t, After(t, s, calls[0]), calls[1..]);
    }
  }

  lemma {:induction false} ObservedKeepsInv(t: Terms, s: Storage, calls: seq<Call>)
    requires ValidTerms(t) && Inv(t, s)
    ensures forall o <- Observed(t, s, calls) :: Inv(t, o)
    decreases calls
  {
    if calls != [] {
      var call := calls[0];
      if call.Withdraw? && Exec(t, s, call).Some? {
        HandoverKeepsInv(t, s, call.sender);
        ObservedKeepsInv(t, Handover(s, call.sender), call.callback);
      }
      ExecKeepsInv(t, s, call);
      ObservedKeepsInv(t, After(t, s, call), calls[1..]);
    }
  }

  /** Conservation over every run and inside every re-entrant callback. */
  lemma FundsAreConserved(t: Terms, calls: seq<Call>)
    requires ValidTerms(t)
    ensures forall o <- Observed(t, INITIAL, calls) :: Conserved(t, o)
    ensures Conserved(t, ExecAll(t, INITIAL, calls))
  {
    ObservedKeepsInv(t, INITIAL, calls);
    ExecAllKeepsInv(t, INITIAL, calls);
    forall o | o in Observed(t, INITIAL, calls) ensures Conserved(t, o) {
      InvConserves(t, o);
    }
    InvConserves(t, ExecAll(t, INITIAL, calls));
  }

  /** A credited party can always take its whole credit, and the callback cannot take it twice. */
  lemma CreditIsWithdrawable(t: Terms, calls: seq<Call>, account: Address, callback: seq<Call>)
    requires ValidTerms(t)
    ensures var s := ExecAll(t, INITIAL, calls);
            var credit := Credit(s.withdrawals, account);
            && (Exec(t, s, Withdraw(account, callback, true)).Some? <==> credit > 0)
            && (credit > 0 ==>
                  After(t, s, Withdraw(account, callback, true)).payouts == [Transfer(account, t.requiredAmount)])
  {
    ExecAllKeepsInv(t, INITIAL, calls);
    var s := ExecAll(t, INITIAL, calls);
    if Credit(s.withdrawals, account) > 0 {
      HandoverKeepsInv(t, s, account);
      PaidOutIsFrozen(t, Handover(s, account), callback);
    }
  }

  /** Who can settle: the sender and the evidence behind each way out of custody. */
  lemma SettlementHasAuthority(t: Terms, s: Storage, call: Call)
    requires ValidTerms(t) && Inv(t, s)
    ensures var after := After(t, s, call);
      && (s.state == Complete || s.state == Refunded || s.state == Cancelled ==> after.state == s.state)
      && (after.state == Complete && s.state != Complete ==>
            || (!t.direct && call == ConfirmDelivery(t.buyer) && s.state == AwaitingDelivery)
            || (s.state == Disputed && call == ResolveDispute(t.arbitrator, ReleaseToSeller))
            || (t.direct && call.SettleVerifiedCondition? && call.sender == t.registry
                && after.verified == call.claimId != ZERO_HASH))
      && (after.state == Refunded && s.state != Refunded ==>
            || (call == ApproveRefund(t.seller) && s.state == RefundRequested)
            || (s.state == Disputed && call == ResolveDispute(t.arbitrator, RefundBuyer)))
      && (after.verified != s.verified ==> s.verified == ZERO_HASH && Funded(s.state))
  {
    if call.Withdraw? && Exec(t, s, call).Some? {
      HandoverKeepsInv(t, s, call.sender);
      PaidOutIsFrozen(t, Handover(s, call.sender), call.callback);
    }
  }

  /** Once the winner is paid, no call changes anything. */
  lemma {:induction false} PaidOutIsFrozen(t: Terms, s: Storage, calls: seq<Call>)
    requires ValidTerms(t) && Inv(t, s) && s.payouts != []
    ensures ExecAll(t, s, calls) == s
    decreases calls
  {
    if calls != [] {
      assert Exec(t, s, calls[0]).None?;
      PaidOutIsFrozen(t, s, calls[1..]);
    }
  }

  /** What later storages of one escrow keep: its verdicts are final. */
  ghost predicate Advances(s: Storage, later: Storage) {
    && (s.verified != ZERO_HASH ==> later.verified == s.verified)
    && (s.state == Complete || s.state == Refunded || s.state == Cancelled ==> later.state == s.state)
    && (s.active != ZERO_HASH ==> later.active != ZERO_HASH)
    && (s.payouts != [] ==> later == s)
  }

  lemma CallAdvances(t: Terms, s: Storage, call: Call)
    requires ValidTerms(t) && Inv(t, s)
    ensures Advances(s, After(t, s, call))
  {
    if call.Withdraw? && Exec(t, s, call).Some? {
      HandoverKeepsInv(t, s, call.sender);
      PaidOutIsFrozen(t, Handover(s, call.sender), call.callback);
    }
  }
}
