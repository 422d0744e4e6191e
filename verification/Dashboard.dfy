/** Actions offered to a participant, `backend/src/agreements/dashboard-service.ts`. */
module Dashboard {
  import opened Digests
  import opened Escrow

  datatype Role = Buyer | Seller | Arbitrator
  datatype Lifecycle = BlockchainConditionOnly | ApplicationWorkEvidence | Hybrid
  datatype Action =
    | DepositAction | CancelAction | ConfirmDeliveryAction | RequestRefundAction
    | ApproveRefundAction | OpenDisputeAction | ResolveRelease | ResolveRefund | WithdrawAction

  predicate CanWithdrawEscrowFunds(role: Role, state: State, amount: int) {
    amount > 0 && ((role == Seller && state == Complete) || (role == Buyer && state == Refunded))
  }

  function Account(t: Terms, role: Role): Address {
    match role
    case Buyer => t.buyer
    case Seller => t.seller
    case Arbitrator => t.arbitrator
  }

  /** Some message carrying this action from this sender is accepted by the contract. */
  ghost predicate Accepts(t: Terms, s: Storage, sender: Address, action: Action) {
    match action
    case DepositAction => exists value :: Exec(t, s, Deposit(sender, value)).Some?
    case CancelAction => Exec(t, s, Cancel(sender)).Some?
    case ConfirmDeliveryAction => Exec(t, s, ConfirmDelivery(sender)).Some?
    case RequestRefundAction => exists e :: Exec(t, s, RequestRefund(sender, e)).Some?
    case ApproveRefundAction => Exec(t, s, ApproveRefund(sender)).Some?
    case OpenDisputeAction => exists e :: Exec(t, s, OpenDispute(sender, e)).Some?
    case ResolveRelease => Exec(t, s, ResolveDispute(sender, ReleaseToSeller)).Some?
    case ResolveRefund => Exec(t, s, ResolveDispute(sender, RefundBuyer)).Some?
    case WithdrawAction => Exec(t, s, Withdraw(sender, [], true)).Some?
  }

  /** The states in which each role may act, one row an action. */
  predicate Offered(role: Role, state: State, withdrawal: nat, lifecycle: Lifecycle, action: Action) {
    match action
    case DepositAction => role == Buyer && state == AwaitingPayment
    case CancelAction => role == Buyer && state == AwaitingPayment
    case WithdrawAction => CanWithdrawEscrowFunds(role, state, withdrawal)
    case _ =>
      && lifecycle != BlockchainConditionOnly
      && match action
         case ConfirmDeliveryAction => role == Buyer && state == AwaitingDelivery
         case RequestRefundAction => role == Buyer && state == AwaitingDelivery
         case ApproveRefundAction => role == Seller && state == RefundRequested
         case OpenDisputeAction => role != Arbitrator && (state == AwaitingDelivery || state == RefundRequested)
         case _ => role == Arbitrator && state == Disputed
  }

  method ActionsFor(role: Role, state: State, withdrawal: nat, lifecycle: Lifecycle)
    returns (actions: seq<Action>)
    ensures forall a :: a in actions <==> Offered(role, state, withdrawal, lifecycle, a)
    ensures forall i, j :: 0 <= i < j < |actions| ==> actions[i] != actions[j]
  {
    actions := [];
    if lifecycle == BlockchainConditionOnly {
      if role == Buyer && state == AwaitingPayment {
        actions := actions + [DepositAction, CancelAction];
      }
      if CanWithdrawEscrowFunds(role, state, withdrawal) {
        actions := actions + [WithdrawAction];
      }
      return;
    }
    if role == Buyer && state == AwaitingPayment {
      actions := actions + [DepositAction, CancelAction];
    }
    if role == Buyer && state == AwaitingDelivery {
      actions := actions + [ConfirmDeliveryAction];
      actions := actions + [RequestRefundAction];
      actions := actions + [OpenDisputeAction];
    }
    if role == Seller && state == AwaitingDelivery {
      actions := actions + [OpenDisputeAction];
    }
    if role == Seller && state == RefundRequested {
      actions := actions + [ApproveRefundAction, OpenDisputeAction];
    }
    if role == Buyer && state == RefundRequested {
      actions := actions + [OpenDisputeAction];
    }
    if role == Arbitrator && state == Disputed {
      actions := actions + [ResolveRelease, ResolveRefund];
    }
    if CanWithdrawEscrowFunds(role, state, withdrawal) {
      actions := actions + [WithdrawAction];
    }
  }

  /** The contract's own table of who may act when, for any storage the invariant allows. */
  lemma ContractTable(t: Terms, s: Storage, role: Role, action: Action)
    requires ValidTerms(t) && Inv(t, s) && !s.locked
    ensures Accepts(t, s, Account(t, role), action)
            <==> (t.direct ==> action != ConfirmDeliveryAction)
                 && Offered(role, s.state, Credit(s.withdrawals, Account(t, role)), Hybrid, action)
  {
    var sender := Account(t, role);
    match action {
      case DepositAction =>
        assert Exec(t, s, Deposit(sender, t.requiredAmount)).Some? == (role == Buyer && s.state == AwaitingPayment);
      case RequestRefundAction =>
        assert Exec(t, s, RequestRefund(sender, Raw(1))).Some? == (role == Buyer && s.state == AwaitingDelivery);
      case OpenDisputeAction =>
        assert Exec(t, s, OpenDispute(sender, Raw(1))).Some?
            == (role != Arbitrator && (s.state == AwaitingDelivery || s.state == RefundRequested));
      case WithdrawAction =>
        assert Credit(s.withdrawals, sender) > 0 ==> Total(s.payouts) == 0;
      case _ =>
    }
  }

  /**
   * In every reachable escrow state the offered actions are the ones the contract accepts;
   * a direct escrow also accepts the refund and dispute calls the dashboard hides there.
   */
  lemma OfferedActionsMatchContract(t: Terms, calls: seq<Call>, role: Role, lifecycle: Lifecycle, action: Action)
    requires ValidTerms(t)
    requires t.direct <==> lifecycle == BlockchainConditionOnly
    ensures var s := ExecAll(t, INITIAL, calls);
            var credit := Credit(s.withdrawals, Account(t, role));
            var hidden := t.direct && action in {RequestRefundAction, ApproveRefundAction, OpenDisputeAction,
                                                 ResolveRelease, ResolveRefund};
            && (!hidden ==> (Offered(role, s.state, credit, lifecycle, action)
                             <==> Accepts(t, s, Account(t, role), action)))
            && (hidden ==> !Offered(role, s.state, credit, lifecycle, action)
                           && (Accepts(t, s, Account(t, role), action)
                               <==> Offered(role, s.state, credit, Hybrid, action)))
            && (CanWithdrawEscrowFunds(role, s.state, credit) <==> credit > 0)
  {
    ExecAllKeepsInv(t, INITIAL, calls);
    ContractTable(t, ExecAll(t, INITIAL, calls), role, action);
  }
}
