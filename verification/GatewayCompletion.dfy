/** That a broadcast claim can be seen through: the answers that fulfil its promise. */
module GatewayCompletion {
  import opened Digests
  import opened Registry
  import opened Gateway
  import opened GatewayRuns
  import opened GatewayResends
  import opened GatewayStalls
  import opened GatewayHistory

  lemma ReceiptIsAccepted(m: System, j: nat, receipt: Receipt, rest: seq<Event>, last: System)
    requires Shaped(m.gateway) && j < |m.gateway.jobs|
    requires m.gateway.jobs[j].phase == AwaitingReceipt && m.gateway.jobs[j].reply == None
    requires Accepts(PendingOf(m.gateway, j).claim, receipt)
    requires Leads(At(m, j, Confirming(None, None), None), rest, last)
    ensures Leads(m, [Reply(j, Mined(Some(receipt)))] + ([Continue(j, true)] + rest), last)
  {
    var answered := At(m, j, AwaitingReceipt, Some(Mined(Some(receipt))));
    LeadsFirst(answered, Continue(j, true), At(m, j, Confirming(None, None), None), rest, last);
    LeadsFirst(m, Reply(j, Mined(Some(receipt))), answered, [Continue(j, true)] + rest, last);
  }

  /** The system once the registry's views have shown the claim of job `j`. */
  function Completed(m: System, j: nat, hash: Digest): System
    requires Shaped(m.gateway) && j < |m.gateway.jobs|
  {
    var id := JobClaimId(m.gateway, j);
    At(m.(gateway := m.gateway.(table := m.gateway.table - {id})), j, Fulfilled(Receipted(id, hash)), None)
  }

  lemma ViewsAgree(m: System, j: nat, hash: Digest)
    requires Shaped(m.gateway) && j < |m.gateway.jobs|
    requires m.gateway.jobs[j].phase == Confirming(None, None) && m.gateway.jobs[j].reply == None
    requires var claim := PendingOf(m.gateway, j).claim;
             ClaimId(claim) in m.world.consumed && BoundEscrow(m.world, SourceKey(claim)) == claim.escrow
    requires PendingOf(m.gateway, j).transaction == Some(hash)
    ensures var escrow := PendingOf(m.gateway, j).claim.escrow;
            Leads(m, [Reply(j, Consumed(true))] + ([Reply(j, Bound(escrow))] + ([Continue(j, true)] + [])),
                  Completed(m, j, hash))
  {
    var consumed := At(m, j, Confirming(Some(true), None), None);
    AtTwice(m, j, Confirming(Some(true), None), Rejected, hash);
    SecondView(consumed, j, hash);
    var escrow := PendingOf(m.gateway, j).claim.escrow;
    ConsumedIsShown(m, j, [Reply(j, Bound(escrow))] + ([Continue(j, true)] + []), Completed(m, j, hash));
  }

  lemma AtTwice(m: System, j: nat, phase: Phase, next: Phase, hash: Digest)
    requires Shaped(m.gateway) && j < |m.gateway.jobs|
    ensures var first := At(m, j, phase, None);
            && Shaped(first.gateway) && PendingOf(first.gateway, j) == PendingOf(m.gateway, j)
            && first.gateway.jobs[j].phase == phase && first.gateway.jobs[j].reply == None
            && At(first, j, next, None) == At(m, j, next, None) && Completed(first, j, hash) == Completed(m, j, hash)
  {}

  lemma SecondView(m: System, j: nat, hash: Digest)
    requires Shaped(m.gateway) && j < |m.gateway.jobs|
    requires m.gateway.jobs[j].phase == Confirming(Some(true), None) && m.gateway.jobs[j].reply == None
    requires var claim := PendingOf(m.gateway, j).claim; BoundEscrow(m.world, SourceKey(claim)) == claim.escrow
    requires PendingOf(m.gateway, j).transaction == Some(hash)
    ensures Leads(m, [Reply(j, Bound(PendingOf(m.gateway, j).claim.escrow))] + ([Continue(j, true)] + []),
                  Completed(m, j, hash))
  {
    var escrow := PendingOf(m.gateway, j).claim.escrow;
    AtTwice(m, j, Confirming(Some(true), Some(escrow)), Rejected, hash);
    PromiseIsFulfilled(At(m, j, Confirming(Some(true), Some(escrow)), None), j, hash);
    BoundIsShown(m, j, [Continue(j, true)] + [], Completed(m, j, hash));
  }

  lemma ConsumedIsShown(m: System, j: nat, rest: seq<Event>, last: System)
    requires Shaped(m.gateway) && j < |m.gateway.jobs| && JobClaimId(m.gateway, j) in m.world.consumed
    requires m.gateway.jobs[j].phase == Confirming(None, None) && m.gateway.jobs[j].reply == None
    requires Leads(At(m, j, Confirming(Some(true), None), None), rest, last)
    ensures Leads(m, [Reply(j, Consumed(true))] + rest, last)
  {
    LeadsFirst(m, Reply(j, Consumed(true)), At(m, j, Confirming(Some(true), None), None), rest, last);
  }

  lemma BoundIsShown(m: System, j: nat, rest: seq<Event>, last: System)
    requires Shaped(m.gateway) && j < |m.gateway.jobs|
    requires m.gateway.jobs[j].phase == Confirming(Some(true), None) && m.gateway.jobs[j].reply == None
    requires var claim := PendingOf(m.gateway, j).claim; BoundEscrow(m.world, SourceKey(claim)) == claim.escrow
    requires Leads(At(m, j, Confirming(Some(true), Some(PendingOf(m.gateway, j).claim.escrow)), None), rest, last)
    ensures Leads(m, [Reply(j, Bound(PendingOf(m.gateway, j).claim.escrow))] + rest, last)
  {
    var escrow := PendingOf(m.gateway, j).claim.escrow;
    LeadsFirst(m, Reply(j, Bound(escrow)), At(m, j, Confirming(Some(true), Some(escrow)), None), rest, last);
  }

  lemma PromiseIsFulfilled(m: System, j: nat, hash: Digest)
    requires Shaped(m.gateway) && j < |m.gateway.jobs| && m.gateway.jobs[j].reply == None
    requires m.gateway.jobs[j].phase == Confirming(Some(true), Some(PendingOf(m.gateway, j).claim.escrow))
    requires PendingOf(m.gateway, j).transaction == Some(hash)
    ensures Leads(m, [Continue(j, true)] + [], Completed(m, j, hash))
  {
    LastViewFulfils(m, j, hash);
    LeadsFirst(m, Continue(j, true), Completed(m, j, hash), [], Completed(m, j, hash));
  }

  lemma LastViewFulfils(m: System, j: nat, hash: Digest)
    requires Shaped(m.gateway) && j < |m.gateway.jobs| && m.gateway.jobs[j].reply == None
    requires m.gateway.jobs[j].phase == Confirming(Some(true), Some(PendingOf(m.gateway, j).claim.escrow))
    requires PendingOf(m.gateway, j).transaction == Some(hash)
    ensures Next(m, Continue(j, true)) == Completed(m, j, hash)
    ensures Shaped(Completed(m, j, hash).gateway)
  {}

  /** A waiting job whose claim is consumed: receipt and views, and the promise is fulfilled. */
  lemma ReceiptCompletes(m: System, j: nat, hash: Digest, receipt: Receipt) returns (events: seq<Event>)
    requires Shaped(m.gateway) && j < |m.gateway.jobs|
    requires m.gateway.jobs[j].phase == AwaitingReceipt && m.gateway.jobs[j].reply == None
    requires PendingOf(m.gateway, j).transaction == Some(hash)
    requires var claim := PendingOf(m.gateway, j).claim;
             && ClaimId(claim) in m.world.consumed && BoundEscrow(m.world, SourceKey(claim)) == claim.escrow
             && Accepts(claim, receipt)
    ensures Leads(m, events, Completed(m, j, hash))
  {
    var escrow := PendingOf(m.gateway, j).claim.escrow;
    var confirming := At(m, j, Confirming(None, None), None);
    var views := [Reply(j, Consumed(true))] + ([Reply(j, Bound(escrow))] + ([Continue(j, true)] + []));
    AtTwice(m, j, Confirming(None, None), Rejected, hash);
    ViewsAgree(confirming, j, hash);
    ReceiptIsAccepted(m, j, receipt, views, Completed(m, j, hash));
    events := [Reply(j, Mined(Some(receipt)))] + ([Continue(j, true)] + views);
  }

  /**
   * From any broadcasting job: the hash comes back, the transaction is mined, the receipt carries the acceptance event
   * and the registry shows the claim; then the promise is fulfilled with that hash, and the entry is gone.
   */
  lemma BroadcastCompletes(m: System, j: nat, hash: Digest, mining: Step, receipt: Receipt)
    returns (events: seq<Event>, last: System)
    requires Shaped(m.gateway) && j < |m.gateway.jobs|
    requires m.gateway.jobs[j].phase == Broadcasting && m.gateway.jobs[j].reply == None
    requires var claim, mined := PendingOf(m.gateway, j).claim, Apply(m.world, mining);
             && ClaimId(claim) in mined.consumed && BoundEscrow(mined, SourceKey(claim)) == claim.escrow
             && Accepts(claim, receipt)
    ensures Leads(m, events, last) && j < |last.gateway.jobs|
    ensures last.gateway.jobs[j].phase == Fulfilled(Receipted(JobClaimId(m.gateway, j), hash))
    ensures JobClaimId(m.gateway, j) !in last.gateway.table
  {
    var waiting := Waiting(m, j, hash);
    var mined := waiting.(world := Apply(m.world, mining));
    last := Completed(mined, j, hash);
    var shown := ReceiptCompletes(mined, j, hash, receipt);
    LeadsFirst(waiting, ChainStep(mining), mined, shown, last);
    SendIsAnswered(m, j, hash, [ChainStep(mining)] + shown, last);
    events := [Reply(j, Sent(hash))] + ([Continue(j, true)] + ([ChainStep(mining)] + shown));
  }
}
