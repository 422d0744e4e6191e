/** What a gateway can no longer do for a claim that the registry has consumed. */
module GatewayStalls {
  import opened Digests
  import opened Registry
  import opened Gateway
  import Escrow
  import opened OnePayment
  import opened GatewayRuns
  import opened GatewayResends

  predicate BeforeSimulation(job: Job) {
    || job.phase == Queued || job.phase.ReadingVerifier? || job.phase.ReadingSigner?
    || (job.phase == Simulating && !(job.reply.Some? && job.reply.value.Simulated?))
  }

  /** Every job of the claim has settled or must still pass the simulation. */
  ghost predicate Barred(s: State, id: Digest) {
    && Shaped(s)
    && forall j | 0 <= j < |s.jobs| && JobClaimId(s, j) == id :: Settled(s.jobs[j].phase) || BeforeSimulation(s.jobs[j])
  }

  /** Since `s` no promise of the claim was fulfilled, nothing of it broadcast, and its entry has stayed. */
  ghost predicate Stalled(s: State, later: State, id: Digest) {
    && Shaped(s) && Barred(later, id) && Broadcasts(later, id) == Broadcasts(s, id)
    && (id in s.table ==> id in later.table && later.table[id] == s.table[id])
    && forall j | 0 <= j < |later.jobs| && JobClaimId(later, j) == id && later.jobs[j].phase.Fulfilled? ::
         FulfilledIn(s, j, id)
  }

  predicate FulfilledIn(s: State, j: nat, id: Digest)
    requires Shaped(s)
  {
    j < |s.jobs| && JobClaimId(s, j) == id && s.jobs[j].phase.Fulfilled?
  }

  lemma EnqueueStalls(s: State, claim: Claim, mode: Mode, id: Digest)
    requires Barred(s, id)
    ensures Stalled(s, Enqueue(s, claim, mode).0, id)
  {
    EnqueueKeepsJobs(s, claim, mode);
  }

  lemma StepStalls(s: State, j: nat, after: State, id: Digest)
    requires Barred(s, id) && StepOf(s, j, after) && Broadcasts(after, id) == Broadcasts(s, id)
    requires id in s.table ==> id in after.table && after.table[id] == s.table[id]
    requires JobClaimId(s, j) == id ==>
               && (Settled(after.jobs[j].phase) || BeforeSimulation(after.jobs[j]))
               && (after.jobs[j].phase.Fulfilled? ==> s.jobs[j].phase.Fulfilled?)
    ensures Stalled(s, after, id)
  {
    forall i: nat | i < |s.jobs| ensures JobClaimId(after, i) == JobClaimId(s, i) {
      assert SameClaim(s.pendings[s.jobs[i].pending], after.pendings[s.jobs[i].pending]);
    }
  }

  lemma ReplyStalls(m: System, j: nat, answer: Answer, id: Digest)
    requires Barred(m.gateway, id) && id in m.world.consumed && j < |m.gateway.jobs| && Answerable(m, j, answer)
    ensures Stalled(m.gateway, Deliver(m.gateway, j, answer), id)
  {
    AnswerFits(m, j, answer);
    DeliverIsStep(m.gateway, j, answer);
    StepStalls(m.gateway, j, Deliver(m.gateway, j, answer), id);
  }

  lemma ContinueStalls(s: State, j: nat, hasProvider: bool, id: Digest)
    requires Barred(s, id) && j < |s.jobs|
    ensures Stalled(s, Resume(s, j, hasProvider), id)
  {
    ResumeIsStep(s, j, hasProvider);
    StepStalls(s, j, Resume(s, j, hasProvider), id);
  }

  lemma StartStalls(s: State, j: nat, id: Digest)
    requires Barred(s, id) && CanStart(s, j)
    ensures Stalled(s, WithPhase(s, j, ReadingVerifier), id)
  {
    StepStalls(s, j, WithPhase(s, j, ReadingVerifier), id);
  }

  lemma FinallyStalls(s: State, j: nat, id: Digest)
    requires Barred(s, id) && j < |s.jobs| && Settled(s.jobs[j].phase)
    ensures Stalled(s, Clear(s, j), id)
  {
    StepStalls(s, j, Clear(s, j), id);
  }

  lemma NextStalls(m: System, event: Event, id: Digest)
    requires Barred(m.gateway, id) && id in m.world.consumed
    ensures Stalled(m.gateway, Next(m, event).gateway, id) && id in Next(m, event).world.consumed
  {
    var s := m.gateway;
    match event
    case Call(claim, mode) => EnqueueStalls(s, claim, mode, id);
    case Start(j) => if CanStart(s, j) { StartStalls(s, j, id); }
    case Reply(j, answer) => if j < |s.jobs| && Answerable(m, j, answer) { ReplyStalls(m, j, answer, id); }
    case Continue(j, hasProvider) => if j < |s.jobs| { ContinueStalls(s, j, hasProvider, id); }
    case Finally(j) => if j < |s.jobs| && Settled(s.jobs[j].phase) { FinallyStalls(s, j, id); }
    case ChainStep(step) => var _, _ := ApplyIsLocal(m.world, step);
  }

  lemma StallsOn(s: State, x: State, y: State, id: Digest)
    requires Stalled(s, x, id) && Stalled(x, y, id)
    ensures Stalled(s, y, id)
  {
    forall j: nat | j < |y.jobs| && JobClaimId(y, j) == id && y.jobs[j].phase.Fulfilled? ensures FulfilledIn(s, j, id) {
      assert FulfilledIn(x, j, id);
    }
  }

  /**
   * Once the registry has consumed a claim none of whose jobs is past its simulation, as when a transaction is mined
   * after its receipt was given up, no run ever fulfils another promise of it or broadcasts it, and its entry stays.
   */
  lemma {:induction false} ConsumedEntryStalls(m: System, later: seq<Event>, id: Digest)
    requires Barred(m.gateway, id) && id in m.world.consumed
    ensures Stalled(m.gateway, Run(m, later).gateway, id)
    decreases later
  {
    if later != [] {
      NextStalls(m, later[0], id);
      ConsumedEntryStalls(Next(m, later[0]), later[1..], id);
      StallsOn(m.gateway, Next(m, later[0]).gateway, Run(m, later).gateway, id);
    }
  }

  /*** Such systems are reachable ***/

  /** Job `j` has sent its transaction and waits for the receipt. */
  function Waiting(m: System, j: nat, hash: Digest): System
    requires Shaped(m.gateway) && j < |m.gateway.jobs|
  {
    var acknowledged := m.gateway.acknowledged + multiset{JobClaimId(m.gateway, j)};
    var stored := Store(m.gateway, m.gateway.jobs[j].pending, hash);
    At(m.(gateway := stored.(acknowledged := acknowledged)), j, AwaitingReceipt, None)
  }

  lemma SendIsAnswered(m: System, j: nat, hash: Digest, rest: seq<Event>, last: System)
    requires Shaped(m.gateway) && j < |m.gateway.jobs|
    requires m.gateway.jobs[j].phase == Broadcasting && m.gateway.jobs[j].reply == None
    requires Leads(Waiting(m, j, hash), rest, last)
    ensures Leads(m, [Reply(j, Sent(hash))] + ([Continue(j, true)] + rest), last)
  {
    var s := m.gateway;
    var sent := m.(gateway := s.(jobs := s.jobs[j := s.jobs[j].(reply := Some(Sent(hash)))],
                                 acknowledged := s.acknowledged + multiset{JobClaimId(s, j)}));
    assert Next(m, Reply(j, Sent(hash))) == sent;
    LeadsFirst(sent, Continue(j, true), Waiting(m, j, hash), rest, last);
    LeadsFirst(m, Reply(j, Sent(hash)), sent, [Continue(j, true)] + rest, last);
  }

  lemma ReceiptThrows(m: System, rest: seq<Event>, last: System)
    requires Shaped(m.gateway) && 0 < |m.gateway.jobs|
    requires m.gateway.jobs[0].phase == AwaitingReceipt && m.gateway.jobs[0].reply == None
    requires Leads(At(m, 0, Rejected, None), rest, last)
    ensures Leads(m, [Reply(0, Threw)] + ([Continue(0, false)] + rest), last)
  {
    var thrown := At(m, 0, AwaitingReceipt, Some(Threw));
    LeadsFirst(thrown, Continue(0, false), At(m, 0, Rejected, None), rest, last);
    LeadsFirst(m, Reply(0, Threw), thrown, [Continue(0, false)] + rest, last);
  }

  function LosingReceipt(hash: Digest, mining: Step): seq<Event> {
    [Reply(0, Sent(hash))]
    + ([Continue(0, true)] + ([Reply(0, Threw)] + ([Continue(0, false)] + ([ChainStep(mining)] + []))))
  }

  /** The transaction is sent, its receipt is lost, and it is mined all the same. */
  lemma LostThenMined(m: System, hash: Digest, mined: System, mining: Step)
    requires Shaped(m.gateway) && |m.gateway.jobs| == 1
    requires m.gateway.jobs[0].phase == Broadcasting && m.gateway.jobs[0].reply == None
    requires mined == At(Waiting(m, 0, hash), 0, Rejected, None).(world := Apply(m.world, mining))
    ensures Leads(m, LosingReceipt(hash, mining), mined)
  {
    var waiting := Waiting(m, 0, hash);
    var lost := At(waiting, 0, Rejected, None);
    LeadsFirst(lost, ChainStep(mining), mined, [], mined);
    ReceiptThrows(waiting, [ChainStep(mining)] + [], mined);
    SendIsAnswered(m, 0, hash, [Reply(0, Threw)] + ([Continue(0, false)] + ([ChainStep(mining)] + [])), mined);
  }

  /** For every direct escrow: a claim is broadcast, the receipt lost, the transaction mined; and the entry is stuck. */
  lemma StallIsReachable(registry: Address, verifier: Address, escrow: Address, t: Escrow.Terms, hash: Digest)
    returns (events: seq<Event>)
    requires Escrow.ValidTerms(t) && t.direct && t.registry == registry && t.buyer != registry && escrow != ZERO_ADDRESS
    ensures var m, id := Reached(registry, verifier, events), ClaimId(PaymentClaim(escrow, t, Raw(1)));
            Barred(m.gateway, id) && id in m.world.consumed && id in m.gateway.table
  {
    var before := BroadcastIsReachable(registry, verifier, escrow, t);
    var m := Reached(registry, verifier, before);
    ReachedInTable(registry, verifier, before);
    var mining, mined := MinedIsBarred(m, hash);
    LostThenMined(m, hash, mined, mining);
    LeadsIsRun(m, LosingReceipt(hash, mining), mined);
    RunInTwo(Fresh(registry, verifier), before, LosingReceipt(hash, mining));
    events := before + LosingReceipt(hash, mining);
  }

  /** The only job has rejected, and its claim is consumed. */
  lemma MinedIsBarred(m: System, hash: Digest) returns (mining: Step, mined: System)
    requires Shaped(m.gateway) && |m.gateway.jobs| == 1 && JobClaimId(m.gateway, 0) in m.gateway.table
    requires Submit(m.world, m.world.verifier, PendingOf(m.gateway, 0).claim, PendingOf(m.gateway, 0).mode).Some?
    ensures mined == At(Waiting(m, 0, hash), 0, Rejected, None).(world := Apply(m.world, mining))
    ensures Barred(mined.gateway, JobClaimId(m.gateway, 0)) && JobClaimId(m.gateway, 0) in mined.world.consumed
    ensures JobClaimId(m.gateway, 0) in mined.gateway.table
  {
    mining := SubmitClaim(m.world.verifier, PendingOf(m.gateway, 0).claim, PendingOf(m.gateway, 0).mode);
    mined := At(Waiting(m, 0, hash), 0, Rejected, None).(world := Apply(m.world, mining));
    SubmitEffect(m.world, m.world.verifier, PendingOf(m.gateway, 0).claim, PendingOf(m.gateway, 0).mode);
  }

  lemma ReachedInTable(registry: Address, verifier: Address, events: seq<Event>)
    requires var s := Reached(registry, verifier, events).gateway; |s.jobs| == 1 && !Settled(s.jobs[0].phase)
    ensures var s := Reached(registry, verifier, events).gateway; JobClaimId(s, 0) in s.table
  {
    ReachedInv(registry, verifier, events);
    UnsettledIsCurrent(Reached(registry, verifier, events).gateway, 0);
  }
}
