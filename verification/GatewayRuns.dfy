/** What every interleaving on one gateway guarantees to its callers. */
module GatewayRuns {
  import opened Digests
  import Escrow
  import opened Registry
  import opened Gateway

  function Broadcasts(s: State, id: Digest): nat {
    s.acknowledged[id] + s.unacknowledged[id]
  }

  /** No call that broadcasts a transaction throws: what the node accepted, the gateway learns of. */
  ghost predicate SendsAnswer(events: seq<Event>) {
    forall i | 0 <= i < |events| && events[i].Reply? :: events[i].answer != SentButThrew
  }

  lemma {:induction false} NothingUnacknowledged(m: System, events: seq<Event>)
    requires Shaped(m.gateway) && SendsAnswer(events)
    ensures Run(m, events).gateway.unacknowledged == m.gateway.unacknowledged
    decreases events
  {
    if events != [] {
      NextKeepsShaped(m, events[0]);
      NextUnacknowledged(m, events[0]);
      NothingUnacknowledged(Next(m, events[0]), events[1..]);
    }
  }

  lemma NextUnacknowledged(m: System, event: Event)
    requires Shaped(m.gateway) && (event.Reply? ==> event.answer != SentButThrew)
    ensures Next(m, event).gateway.unacknowledged == m.gateway.unacknowledged
  {
    var s := m.gateway;
    match event
    case Call(claim, mode) => assert Enqueue(s, claim, mode).0.unacknowledged == s.unacknowledged;
    case Continue(j, hasProvider) =>
      if j < |s.jobs| { assert Resume(s, j, hasProvider).unacknowledged == s.unacknowledged; }
    case _ =>
  }

  /**
   * Whatever fails, reverts, gets lost or is retried, in any modes: a claim whose broadcast was acknowledged once is
   * never broadcast again, so there are at most one more broadcasts than sends that threw after broadcasting.
   */
  lemma AtMostOneBroadcast(registry: Address, verifier: Address, events: seq<Event>, id: Digest)
    ensures var s := Reached(registry, verifier, events).gateway;
            && s.acknowledged[id] <= 1
            && Broadcasts(s, id) <= 1 + s.unacknowledged[id]
            && (SendsAnswer(events) ==> Broadcasts(s, id) <= 1)
  {
    ReachedInv(registry, verifier, events);
    if SendsAnswer(events) { NothingUnacknowledged(Fresh(registry, verifier), events); }
  }

  /*** What a run never undoes ***/

  /** Settled jobs, started jobs, pending objects, and table entries until their claim is consumed (`seen`). */
  ghost predicate Onward(s: State, later: State, seen: set<Digest>) {
    && Shaped(s) && Shaped(later) && |s.jobs| <= |later.jobs| && |s.pendings| <= |later.pendings|
    && (forall j | 0 <= j < |s.jobs| :: JobOnward(s.jobs[j], later.jobs[j]))
    && (forall p | 0 <= p < |s.pendings| :: SameClaim(s.pendings[p], later.pendings[p]))
    && (forall id | id in s.table && id !in seen :: id in later.table && later.table[id] == s.table[id])
  }

  predicate JobOnward(job: Job, later: Job) {
    && later.pending == job.pending
    && (Settled(job.phase) ==> later.phase == job.phase)
    && (job.phase != Queued ==> later.phase != Queued)
  }

  lemma EnqueueIsOnward(s: State, claim: Claim, mode: Mode, seen: set<Digest>)
    requires Shaped(s)
    ensures Onward(s, Enqueue(s, claim, mode).0, seen)
  {}

  lemma StepIsOnward(s: State, j: nat, after: State, seen: set<Digest>)
    requires StepOf(s, j, after) && JobOnward(s.jobs[j], after.jobs[j])
    requires forall id | id in s.table && id !in seen :: id in after.table && after.table[id] == s.table[id]
    ensures Onward(s, after, seen)
  {}

  lemma StartIsOnward(s: State, j: nat, seen: set<Digest>)
    requires Shaped(s) && CanStart(s, j)
    ensures Onward(s, WithPhase(s, j, ReadingVerifier), seen)
  {
    StepIsOnward(s, j, WithPhase(s, j, ReadingVerifier), seen);
  }

  lemma DeliverIsOnward(s: State, j: nat, answer: Answer, seen: set<Digest>)
    requires Shaped(s) && j < |s.jobs|
    ensures Onward(s, Deliver(s, j, answer), seen)
  {
    DeliverIsStep(s, j, answer);
    StepIsOnward(s, j, Deliver(s, j, answer), seen);
  }

  lemma ResumeIsOnward(s: State, j: nat, hasProvider: bool, seen: set<Digest>)
    requires ResultInv(s, seen) && j < |s.jobs|
    ensures Onward(s, Resume(s, j, hasProvider), seen)
  {
    ResumeIsStep(s, j, hasProvider);
    StepIsOnward(s, j, Resume(s, j, hasProvider), seen);
  }

  lemma ClearIsOnward(s: State, j: nat, seen: set<Digest>)
    requires Shaped(s) && j < |s.jobs|
    ensures Onward(s, Clear(s, j), seen)
  {
    StepIsOnward(s, j, Clear(s, j), seen);
  }

  lemma NextIsOnward(m: System, event: Event)
    requires ResultInv(m.gateway, m.world.consumed) && EscrowsInv(m.world)
    ensures Onward(m.gateway, Next(m, event).gateway, Next(m, event).world.consumed)
    ensures m.world.consumed <= Next(m, event).world.consumed
  {
    var s, seen := m.gateway, m.world.consumed;
    match event
    case Call(claim, mode) => EnqueueIsOnward(s, claim, mode, seen);
    case Start(j) => if CanStart(s, j) { StartIsOnward(s, j, seen); }
    case Reply(j, answer) => if j < |s.jobs| { DeliverIsOnward(s, j, answer, seen); }
    case Continue(j, hasProvider) => if j < |s.jobs| { ResumeIsOnward(s, j, hasProvider, seen); }
    case Finally(j) => if j < |s.jobs| { ClearIsOnward(s, j, seen); }
    case ChainStep(step) => ApplyIsLater(m.world, step);
  }

  lemma OnwardIsTransitive(s: State, x: State, y: State, seen: set<Digest>, later: set<Digest>)
    requires Onward(s, x, seen) && Onward(x, y, later) && seen <= later
    ensures Onward(s, y, later)
  {
    forall j | 0 <= j < |s.jobs| ensures JobOnward(s.jobs[j], y.jobs[j]) {
      assert JobOnward(s.jobs[j], x.jobs[j]) && JobOnward(x.jobs[j], y.jobs[j]);
    }
    forall p | 0 <= p < |s.pendings| ensures SameClaim(s.pendings[p], y.pendings[p]) {
      assert SameClaim(s.pendings[p], x.pendings[p]) && SameClaim(x.pendings[p], y.pendings[p]);
    }
  }

  lemma {:induction false} RunIsOnward(m: System, events: seq<Event>)
    requires Inv(m)
    ensures Onward(m.gateway, Run(m, events).gateway, Run(m, events).world.consumed)
    ensures m.world.consumed <= Run(m, events).world.consumed
    decreases events
  {
    if events != [] {
      var next := Next(m, events[0]);
      NextKeepsInv(m, events[0]);
      NextIsOnward(m, events[0]);
      RunIsOnward(next, events[1..]);
      var last := Run(m, events);
      OnwardIsTransitive(m.gateway, next.gateway, last.gateway, next.world.consumed, last.world.consumed);
    }
  }

  /**
   * From any reachable system, over any further run: a job that settled keeps its outcome, and a pending entry is
   * still in the table, under the same claim and mode, unless the registry has consumed its claim by then.
   */
  lemma EntriesOutliveFailures(registry: Address, verifier: Address, events: seq<Event>, later: seq<Event>)
    ensures var m := Reached(registry, verifier, events);
            var n := Run(m, later);
            Onward(m.gateway, n.gateway, n.world.consumed) && m.world.consumed <= n.world.consumed
  {
    ReachedInv(registry, verifier, events);
    RunIsOnward(Reached(registry, verifier, events), later);
  }

  /*** The queue ***/

  /**
   * Works never overlap and start in enqueue order: when a job has started, every earlier job has settled;
   * and a queued job may start exactly when all earlier ones have settled, whether they succeeded or failed.
   */
  lemma QueueIsSerial(registry: Address, verifier: Address, events: seq<Event>, i: nat, j: nat)
    requires i < j < |Reached(registry, verifier, events).gateway.jobs|
    ensures var s := Reached(registry, verifier, events).gateway;
            && (s.jobs[j].phase != Queued ==> Settled(s.jobs[i].phase))
            && (CanStart(s, j) <==> s.jobs[j].phase == Queued && forall k | 0 <= k < j :: Settled(s.jobs[k].phase))
  {
    ReachedQueue(registry, verifier, events);
    StartedAlone(Reached(registry, verifier, events).gateway, i, j);
  }

  lemma ReachedQueue(registry: Address, verifier: Address, events: seq<Event>)
    ensures QueueInv(Reached(registry, verifier, events).gateway)
  {
    ReachedInv(registry, verifier, events);
  }

  lemma StartedAlone(s: State, i: nat, j: nat)
    requires QueueInv(s) && i < j < |s.jobs|
    ensures s.jobs[j].phase != Queued ==> Settled(s.jobs[i].phase)
    ensures CanStart(s, j) <==> s.jobs[j].phase == Queued && forall k | 0 <= k < j :: Settled(s.jobs[k].phase)
  {
    EarlierSettled(s, j);
  }

  lemma EarlierSettled(s: State, j: nat)
    requires QueueInv(s) && 0 < j < |s.jobs|
    ensures s.jobs[j].after == Some(j - 1)
    ensures Settled(s.jobs[j - 1].phase) ==> forall k | 0 <= k < j :: Settled(s.jobs[k].phase)
  {}

  /**
   * While a job of a claim is unsettled it is the only one: a further caller in the same mode gets that job's promise,
   * one in another mode is refused, and neither changes the gateway.
   */
  lemma InFlightIsShared(registry: Address, verifier: Address, events: seq<Event>, j: nat, claim: Claim, mode: Mode)
    requires j < |Reached(registry, verifier, events).gateway.jobs|
    requires var s := Reached(registry, verifier, events).gateway;
             !Settled(s.jobs[j].phase) && JobClaimId(s, j) == ClaimId(claim)
    ensures var s := Reached(registry, verifier, events).gateway;
            && PendingOf(s, j).claim == claim
            && Enqueue(s, claim, mode) == (s, if mode == PendingOf(s, j).mode then Some(j) else None)
            && (forall k: nat | k < |s.jobs| && k != j && !Settled(s.jobs[k].phase) ::
                  JobClaimId(s, k) != ClaimId(claim))
  {
    ReachedInv(registry, verifier, events);
    UnsettledIsShared(Reached(registry, verifier, events).gateway, j, claim, mode);
  }

  lemma UnsettledIsShared(s: State, j: nat, claim: Claim, mode: Mode)
    requires TableInv(s) && j < |s.jobs| && !Settled(s.jobs[j].phase) && JobClaimId(s, j) == ClaimId(claim)
    ensures PendingOf(s, j).claim == claim
    ensures Enqueue(s, claim, mode) == (s, if mode == PendingOf(s, j).mode then Some(j) else None)
    ensures forall k: nat | k < |s.jobs| && k != j && !Settled(s.jobs[k].phase) :: JobClaimId(s, k) != ClaimId(claim)
  {
    UnsettledIsCurrent(s, j);
    forall k: nat | k < |s.jobs| && k != j && !Settled(s.jobs[k].phase) ensures JobClaimId(s, k) != ClaimId(claim) {
      UnsettledIsCurrent(s, k);
    }
  }

  /** A promise that is fulfilled names a claim the registry accepted: consumed, bound, and recorded by its escrow. */
  lemma FulfilledIsAccepted(registry: Address, verifier: Address, events: seq<Event>, j: nat)
    requires j < |Reached(registry, verifier, events).gateway.jobs|
    requires Reached(registry, verifier, events).gateway.jobs[j].phase.Fulfilled?
    ensures var m := Reached(registry, verifier, events);
            var claim := PendingOf(m.gateway, j).claim;
            && m.gateway.jobs[j].phase.result.claimId == ClaimId(claim)
            && ClaimId(claim) in m.world.consumed
            && BoundEscrow(m.world, SourceKey(claim)) == claim.escrow
            && claim.escrow in m.world.escrows
            && m.world.escrows[claim.escrow].storage.verified == ClaimId(claim)
  {
    ReachedInv(registry, verifier, events);
    var m := Reached(registry, verifier, events);
    ConsumedIsRecorded(m.world, PendingOf(m.gateway, j).claim);
  }

  lemma ConsumedIsRecorded(w: World, claim: Claim)
    requires ClaimsInv(w) && ClaimId(claim) in w.consumed
    ensures BoundEscrow(w, SourceKey(claim)) == claim.escrow && claim.escrow in w.escrows
    ensures w.escrows[claim.escrow].storage.verified == ClaimId(claim)
  {
    assert EscrowRecord(w, claim.escrow);
  }

  /*** The chain under a gateway is a chain run ***/

  ghost function Worlds(m: System, events: seq<Event>): (ws: seq<World>)
    requires Shaped(m.gateway)
    ensures |ws| == |events| + 1 && ws[0] == m.world
    decreases events
  {
    if events == [] then [m.world]
    else
      NextKeepsShaped(m, events[0]);
      [m.world] + Worlds(Next(m, events[0]), events[1..])
  }

  lemma NextFollows(m: System, event: Event)
    requires Shaped(m.gateway)
    ensures Follows(m.world, Next(m, event).world)
  {
    if event.ChainStep? {
      assert Next(m, event).world == Apply(m.world, event.step);
    } else {
      assert m.world == Apply(m.world, Deploy(ZERO_ADDRESS, Escrow.Terms(0, 0, 0, ZERO_HASH, ZERO_HASH, 0, 0, false)));
    }
  }

  lemma {:induction false} WorldsFollow(m: System, events: seq<Event>, i: nat)
    requires Shaped(m.gateway) && i < |events|
    ensures Follows(Worlds(m, events)[i], Worlds(m, events)[i + 1])
    decreases events
  {
    NextKeepsShaped(m, events[0]);
    var next := Next(m, events[0]);
    if i == 0 { NextFollows(m, events[0]); } else { WorldsFollow(next, events[1..], i - 1); }
  }

  lemma ChainIsRun(registry: Address, verifier: Address, events: seq<Event>)
    ensures IsRun(Worlds(Fresh(registry, verifier), events))
  {
    var m := Fresh(registry, verifier);
    var run := Worlds(m, events);
    forall i, k {:trigger Follows(run[i], run[k])} | 0 <= i && k == i + 1 && k < |run| ensures Follows(run[i], run[k]) {
      WorldsFollow(m, events, i);
    }
  }

  lemma {:induction false} RunInTwo(m: System, first: seq<Event>, second: seq<Event>)
    requires Shaped(m.gateway)
    ensures Run(m, first + second) == Run(Run(m, first), second)
    ensures Worlds(m, first + second)[|first|] == Run(m, first).world
    decreases first
  {
    if first == [] {
      assert first + second == second;
    } else {
      var next := Next(m, first[0]);
      NextKeepsShaped(m, first[0]);
      assert (first + second)[1..] == first[1..] + second;
      RunInTwo(next, first[1..], second);
    }
  }

  /** The promise handed out by a call is that of a job of this very claim. */
  lemma PromiseIsForClaim(s: State, claim: Claim, mode: Mode, j: nat)
    requires TableInv(s) && Enqueue(s, claim, mode).1 == Some(j)
    ensures var after := Enqueue(s, claim, mode).0;
            Shaped(after) && j < |after.jobs| && PendingOf(after, j).claim == claim
  {
    OpenKeepsTable(s, claim, mode);
    EnqueueKeepsTable(s, claim, mode);
  }

  function Calling(before: seq<Event>, claim: Claim, mode: Mode): seq<Event> {
    before + [Call(claim, mode)]
  }

  /** From its call on, the job behind a promise stays a job of this claim. */
  lemma PromiseStays(registry: Address, verifier: Address, before: seq<Event>, claim: Claim, mode: Mode,
                     during: seq<Event>, j: nat)
    requires Enqueue(Reached(registry, verifier, before).gateway, claim, mode).1 == Some(j)
    ensures var s := Reached(registry, verifier, Calling(before, claim, mode) + during).gateway;
            j < |s.jobs| && PendingOf(s, j).claim == claim
  {
    var m, called := Reached(registry, verifier, before), Reached(registry, verifier, Calling(before, claim, mode));
    ReachedInv(registry, verifier, before);
    PromiseIsForClaim(m.gateway, claim, mode, j);
    RunInTwo(Fresh(registry, verifier), before, [Call(claim, mode)]);
    RunOne(m, Call(claim, mode));
    ReachedInv(registry, verifier, Calling(before, claim, mode));
    RunInTwo(Fresh(registry, verifier), Calling(before, claim, mode), during);
    RunIsOnward(called, during);
    OnwardClaim(called.gateway, Run(called, during).gateway, Run(called, during).world.consumed, j);
  }

  lemma RunOne(m: System, event: Event)
    requires Shaped(m.gateway)
    ensures Run(m, [event]) == Next(m, event)
  {
    NextKeepsShaped(m, event);
    assert [event][1..] == [];
  }

  lemma OnwardClaim(s: State, later: State, seen: set<Digest>, j: nat)
    requires Onward(s, later, seen) && j < |s.jobs|
    ensures j < |later.jobs| && PendingOf(later, j).claim == PendingOf(s, j).claim
  {
    assert JobOnward(s.jobs[j], later.jobs[j]);
    assert SameClaim(s.pendings[s.jobs[j].pending], later.pendings[s.jobs[j].pending]);
  }

  /**
   * What the verifier relies on, whatever happens before, during and after: the chain below the gateway is a run of
   * the ledger, and at the point of it where the promise of a submission has been fulfilled, the result's claim id is
   * the submitted claim's and that claim is consumed.
   */
  lemma SubmissionIsObserved(registry: Address, verifier: Address, before: seq<Event>, claim: Claim, mode: Mode,
                             during: seq<Event>, later: seq<Event>, j: nat)
    requires Enqueue(Reached(registry, verifier, before).gateway, claim, mode).1 == Some(j)
    requires var s := Reached(registry, verifier, Calling(before, claim, mode) + during).gateway;
             j < |s.jobs| && s.jobs[j].phase.Fulfilled?
    ensures var answered := Calling(before, claim, mode) + during;
            var run := Worlds(Fresh(registry, verifier), answered + later);
            && IsRun(run)
            && Reached(registry, verifier, answered).gateway.jobs[j].phase.result.claimId == ClaimId(claim)
            && ClaimId(claim) in run[|answered|].consumed
  {
    var answered := Calling(before, claim, mode) + during;
    PromiseStays(registry, verifier, before, claim, mode, during, j);
    FulfilledIsAccepted(registry, verifier, answered, j);
    ChainIsRun(registry, verifier, answered + later);
    RunInTwo(Fresh(registry, verifier), answered, later);
  }
}
