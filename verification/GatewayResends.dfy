/** Sends that throw after broadcasting, and the second broadcasts they lead to. */
module GatewayResends {
  import opened Digests
  import Escrow
  import opened Registry
  import opened OnePayment
  import opened Gateway
  import opened GatewayRuns

  /** The system with job `j` at another point, all else unchanged. */
  function At(m: System, j: nat, phase: Phase, reply: Option<Answer>): System
    requires j < |m.gateway.jobs|
  {
    m.(gateway := m.gateway.(jobs := m.gateway.jobs[j := m.gateway.jobs[j].(phase := phase, reply := reply)]))
  }

  /** The run of these events ends in `last`. */
  ghost predicate Leads(m: System, events: seq<Event>, last: System)
    decreases events
  {
    Shaped(m.gateway) && if events == [] then m == last else Leads(Next(m, events[0]), events[1..], last)
  }

  lemma {:induction false} LeadsIsRun(m: System, events: seq<Event>, last: System)
    requires Leads(m, events, last)
    ensures Shaped(m.gateway) && Run(m, events) == last
    decreases events
  {
    if events != [] {
      LeadsIsRun(Next(m, events[0]), events[1..], last);
    }
  }

  lemma LeadsFirst(m: System, event: Event, next: System, rest: seq<Event>, last: System)
    requires Shaped(m.gateway) && Next(m, event) == next && Leads(next, rest, last)
    ensures Leads(m, [event] + rest, last)
  {
    assert ([event] + rest)[1..] == rest;
  }

  /** One awaited call of job `j`: the answer arrives and the job runs to its next `await`. */
  function Exchange(j: nat, answer: Answer, rest: seq<Event>): seq<Event> {
    [Reply(j, answer)] + ([Continue(j, true)] + rest)
  }

  lemma ExchangeMoves(m: System, j: nat, phase: Phase, answer: Answer, next: Phase, rest: seq<Event>, last: System)
    requires Shaped(m.gateway) && j < |m.gateway.jobs| && Answerable(At(m, j, phase, None), j, answer)
    requires answer.Address? || answer.Simulated?
    requires !next.Fulfilled?
    requires NextPhase(PendingOf(m.gateway, j), At(m, j, phase, Some(answer)).gateway.jobs[j], true) == Some(next)
    requires Leads(At(m, j, next, None), rest, last)
    ensures Leads(At(m, j, phase, None), Exchange(j, answer, rest), last)
  {
    var answered := At(m, j, phase, Some(answer));
    LeadsFirst(answered, Continue(j, true), At(m, j, next, None), rest, last);
    LeadsFirst(At(m, j, phase, None), Reply(j, answer), answered, [Continue(j, true)] + rest, last);
  }

  function ToBroadcast(j: nat, verifier: nat, claimId: Digest, rest: seq<Event>): seq<Event> {
    [Start(j)]
    + Exchange(j, Address(verifier), Exchange(j, Address(verifier), Exchange(j, Simulated(claimId), rest)))
  }

  /** An unsent claim the registry would accept reaches its broadcast. */
  lemma ReachesBroadcast(m: System, j: nat, rest: seq<Event>, last: System)
    requires Shaped(m.gateway) && CanStart(m.gateway, j)
    requires PendingOf(m.gateway, j).transaction == None
    requires Submit(m.world, m.world.verifier, PendingOf(m.gateway, j).claim, PendingOf(m.gateway, j).mode).Some?
    requires Leads(At(m, j, Broadcasting, None), rest, last)
    ensures Leads(m, ToBroadcast(j, m.world.verifier, JobClaimId(m.gateway, j), rest), last)
  {
    var v, id := m.world.verifier, JobClaimId(m.gateway, j);
    ExchangeMoves(m, j, Simulating, Simulated(id), Broadcasting, rest, last);
    var rest1 := Exchange(j, Simulated(id), rest);
    ExchangeMoves(m, j, ReadingSigner(v), Address(v), Simulating, rest1, last);
    var rest2 := Exchange(j, Address(v), rest1);
    ExchangeMoves(m, j, ReadingVerifier, Address(v), ReadingSigner(v), rest2, last);
    LeadsFirst(m, Start(j), At(m, j, ReadingVerifier, None), Exchange(j, Address(v), rest2), last);
  }

  /** The gateway once the broadcast of job `j` has thrown, its callbacks have run, and the caller has retried. */
  function AfterLostSend(m: System, j: nat): System
    requires Shaped(m.gateway) && j < |m.gateway.jobs|
  {
    var s := m.gateway;
    var p := s.jobs[j].pending;
    m.(gateway := s.(
      unacknowledged := s.unacknowledged + multiset{JobClaimId(s, j)},
      pendings := s.pendings[p := s.pendings[p].(current := Some(|s.jobs|))],
      jobs := s.jobs[j := s.jobs[j].(phase := Rejected, reply := None, cleared := true)]
              + [Job(p, s.tail, Queued, None, false)],
      tail := Some(|s.jobs|)))
  }

  function LostSend(j: nat, claim: Claim, mode: Mode, rest: seq<Event>): seq<Event> {
    [Reply(j, SentButThrew)] + ([Continue(j, true)] + ([Finally(j)] + ([Call(claim, mode)] + rest)))
  }

  /** The send throws after broadcasting, and the job rejects. */
  lemma LostSendRejects(m: System, j: nat, rest: seq<Event>, last: System)
    requires Shaped(m.gateway) && j < |m.gateway.jobs|
    requires m.gateway.jobs[j].phase == Broadcasting && m.gateway.jobs[j].reply == None
    requires Leads(At(Counted(m, j), j, Rejected, None), rest, last)
    ensures Leads(m, [Reply(j, SentButThrew)] + ([Continue(j, true)] + rest), last)
  {
    var thrown := At(Counted(m, j), j, Broadcasting, Some(SentButThrew));
    assert Next(m, Reply(j, SentButThrew)) == thrown;
    LeadsFirst(thrown, Continue(j, true), At(Counted(m, j), j, Rejected, None), rest, last);
    LeadsFirst(m, Reply(j, SentButThrew), thrown, [Continue(j, true)] + rest, last);
  }

  function Counted(m: System, j: nat): System
    requires Shaped(m.gateway) && j < |m.gateway.jobs|
  {
    m.(gateway := m.gateway.(unacknowledged := m.gateway.unacknowledged + multiset{JobClaimId(m.gateway, j)}))
  }

  function RejectedAfterSend(m: System, j: nat): System
    requires Shaped(m.gateway) && j < |m.gateway.jobs|
  {
    At(Counted(m, j), j, Rejected, None)
  }

  lemma LostSendStates(m: System, j: nat)
    requires Shaped(m.gateway) && TableInv(m.gateway) && j < |m.gateway.jobs| && m.gateway.jobs[j].phase == Broadcasting
    ensures var rejected := RejectedAfterSend(m, j).gateway;
            && Shaped(rejected) && Shaped(Clear(rejected, j)) && !rejected.jobs[j].cleared
            && JobClaimId(m.gateway, j) in rejected.table
            && rejected.table[JobClaimId(m.gateway, j)] == m.gateway.jobs[j].pending
            && AfterLostSend(m, j) == m.(gateway := Chain(Clear(rejected, j), m.gateway.jobs[j].pending))
  {}

  lemma LostSendRetries(m: System, j: nat, rest: seq<Event>, last: System)
    requires Shaped(m.gateway) && TableInv(m.gateway) && j < |m.gateway.jobs|
    requires m.gateway.jobs[j].phase == Broadcasting && m.gateway.jobs[j].reply == None
    requires Leads(AfterLostSend(m, j), rest, last)
    ensures Leads(m, LostSend(j, PendingOf(m.gateway, j).claim, PendingOf(m.gateway, j).mode, rest), last)
  {
    LostSendStates(m, j);
    LostSendSteps(m, j, RejectedAfterSend(m, j), rest, last);
  }

  lemma LostSendSteps(m: System, j: nat, rejected: System, rest: seq<Event>, last: System)
    requires Shaped(m.gateway) && j < |m.gateway.jobs| && rejected == RejectedAfterSend(m, j)
    requires m.gateway.jobs[j].phase == Broadcasting && m.gateway.jobs[j].reply == None
    requires Shaped(rejected.gateway) && Shaped(Clear(rejected.gateway, j)) && !rejected.gateway.jobs[j].cleared
    requires JobClaimId(m.gateway, j) in rejected.gateway.table
    requires rejected.gateway.table[JobClaimId(m.gateway, j)] == m.gateway.jobs[j].pending
    requires Leads(m.(gateway := Chain(Clear(rejected.gateway, j), m.gateway.jobs[j].pending)), rest, last)
    ensures Leads(m, LostSend(j, PendingOf(m.gateway, j).claim, PendingOf(m.gateway, j).mode, rest), last)
  {
    var call := [Call(PendingOf(m.gateway, j).claim, PendingOf(m.gateway, j).mode)];
    LostSendCalls(rejected.(gateway := Clear(rejected.gateway, j)), j, rest, last);
    LostSendClears(rejected, j, call + rest, last);
    LostSendRejects(m, j, [Finally(j)] + (call + rest), last);
  }

  lemma LostSendClears(m: System, j: nat, rest: seq<Event>, last: System)
    requires Shaped(m.gateway) && j < |m.gateway.jobs| && m.gateway.jobs[j].phase == Rejected
        && !m.gateway.jobs[j].cleared
    requires Leads(m.(gateway := Clear(m.gateway, j)), rest, last)
    ensures Leads(m, [Finally(j)] + rest, last)
  {
    LeadsFirst(m, Finally(j), m.(gateway := Clear(m.gateway, j)), rest, last);
  }

  /** A call for a claim whose entry is in the table with no current promise. */
  lemma LostSendCalls(m: System, j: nat, rest: seq<Event>, last: System)
    requires Shaped(m.gateway) && j < |m.gateway.jobs| && PendingOf(m.gateway, j).current == None
    requires JobClaimId(m.gateway, j) in m.gateway.table
        && m.gateway.table[JobClaimId(m.gateway, j)] == m.gateway.jobs[j].pending
    requires Leads(m.(gateway := Chain(m.gateway, m.gateway.jobs[j].pending)), rest, last)
    ensures Leads(m, [Call(PendingOf(m.gateway, j).claim, PendingOf(m.gateway, j).mode)] + rest, last)
  {
    LeadsFirst(m, Call(PendingOf(m.gateway, j).claim, PendingOf(m.gateway, j).mode),
               m.(gateway := Chain(m.gateway, m.gateway.jobs[j].pending)), rest, last);
  }

  lemma SecondSend(m: System, j: nat, hash: Digest) returns (events: seq<Event>, last: System)
    requires Shaped(m.gateway) && CanStart(m.gateway, j) && PendingOf(m.gateway, j).transaction == None
    requires Submit(m.world, m.world.verifier, PendingOf(m.gateway, j).claim, PendingOf(m.gateway, j).mode).Some?
    ensures Leads(m, events, last)
    ensures last.gateway.acknowledged == m.gateway.acknowledged + multiset{JobClaimId(m.gateway, j)}
    ensures last.gateway.unacknowledged == m.gateway.unacknowledged
  {
    var sending := At(m, j, Broadcasting, None);
    last := Next(sending, Reply(j, Sent(hash)));
    LeadsFirst(sending, Reply(j, Sent(hash)), last, [], last);
    ReachesBroadcast(m, j, [Reply(j, Sent(hash))] + [], last);
    events := ToBroadcast(j, m.world.verifier, JobClaimId(m.gateway, j), [Reply(j, Sent(hash))] + []);
  }

  /*** The jobs between the lost send and the retry ***/

  /** Jobs `k` to `n`, exclusive, have rejected without a broadcast. */
  function Drained(m: System, k: nat, n: nat): System
    requires k <= n <= |m.gateway.jobs|
    decreases n - k
  {
    if k == n then m else Drained(At(m, k, Rejected, None), k + 1, n)
  }

  function Draining(k: nat, n: nat, rest: seq<Event>): seq<Event>
    requires k <= n
    decreases n - k
  {
    if k == n then rest
    else [Start(k)] + ([Reply(k, Threw)] + ([Continue(k, true)] + Draining(k + 1, n, rest)))
  }

  /** A queued job whose first read throws rejects. */
  lemma ReadThrows(m: System, k: nat, rest: seq<Event>, last: System)
    requires Shaped(m.gateway) && CanStart(m.gateway, k) && Leads(At(m, k, Rejected, None), rest, last)
    ensures Leads(m, [Start(k)] + ([Reply(k, Threw)] + ([Continue(k, true)] + rest)), last)
  {
    var reading, thrown := At(m, k, ReadingVerifier, None), At(m, k, ReadingVerifier, Some(Threw));
    LeadsFirst(thrown, Continue(k, true), At(m, k, Rejected, None), rest, last);
    LeadsFirst(reading, Reply(k, Threw), thrown, [Continue(k, true)] + rest, last);
    LeadsFirst(m, Start(k), reading, [Reply(k, Threw)] + ([Continue(k, true)] + rest), last);
  }

  /** From `k` on every job is queued behind its predecessor, and the one before `k` has settled. */
  ghost predicate QueuedFrom(s: State, k: nat) {
    && Shaped(s) && 0 < k <= |s.jobs| && Settled(s.jobs[k - 1].phase)
    && forall i | k <= i < |s.jobs| :: s.jobs[i].phase == Queued && s.jobs[i].after == Some(i - 1)
  }

  lemma RejectingOne(m: System, k: nat)
    requires QueuedFrom(m.gateway, k) && k < |m.gateway.jobs|
    ensures CanStart(m.gateway, k) && QueuedFrom(At(m, k, Rejected, None).gateway, k + 1)
  {}

  lemma {:induction false} QueueDrains(m: System, k: nat, n: nat, rest: seq<Event>, last: System)
    requires QueuedFrom(m.gateway, k) && k <= n < |m.gateway.jobs| && Leads(Drained(m, k, n), rest, last)
    ensures Leads(m, Draining(k, n, rest), last)
    decreases n - k
  {
    if k < n {
      RejectingOne(m, k);
      QueueDrains(At(m, k, Rejected, None), k + 1, n, rest, last);
      ReadThrows(m, k, Draining(k + 1, n, rest), last);
    }
  }

  lemma {:induction false} DrainedKeeps(m: System, k: nat, n: nat)
    requires QueuedFrom(m.gateway, k) && k <= n < |m.gateway.jobs|
    ensures var s := Drained(m, k, n).gateway;
            && Drained(m, k, n).world == m.world && QueuedFrom(s, n)
            && |s.jobs| == |m.gateway.jobs| && s.jobs[n].pending == m.gateway.jobs[n].pending
            && s.pendings == m.gateway.pendings
            && s.acknowledged == m.gateway.acknowledged && s.unacknowledged == m.gateway.unacknowledged
    decreases n - k
  {
    if k < n {
      RejectingOne(m, k);
      DrainedKeeps(At(m, k, Rejected, None), k + 1, n);
    }
  }

  lemma AfterLostSendQueues(m: System, j: nat)
    requires QueueInv(m.gateway) && j < |m.gateway.jobs| && m.gateway.jobs[j].phase == Broadcasting
    ensures var s, n := AfterLostSend(m, j).gateway, |m.gateway.jobs|;
            && QueuedFrom(s, j + 1) && |s.jobs| == n + 1
            && PendingOf(s, n) == PendingOf(m.gateway, j).(current := Some(n))
  {}

  /** The system whose last job is the retry, about to start. */
  function RetryReady(m: System, j: nat): System
    requires Shaped(m.gateway) && j < |m.gateway.jobs|
  {
    Drained(AfterLostSend(m, j), j + 1, |m.gateway.jobs|)
  }

  lemma RetryIsReady(m: System, j: nat)
    requires QueueInv(m.gateway) && j < |m.gateway.jobs| && m.gateway.jobs[j].phase == Broadcasting
    ensures var ready, n := RetryReady(m, j), |m.gateway.jobs|;
            && ready.world == m.world && Shaped(ready.gateway) && CanStart(ready.gateway, n)
            && PendingOf(ready.gateway, n) == PendingOf(m.gateway, j).(current := Some(n))
            && ready.gateway.acknowledged == m.gateway.acknowledged
            && ready.gateway.unacknowledged == m.gateway.unacknowledged + multiset{JobClaimId(m.gateway, j)}
  {
    AfterLostSendQueues(m, j);
    DrainedKeeps(AfterLostSend(m, j), j + 1, |m.gateway.jobs|);
    RejectingOne(RetryReady(m, j), |m.gateway.jobs|);
  }

  lemma ReadyRetries(m: System, j: nat, rest: seq<Event>, last: System)
    requires QueueInv(m.gateway) && TableInv(m.gateway) && j < |m.gateway.jobs|
    requires m.gateway.jobs[j].phase == Broadcasting && m.gateway.jobs[j].reply == None
    requires Leads(RetryReady(m, j), rest, last)
    ensures var between := Draining(j + 1, |m.gateway.jobs|, rest);
            Leads(m, LostSend(j, PendingOf(m.gateway, j).claim, PendingOf(m.gateway, j).mode, between), last)
  {
    AfterLostSendQueues(m, j);
    QueueDrains(AfterLostSend(m, j), j + 1, |m.gateway.jobs|, rest, last);
    LostSendRetries(m, j, Draining(j + 1, |m.gateway.jobs|, rest), last);
  }

  lemma RetryAfterLostSend(m: System, j: nat, hash: Digest) returns (events: seq<Event>, last: System)
    requires QueueInv(m.gateway) && TableInv(m.gateway) && j < |m.gateway.jobs|
    requires PendingOf(m.gateway, j).transaction == None
    requires m.gateway.jobs[j].phase == Broadcasting && m.gateway.jobs[j].reply == None
    requires Submit(m.world, m.world.verifier, PendingOf(m.gateway, j).claim, PendingOf(m.gateway, j).mode).Some?
    ensures Leads(m, events, last)
    ensures Broadcasts(last.gateway, JobClaimId(m.gateway, j)) == Broadcasts(m.gateway, JobClaimId(m.gateway, j)) + 2
  {
    var n := |m.gateway.jobs|;
    RetryIsReady(m, j);
    var rest;
    rest, last := SecondSend(RetryReady(m, j), n, hash);
    ReadyRetries(m, j, rest, last);
    events := LostSend(j, PendingOf(m.gateway, j).claim, PendingOf(m.gateway, j).mode, Draining(j + 1, n, rest));
  }

  /**
   * The bound is reached: from any reachable system in which a job is broadcasting a claim the registry still accepts,
   * whatever is queued behind it, a send that throws after broadcasting can lead, on the caller's retry, to a second
   * broadcast of the same claim.
   */
  lemma UnacknowledgedSendRepeats(registry: Address, verifier: Address, before: seq<Event>, j: nat, hash: Digest)
    returns (events: seq<Event>)
    requires j < |Reached(registry, verifier, before).gateway.jobs|
    requires var m := Reached(registry, verifier, before);
             && m.gateway.jobs[j].phase == Broadcasting && m.gateway.jobs[j].reply == None
             && Submit(m.world, m.world.verifier, PendingOf(m.gateway, j).claim, PendingOf(m.gateway, j).mode).Some?
    ensures var m := Reached(registry, verifier, before);
            Broadcasts(Run(m, events).gateway, JobClaimId(m.gateway, j))
            == Broadcasts(m.gateway, JobClaimId(m.gateway, j)) + 2
  {
    var m := Reached(registry, verifier, before);
    ReachedInv(registry, verifier, before);
    assert Safe(m.gateway, j);
    var last;
    events, last := RetryAfterLostSend(m, j, hash);
    LeadsIsRun(m, events, last);
  }

  /*** Such systems are reachable ***/

  function Funded(registry: Address, verifier: Address, escrow: Address, t: Escrow.Terms): World {
    Genesis(registry, verifier).(escrows := map[escrow := Deployed(t, FUNDED(t))])
  }

  lemma FundedAccepts(registry: Address, verifier: Address, escrow: Address, t: Escrow.Terms)
    requires Escrow.ValidTerms(t) && t.direct && t.registry == registry && t.buyer != registry && escrow != ZERO_ADDRESS
    ensures var claim := PaymentClaim(escrow, t, Raw(1));
            Submit(Funded(registry, verifier, escrow, t), verifier, claim, DirectSettlement).Some?
    ensures var w := Apply(Genesis(registry, verifier), Deploy(escrow, t));
            Apply(w, Participate(escrow, Escrow.Deposit(t.buyer, t.requiredAmount)))
            == Funded(registry, verifier, escrow, t)
  {
    FundingSteps(Genesis(registry, verifier), escrow, t);
    FundedEscrowAccepts(Funded(registry, verifier, escrow, t), escrow, Raw(1));
  }

  /** The gateway after one call of a claim on a fresh gateway. */
  function CalledOnce(w: World, claim: Claim, mode: Mode): System {
    System(Chain(Open(EMPTY, claim, mode), 0), w)
  }

  lemma CallOnce(w: World, claim: Claim, mode: Mode)
    ensures Shaped(EMPTY) && Next(System(EMPTY, w), Call(claim, mode)) == CalledOnce(w, claim, mode)
    ensures var s := CalledOnce(w, claim, mode).gateway;
            && Shaped(s) && |s.jobs| == 1 && CanStart(s, 0)
            && PendingOf(s, 0) == Pending(claim, mode, None, Some(0))
  {}

  /**
   * For every direct escrow of this registry, one deployment, one deposit and one call lead from a fresh gateway to
   * the broadcast of a claim the registry accepts.
   */
  lemma BroadcastIsReachable(registry: Address, verifier: Address, escrow: Address, t: Escrow.Terms)
    returns (before: seq<Event>)
    requires Escrow.ValidTerms(t) && t.direct && t.registry == registry && t.buyer != registry && escrow != ZERO_ADDRESS
    ensures var m := Reached(registry, verifier, before);
            && |m.gateway.jobs| == 1 && m.gateway.jobs[0].phase == Broadcasting && m.gateway.jobs[0].reply == None
            && PendingOf(m.gateway, 0).claim == PaymentClaim(escrow, t, Raw(1))
            && Broadcasts(m.gateway, ClaimId(PaymentClaim(escrow, t, Raw(1)))) == 0
            && Submit(m.world, m.world.verifier, PendingOf(m.gateway, 0).claim, PendingOf(m.gateway, 0).mode).Some?
  {
    var claim, w := PaymentClaim(escrow, t, Raw(1)), Funded(registry, verifier, escrow, t);
    FundedAccepts(registry, verifier, escrow, t);
    var rest := CallBroadcasts(w, claim, DirectSettlement);
    var last := At(CalledOnce(w, claim, DirectSettlement), 0, Broadcasting, None);
    before := FundingLeads(registry, verifier, escrow, t, rest, last);
    LeadsIsRun(Fresh(registry, verifier), before, last);
  }

  lemma CallBroadcasts(w: World, claim: Claim, mode: Mode) returns (events: seq<Event>)
    requires Submit(w, w.verifier, claim, mode).Some?
    ensures |CalledOnce(w, claim, mode).gateway.jobs| == 1
    ensures Leads(System(EMPTY, w), events, At(CalledOnce(w, claim, mode), 0, Broadcasting, None))
  {
    var called := CalledOnce(w, claim, mode);
    CallOnce(w, claim, mode);
    var last := At(called, 0, Broadcasting, None);
    ReachesBroadcast(called, 0, [], last);
    var rest := ToBroadcast(0, w.verifier, ClaimId(claim), []);
    LeadsFirst(System(EMPTY, w), Call(claim, mode), called, rest, last);
    events := [Call(claim, mode)] + rest;
  }

  lemma FundingLeads(registry: Address, verifier: Address, escrow: Address, t: Escrow.Terms,
                     rest: seq<Event>, last: System) returns (events: seq<Event>)
    requires Escrow.ValidTerms(t) && t.direct && t.registry == registry && t.buyer != registry && escrow != ZERO_ADDRESS
    requires Leads(System(EMPTY, Funded(registry, verifier, escrow, t)), rest, last)
    ensures Leads(Fresh(registry, verifier), events, last)
  {
    var m, w := Fresh(registry, verifier), Funded(registry, verifier, escrow, t);
    var deploy, deposit := Deploy(escrow, t), Participate(escrow, Escrow.Deposit(t.buyer, t.requiredAmount));
    var deployed := Apply(m.world, deploy);
    FundedAccepts(registry, verifier, escrow, t);
    LeadsFirst(System(EMPTY, deployed), ChainStep(deposit), System(EMPTY, w), rest, last);
    LeadsFirst(m, ChainStep(deploy), System(EMPTY, deployed), [ChainStep(deposit)] + rest, last);
    events := [ChainStep(deploy)] + ([ChainStep(deposit)] + rest);
  }

  /** So two broadcasts of one claim are reachable from a fresh gateway, once a send has thrown after broadcasting. */
  lemma SecondBroadcastIsReachable(registry: Address, verifier: Address, escrow: Address, t: Escrow.Terms, hash: Digest)
    returns (events: seq<Event>)
    requires Escrow.ValidTerms(t) && t.direct && t.registry == registry && t.buyer != registry && escrow != ZERO_ADDRESS
    ensures Broadcasts(Reached(registry, verifier, events).gateway, ClaimId(PaymentClaim(escrow, t, Raw(1)))) == 2
  {
    var before := BroadcastIsReachable(registry, verifier, escrow, t);
    var rest := UnacknowledgedSendRepeats(registry, verifier, before, 0, hash);
    events := before + rest;
    RunInTwo(Fresh(registry, verifier), before, rest);
  }
}
