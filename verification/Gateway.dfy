/** The claim submission gateway, `backend/src/attestcoin/ethers-gateways.ts`; every `await` is a scheduling point. */
module Gateway {
  import opened Digests
  import opened Registry

  datatype Acceptance = Acceptance(claimId: Digest, escrow: Address, evidence: Digest, sourceKey: Digest)

  /** A receipt: its status and the first acceptance event in its logs. */
  datatype Receipt = Receipt(status: int, event: Option<Acceptance>)

  datatype Receipted = Receipted(claimId: Digest, transactionHash: Digest)

  /** Where a queued job is suspended. */
  datatype Phase =
    | Queued
    | ReadingVerifier
    | ReadingSigner(verifier: Address)
    | Simulating
    | Broadcasting
    | AwaitingReceipt
    | FetchingReceipt
    | Confirming(consumed: Option<bool>, bound: Option<Address>)
    | Fulfilled(result: Receipted)
    | Rejected

  /** What an awaited call came back with. */
  datatype Answer =
    | Threw
    | Address(address: Address)
    | Simulated(claimId: Digest)
    | Sent(hash: Digest)
    | SentButThrew
    | Mined(receipt: Option<Receipt>)
    | Consumed(consumed: bool)
    | Bound(escrow: Address)

  datatype Pending = Pending(claim: Claim, mode: Mode, transaction: Option<Digest>, current: Option<nat>)

  /** `after` is the tail the job was chained to; `cleared` once its `finally` callback has run. */
  datatype Job = Job(pending: nat, after: Option<nat>, phase: Phase, reply: Option<Answer>, cleared: bool)

  /**
   * `table` is the pending map, `pendings` its objects by identity, `tail` the queue's last promise.
   * `acknowledged` and `unacknowledged` count the broadcasts whose hash came back and those whose did not.
   */
  datatype State = State(
    table: map<Digest, nat>,
    pendings: seq<Pending>,
    jobs: seq<Job>,
    tail: Option<nat>,
    acknowledged: multiset<Digest>,
    unacknowledged: multiset<Digest>)

  const EMPTY := State(map[], [], [], None, multiset{}, multiset{})

  predicate Settled(phase: Phase) {
    phase.Fulfilled? || phase.Rejected?
  }

  predicate Running(job: Job) {
    job.phase != Queued && !Settled(job.phase)
  }

  predicate Shaped(s: State) {
    && (forall id <- s.table :: s.table[id] < |s.pendings|)
    && (forall j | 0 <= j < |s.jobs| :: s.jobs[j].pending < |s.pendings|)
    && (forall j | 0 <= j < |s.jobs| && s.jobs[j].after.Some? :: s.jobs[j].after.value < |s.jobs|)
    && (s.tail.Some? ==> s.tail.value < |s.jobs|)
  }

  function PendingOf(s: State, j: nat): Pending
    requires Shaped(s) && j < |s.jobs|
  {
    s.pendings[s.jobs[j].pending]
  }

  function JobClaimId(s: State, j: nat): Digest
    requires Shaped(s) && j < |s.jobs|
  {
    ClaimId(PendingOf(s, j).claim)
  }

  /*** The synchronous part of a submission ***/

  /** The pending object of a claim, created when there is none. */
  function Open(s: State, claim: Claim, mode: Mode): State {
    if ClaimId(claim) in s.table then s
    else s.(pendings := s.pendings + [Pending(claim, mode, None, None)],
            table := s.table[ClaimId(claim) := |s.pendings|])
  }

  /** A new job for a pending object, chained to the tail of the queue. */
  function Chain(s: State, p: nat): State
    requires p < |s.pendings|
  {
    var j := |s.jobs|;
    s.(jobs := s.jobs + [Job(p, s.tail, Queued, None, false)],
       tail := Some(j),
       pendings := s.pendings[p := s.pendings[p].(current := Some(j))])
  }

  /** The state after the call, and the job whose promise the caller gets; `None` when the call throws. */
  function Enqueue(s: State, claim: Claim, mode: Mode): (State, Option<nat>)
    requires Shaped(s)
  {
    var entered := Open(s, claim, mode);
    var p := entered.table[ClaimId(claim)];
    if entered.pendings[p].mode != mode then (s, None)
    else if entered.pendings[p].current.Some? then (s, entered.pendings[p].current)
    else (Chain(entered, p), Some(|s.jobs|))
  }

  /*** The asynchronous part ***/

  predicate CanStart(s: State, j: nat)
    requires Shaped(s)
  {
    && j < |s.jobs| && s.jobs[j].phase == Queued
    && (s.jobs[j].after.Some? ==> Settled(s.jobs[s.jobs[j].after.value].phase))
  }

  function WithPhase(s: State, j: nat, phase: Phase): State
    requires j < |s.jobs|
  {
    s.(jobs := s.jobs[j := s.jobs[j].(phase := phase, reply := None)])
  }

  /** The receipt check: successful, and carrying this claim's acceptance event. */
  function AfterReceipt(claim: Claim, receipt: Option<Receipt>): Phase {
    if receipt.None? || receipt.value.status != 1 then Rejected
    else if receipt.value.event
            != Some(Acceptance(ClaimId(claim), claim.escrow, claim.evidence, SourceKey(claim))) then Rejected
    else Confirming(None, None)
  }

  /** Where a job goes when its awaited call has answered; `None` while it has not. */
  function NextPhase(pending: Pending, job: Job, hasProvider: bool): Option<Phase> {
    var claim := pending.claim;
    match (job.phase, job.reply)
    case (ReadingVerifier, Some(Address(a))) => Some(ReadingSigner(a))
    case (ReadingSigner(verifier), Some(Address(a))) => Some(if a != verifier then Rejected else Simulating)
    case (Simulating, Some(Simulated(id))) =>
      Some(if id != ClaimId(claim) then Rejected
           else if pending.transaction.None? then Broadcasting else AwaitingReceipt)
    case (Broadcasting, Some(Sent(_))) => Some(AwaitingReceipt)
    case (AwaitingReceipt, Some(Mined(receipt))) => Some(AfterReceipt(claim, receipt))
    case (AwaitingReceipt, Some(_)) => Some(if hasProvider then FetchingReceipt else Rejected)
    case (FetchingReceipt, Some(Mined(receipt))) => Some(AfterReceipt(claim, receipt))
    case (Confirming(Some(consumed), Some(bound)), None) =>
      Some(if !consumed || bound != claim.escrow || pending.transaction.None? then Rejected
           else Fulfilled(Receipted(ClaimId(claim), pending.transaction.value)))
    case (Queued, _) => None
    case (Fulfilled(_), _) => None
    case (Rejected, _) => None
    case (_, Some(_)) => Some(Rejected)
    case (_, None) => None
  }

  /** The segment of `processClaimSubmission` up to its next `await`. */
  function Resume(s: State, j: nat, hasProvider: bool): State
    requires Shaped(s) && j < |s.jobs|
  {
    match NextPhase(PendingOf(s, j), s.jobs[j], hasProvider)
    case None => s
    case Some(phase) =>
      var stored := if Acknowledging(s.jobs[j]) && s.jobs[j].phase == Broadcasting
                    then Store(s, s.jobs[j].pending, s.jobs[j].reply.value.hash) else s;
      var removed := if phase.Fulfilled? then stored.(table := s.table - {JobClaimId(s, j)}) else stored;
      WithPhase(removed, j, phase)
  }

  function Store(s: State, p: nat, hash: Digest): State
    requires p < |s.pendings|
  {
    s.(pendings := s.pendings[p := s.pendings[p].(transaction := Some(hash))])
  }

  predicate Acknowledging(job: Job) {
    job.reply.Some? && job.reply.value.Sent?
  }

  /** The `finally` callback of a settled job. */
  function Clear(s: State, j: nat): State
    requires Shaped(s) && j < |s.jobs|
  {
    var p := s.jobs[j].pending;
    s.(jobs := s.jobs[j := s.jobs[j].(cleared := true)],
       pendings := s.pendings[p := s.pendings[p].(current := None)])
  }

  /*** The gateway on a moving chain ***/

  datatype System = System(gateway: State, world: World)

  datatype Event =
    | Call(claim: Claim, mode: Mode)
    | Start(job: nat)
    | Reply(job: nat, answer: Answer)
    | Continue(job: nat, hasProvider: bool)
    | Finally(job: nat)
    | ChainStep(step: Step)

  /**
   * Answers a node may give at this moment. Anything may throw; a simulation succeeds only when the registry
   * would accept the claim now; the two registry views return what the registry holds now.
   */
  ghost predicate Answerable(m: System, j: nat, answer: Answer)
    requires Shaped(m.gateway) && j < |m.gateway.jobs|
  {
    var job := m.gateway.jobs[j];
    var claim := PendingOf(m.gateway, j).claim;
    && job.reply == None
    && match (job.phase, answer)
       case (ReadingVerifier, Address(a)) => a == m.world.verifier
       case (ReadingSigner(_), Address(_)) => true
       case (Simulating, Simulated(id)) =>
         id == ClaimId(claim) && Submit(m.world, m.world.verifier, claim, PendingOf(m.gateway, j).mode).Some?
       case (Broadcasting, Sent(_)) => true
       case (Broadcasting, SentButThrew) => true
       case (AwaitingReceipt, Mined(_)) => true
       case (FetchingReceipt, Mined(_)) => true
       case (Confirming(c, _), Consumed(consumed)) => c == None && consumed == (ClaimId(claim) in m.world.consumed)
       case (Confirming(_, b), Bound(escrow)) => b == None && escrow == BoundEscrow(m.world, SourceKey(claim))
       case (phase, Threw) => phase != Queued && !Settled(phase)
       case _ => false
  }

  /** One of the two registry views has answered. */
  function WithView(s: State, j: nat, phase: Phase): State
    requires j < |s.jobs|
  {
    s.(jobs := s.jobs[j := s.jobs[j].(phase := phase)])
  }

  function Deliver(s: State, j: nat, answer: Answer): State
    requires Shaped(s) && j < |s.jobs|
  {
    var job := s.jobs[j];
    match answer
    case Consumed(consumed) =>
      if job.phase.Confirming? then WithView(s, j, job.phase.(consumed := Some(consumed))) else s
    case Bound(escrow) =>
      if job.phase.Confirming? then WithView(s, j, job.phase.(bound := Some(escrow))) else s
    case Sent(_) =>
      s.(jobs := s.jobs[j := job.(reply := Some(answer))], acknowledged := s.acknowledged + multiset{JobClaimId(s, j)})
    case SentButThrew =>
      s.(jobs := s.jobs[j := job.(reply := Some(answer))],
          unacknowledged := s.unacknowledged + multiset{JobClaimId(s, j)})
    case _ =>
      s.(jobs := s.jobs[j := job.(reply := Some(answer))])
  }

  /** One scheduling step; a step that is not possible now changes nothing. */
  ghost function Next(m: System, event: Event): System
    requires Shaped(m.gateway)
  {
    var s := m.gateway;
    match event
    case Call(claim, mode) => m.(gateway := Enqueue(s, claim, mode).0)
    case Start(j) => if CanStart(s, j) then m.(gateway := WithPhase(s, j, ReadingVerifier)) else m
    case Reply(j, answer) =>
      if j < |s.jobs| && Answerable(m, j, answer) then m.(gateway := Deliver(s, j, answer)) else m
    case Continue(j, hasProvider) => if j < |s.jobs| then m.(gateway := Resume(s, j, hasProvider)) else m
    case Finally(j) =>
      if j < |s.jobs| && Settled(s.jobs[j].phase) && !s.jobs[j].cleared then m.(gateway := Clear(s, j)) else m
    case ChainStep(step) => m.(world := Apply(m.world, step))
  }

  /*** What every interleaving keeps ***/

  ghost predicate QueueInv(s: State) {
    && Shaped(s)
    && s.tail == (if s.jobs == [] then None else Some(|s.jobs| - 1))
    && (forall j | 0 <= j < |s.jobs| :: s.jobs[j].after == if j == 0 then None else Some(j - 1))
    && (forall i, j | 0 <= i < j < |s.jobs| && s.jobs[j].phase != Queued :: Settled(s.jobs[i].phase))
  }

  ghost predicate TableInv(s: State) {
    && Shaped(s)
    && (forall id <- s.table :: ClaimId(s.pendings[s.table[id]].claim) == id)
    && (forall j | 0 <= j < |s.jobs| && !s.jobs[j].cleared :: PendingOf(s, j).current == Some(j))
    && (forall j | 0 <= j < |s.jobs| && !Settled(s.jobs[j].phase) ::
          !s.jobs[j].cleared && JobClaimId(s, j) in s.table && s.table[JobClaimId(s, j)] == s.jobs[j].pending)
    && (forall p | 0 <= p < |s.pendings| && s.pendings[p].current.Some? ::
          var j := s.pendings[p].current.value;
          j < |s.jobs| && s.jobs[j].pending == p && !s.jobs[j].cleared)
  }

  /** The hash of the one acknowledged broadcast is on its way back, or already stored. */
  predicate Holding(s: State, p: nat)
    requires Shaped(s) && p < |s.pendings|
  {
    || s.pendings[p].transaction.Some?
    || exists j | 0 <= j < |s.jobs| :: s.jobs[j].pending == p && s.jobs[j].phase == Broadcasting
        && Acknowledging(s.jobs[j])
  }

  /** A claim with an acknowledged broadcast is held until the registry has consumed it: `seen` is what it has. */
  ghost predicate HeldInv(s: State, seen: set<Digest>) {
    && Shaped(s)
    && (forall id | id in s.acknowledged && id !in seen :: id in s.table && Holding(s, s.table[id]))
  }

  ghost predicate BroadcastInv(s: State) {
    && Shaped(s)
    && (forall id :: s.acknowledged[id] <= 1)
    && (forall j | 0 <= j < |s.jobs| :: Safe(s, j))
  }

  /** A job that can still broadcast has a claim without an acknowledged broadcast. */
  ghost predicate Safe(s: State, j: nat)
    requires Shaped(s) && j < |s.jobs|
  {
    && (Poised(s, j) ==> PendingOf(s, j).transaction.None? && JobClaimId(s, j) !in s.acknowledged)
    && (s.jobs[j].phase == Broadcasting ==> PendingOf(s, j).transaction.None?)
  }

  /** Job `j` is broadcasting without an acknowledgement yet, or will broadcast when it continues. */
  predicate Poised(s: State, j: nat)
    requires Shaped(s) && j < |s.jobs|
  {
    var job := s.jobs[j];
    if job.phase == Broadcasting then !Acknowledging(job)
    else
      && job.phase == Simulating && PendingOf(s, j).transaction.None?
      && job.reply.Some? && job.reply.value.Simulated?
  }

  ghost predicate ResultInv(s: State, seen: set<Digest>) {
    && Shaped(s)
    && (forall j | 0 <= j < |s.jobs| && s.jobs[j].phase.Fulfilled? ::
          s.jobs[j].phase.result.claimId == JobClaimId(s, j) && JobClaimId(s, j) in seen)
    && (forall j | 0 <= j < |s.jobs| && s.jobs[j].phase.Confirming? && s.jobs[j].phase.consumed == Some(true) ::
          JobClaimId(s, j) in seen)
  }

  /*** Queue order ***/

  lemma EnqueueKeepsQueue(s: State, claim: Claim, mode: Mode)
    requires QueueInv(s)
    ensures QueueInv(Enqueue(s, claim, mode).0)
  {}

  lemma StartKeepsQueue(s: State, j: nat)
    requires QueueInv(s) && CanStart(s, j)
    ensures QueueInv(WithPhase(s, j, ReadingVerifier))
  {}

  lemma DeliverKeepsQueue(s: State, j: nat, answer: Answer)
    requires QueueInv(s) && j < |s.jobs| && Running(s.jobs[j])
    ensures QueueInv(Deliver(s, j, answer))
  {}

  lemma ResumeKeepsQueue(s: State, j: nat, hasProvider: bool)
    requires QueueInv(s) && j < |s.jobs|
    ensures QueueInv(Resume(s, j, hasProvider))
  {}

  lemma ClearKeepsQueue(s: State, j: nat)
    requires QueueInv(s) && j < |s.jobs|
    ensures QueueInv(Clear(s, j))
  {}

  /*** The pending table ***/

  lemma OpenKeepsTable(s: State, claim: Claim, mode: Mode)
    requires TableInv(s)
    ensures TableInv(Open(s, claim, mode))
  {}

  lemma ChainKeepsTable(s: State, p: nat)
    requires TableInv(s) && p < |s.pendings| && s.pendings[p].current == None
    requires ClaimId(s.pendings[p].claim) in s.table && s.table[ClaimId(s.pendings[p].claim)] == p
    ensures TableInv(Chain(s, p))
  {}

  lemma EnqueueKeepsTable(s: State, claim: Claim, mode: Mode)
    requires TableInv(s)
    ensures TableInv(Enqueue(s, claim, mode).0)
  {
    OpenKeepsTable(s, claim, mode);
    var entered := Open(s, claim, mode);
    var p := entered.table[ClaimId(claim)];
    if entered.pendings[p].mode == mode && entered.pendings[p].current.None? { ChainKeepsTable(entered, p); }
  }

  lemma PhaseKeepsTable(s: State, j: nat, phase: Phase)
    requires TableInv(s) && j < |s.jobs| && !Settled(s.jobs[j].phase)
    ensures TableInv(WithPhase(s, j, phase))
  {}

  lemma DeliverKeepsTable(s: State, j: nat, answer: Answer)
    requires TableInv(s) && j < |s.jobs| && Running(s.jobs[j])
    ensures TableInv(Deliver(s, j, answer))
  {
    DeliverIsStep(s, j, answer);
    StepKeepsTable(s, j, Deliver(s, j, answer));
  }

  /** A step that touches neither the table, nor what is current, nor whether its job has settled. */
  lemma StepKeepsTable(s: State, j: nat, after: State)
    requires TableInv(s) && StepOf(s, j, after) && after.table == s.table && after.pendings == s.pendings
    requires after.jobs[j].cleared == s.jobs[j].cleared && Settled(after.jobs[j].phase) == Settled(s.jobs[j].phase)
    ensures TableInv(after)
  {}

  lemma UnsettledIsCurrent(s: State, j: nat)
    requires TableInv(s) && j < |s.jobs| && !Settled(s.jobs[j].phase)
    ensures !s.jobs[j].cleared && PendingOf(s, j).current == Some(j)
    ensures JobClaimId(s, j) in s.table && s.table[JobClaimId(s, j)] == s.jobs[j].pending
  {}

  lemma StoreKeepsTable(s: State, p: nat, hash: Digest)
    requires TableInv(s) && p < |s.pendings|
    ensures TableInv(Store(s, p, hash))
  {}

  lemma FulfilKeepsTable(s: State, j: nat, result: Receipted)
    requires TableInv(s) && j < |s.jobs| && !Settled(s.jobs[j].phase)
    ensures TableInv(WithPhase(s.(table := s.table - {JobClaimId(s, j)}), j, Fulfilled(result)))
  {}

  lemma ResumeKeepsTable(s: State, j: nat, hasProvider: bool)
    requires TableInv(s) && j < |s.jobs|
    ensures TableInv(Resume(s, j, hasProvider))
  {
    var next := NextPhase(PendingOf(s, j), s.jobs[j], hasProvider);
    if next.Some? {
      if next.value.Fulfilled? {
        FulfilKeepsTable(s, j, next.value.result);
      } else if Acknowledging(s.jobs[j]) && s.jobs[j].phase == Broadcasting {
        StoreKeepsTable(s, s.jobs[j].pending, s.jobs[j].reply.value.hash);
        PhaseKeepsTable(Store(s, s.jobs[j].pending, s.jobs[j].reply.value.hash), j, next.value);
      } else {
        PhaseKeepsTable(s, j, next.value);
      }
    }
  }

  lemma ClearKeepsTable(s: State, j: nat)
    requires TableInv(s) && j < |s.jobs| && Settled(s.jobs[j].phase) && !s.jobs[j].cleared
    ensures TableInv(Clear(s, j))
  {}

  /*** Broadcasts ***/

  lemma OnlyOneRuns(s: State, i: nat, j: nat)
    requires QueueInv(s) && i < |s.jobs| && j < |s.jobs| && i != j && Running(s.jobs[j])
    ensures !Running(s.jobs[i])
  {}

  /** A step of job `j` leaves every other job as it was and forgets no transaction. */
  ghost predicate StepOf(s: State, j: nat, after: State) {
    && Shaped(s) && Shaped(after) && j < |s.jobs| == |after.jobs| && |s.pendings| == |after.pendings|
    && (forall i | 0 <= i < |s.jobs| && i != j :: after.jobs[i] == s.jobs[i])
    && after.jobs[j].pending == s.jobs[j].pending
    && (forall p | 0 <= p < |s.pendings| :: SameClaim(s.pendings[p], after.pendings[p]))
  }

  predicate SameClaim(before: Pending, after: Pending) {
    after.claim == before.claim && after.mode == before.mode && (before.transaction.Some? ==> after.transaction.Some?)
  }

  lemma ResumeIsStep(s: State, j: nat, hasProvider: bool)
    requires Shaped(s) && j < |s.jobs|
    ensures StepOf(s, j, Resume(s, j, hasProvider))
  {}

  lemma StepKeepsHeld(s: State, j: nat, after: State, seen: set<Digest>)
    requires HeldInv(s, seen) && StepOf(s, j, after)
    requires s.jobs[j].phase == Broadcasting && Acknowledging(s.jobs[j]) ==> Holding(after, s.jobs[j].pending)
    requires after.acknowledged == s.acknowledged
    requires forall id | id in s.table && id !in seen :: id in after.table && after.table[id] == s.table[id]
    ensures HeldInv(after, seen)
  {
    forall p: nat | p < |s.pendings| && Holding(s, p) ensures Holding(after, p) {
      assert SameClaim(s.pendings[p], after.pendings[p]);
      if s.pendings[p].transaction.None? {
        var i: nat :| i < |s.jobs| && s.jobs[i].pending == p && s.jobs[i].phase == Broadcasting
            && Acknowledging(s.jobs[i]);
        assert i != j ==> after.jobs[i] == s.jobs[i];
      }
    }
  }

  lemma EnqueueKeepsJobs(s: State, claim: Claim, mode: Mode)
    requires Shaped(s)
    ensures var after := Enqueue(s, claim, mode).0;
            && Shaped(after) && |s.jobs| <= |after.jobs|
            && (forall j | 0 <= j < |s.jobs| :: after.jobs[j] == s.jobs[j] && JobClaimId(after, j) == JobClaimId(s, j))
            && |s.pendings| <= |after.pendings|
            && (forall p | 0 <= p < |s.pendings| :: after.pendings[p].transaction == s.pendings[p].transaction)
            && (forall j | |s.jobs| <= j < |after.jobs| :: after.jobs[j].phase == Queued)
  {}

  lemma EnqueueHolds(s: State, claim: Claim, mode: Mode, p: nat)
    requires Shaped(s) && p < |s.pendings| && Holding(s, p)
    ensures Holding(Enqueue(s, claim, mode).0, p)
  {
    EnqueueKeepsJobs(s, claim, mode);
    if s.pendings[p].transaction.None? {
      var j: nat :| j < |s.jobs| && s.jobs[j].pending == p && s.jobs[j].phase == Broadcasting
        && Acknowledging(s.jobs[j]);
      assert Enqueue(s, claim, mode).0.jobs[j] == s.jobs[j];
    }
  }

  lemma EnqueueKeepsHeld(s: State, claim: Claim, mode: Mode, seen: set<Digest>)
    requires HeldInv(s, seen)
    ensures HeldInv(Enqueue(s, claim, mode).0, seen)
  {
    var after := Enqueue(s, claim, mode).0;
    forall id | id in after.acknowledged && id !in seen ensures id in after.table && Holding(after, after.table[id]) {
      EnqueueHolds(s, claim, mode, s.table[id]);
    }
  }

  lemma SentKeepsHeld(s: State, j: nat, hash: Digest, seen: set<Digest>)
    requires TableInv(s) && HeldInv(s, seen) && j < |s.jobs| && s.jobs[j].phase == Broadcasting
    ensures HeldInv(Deliver(s, j, Sent(hash)), seen)
  {
    var after := Deliver(s, j, Sent(hash));
    assert after.jobs[j].pending == s.jobs[j].pending && Acknowledging(after.jobs[j]);
    assert Holding(after, s.jobs[j].pending);
    StepKeepsHeld(s, j, after.(acknowledged := s.acknowledged), seen);
  }

  /** While job `j` simulates, a claim is held only by its transaction. */
  lemma SimulatingHoldsNothing(s: State, j: nat)
    requires QueueInv(s) && j < |s.jobs| && s.jobs[j].phase == Simulating && PendingOf(s, j).transaction.None?
    ensures !Holding(s, s.jobs[j].pending)
  {
    forall i: nat | i < |s.jobs| ensures s.jobs[i].phase != Broadcasting {
      if i != j { OnlyOneRuns(s, i, j); }
    }
  }

  lemma SimulatingIsFresh(s: State, j: nat, seen: set<Digest>)
    requires QueueInv(s) && TableInv(s) && HeldInv(s, seen) && j < |s.jobs|
    requires s.jobs[j].phase == Simulating && JobClaimId(s, j) !in seen && PendingOf(s, j).transaction.None?
    ensures JobClaimId(s, j) !in s.acknowledged
  {
    UnsettledIsCurrent(s, j);
    SimulatingHoldsNothing(s, j);
  }

  lemma SafeElsewhere(s: State, j: nat, after: State, i: nat)
    requires QueueInv(s) && StepOf(s, j, after) && Running(s.jobs[j]) && i < |s.jobs| && i != j
    ensures Safe(after, i)
  {
    OnlyOneRuns(s, i, j);
  }

  lemma DeliverIsStep(s: State, j: nat, answer: Answer)
    requires Shaped(s) && j < |s.jobs|
    ensures StepOf(s, j, Deliver(s, j, answer))
  {}

  lemma DeliverIsSafe(s: State, j: nat, answer: Answer)
    requires Shaped(s) && j < |s.jobs| && Safe(s, j) && s.jobs[j].reply == None
    requires answer.Simulated? && s.jobs[j].phase == Simulating && PendingOf(s, j).transaction.None? ==>
               JobClaimId(s, j) !in s.acknowledged
    requires s.jobs[j].phase == Broadcasting ==> !answer.Simulated?
    ensures Safe(Deliver(s, j, answer), j)
  {}

  lemma DeliverKeepsBroadcasts(s: State, j: nat, answer: Answer, seen: set<Digest>)
    requires QueueInv(s) && TableInv(s) && HeldInv(s, seen) && BroadcastInv(s)
    requires j < |s.jobs| && Running(s.jobs[j]) && s.jobs[j].reply == None
    requires answer.Sent? ==> s.jobs[j].phase == Broadcasting
    requires answer.Simulated? ==> s.jobs[j].phase == Simulating && JobClaimId(s, j) !in seen
    ensures BroadcastInv(Deliver(s, j, answer))
  {
    DeliverIsStep(s, j, answer);
    if answer.Simulated? && PendingOf(s, j).transaction.None? { SimulatingIsFresh(s, j, seen); }
    DeliverIsSafe(s, j, answer);
    forall i: nat | i < |s.jobs| ensures Safe(Deliver(s, j, answer), i) {
      if i != j { SafeElsewhere(s, j, Deliver(s, j, answer), i); }
    }
    DeliverCounts(s, j, answer);
  }

  lemma DeliverCounts(s: State, j: nat, answer: Answer)
    requires Shaped(s) && j < |s.jobs| && Safe(s, j) && (forall id :: s.acknowledged[id] <= 1)
    requires answer.Sent? ==> s.jobs[j].phase == Broadcasting && s.jobs[j].reply == None
    ensures forall id :: Deliver(s, j, answer).acknowledged[id] <= 1
  {}

  lemma ResumeKeepsBroadcasts(s: State, j: nat, hasProvider: bool)
    requires QueueInv(s) && BroadcastInv(s) && j < |s.jobs|
    ensures BroadcastInv(Resume(s, j, hasProvider))
  {
    var after := Resume(s, j, hasProvider);
    if Running(s.jobs[j]) {
      ResumeIsStep(s, j, hasProvider);
      assert Safe(s, j);
      assert Safe(after, j);
      forall i: nat | i < |after.jobs| ensures Safe(after, i) {
        if i != j { SafeElsewhere(s, j, after, i); }
      }
    }
  }

  /** Steps that neither start nor acknowledge a broadcast. */
  lemma QuietKeepsBroadcasts(s: State, after: State)
    requires BroadcastInv(s) && Shaped(after) && after.acknowledged == s.acknowledged
    requires |s.jobs| <= |after.jobs| && |s.pendings| <= |after.pendings|
    requires forall i | 0 <= i < |after.jobs| && Running(after.jobs[i]) && after.jobs[i].phase != ReadingVerifier ::
               i < |s.jobs| && after.jobs[i] == s.jobs[i]
    requires forall p | 0 <= p < |s.pendings| ::
               after.pendings[p] == s.pendings[p].(current := after.pendings[p].current)
    ensures BroadcastInv(after)
  {
    forall i: nat | i < |after.jobs| ensures Safe(after, i) {
      if i < |s.jobs| && after.jobs[i] == s.jobs[i] { assert Safe(s, i); }
    }
  }

  lemma ResumeKeepsHeld(s: State, j: nat, hasProvider: bool, seen: set<Digest>)
    requires HeldInv(s, seen) && ResultInv(s, seen) && j < |s.jobs|
    ensures HeldInv(Resume(s, j, hasProvider), seen)
  {
    ResumeIsStep(s, j, hasProvider);
    StepKeepsHeld(s, j, Resume(s, j, hasProvider), seen);
  }

  /*** Results ***/

  lemma StepKeepsResults(s: State, j: nat, after: State, seen: set<Digest>)
    requires ResultInv(s, seen) && StepOf(s, j, after)
    requires after.jobs[j].phase.Fulfilled? && !s.jobs[j].phase.Fulfilled? ==>
               after.jobs[j].phase.result.claimId == JobClaimId(s, j) && JobClaimId(s, j) in seen
    requires after.jobs[j].phase.Confirming? && after.jobs[j].phase.consumed == Some(true) ==> JobClaimId(s, j) in seen
    requires s.jobs[j].phase.Fulfilled? ==> after.jobs[j].phase == s.jobs[j].phase
    ensures ResultInv(after, seen)
  {
    forall i | 0 <= i < |s.jobs| ensures JobClaimId(after, i) == JobClaimId(s, i) {
      assert SameClaim(PendingOf(s, i), PendingOf(after, i));
    }
  }

  lemma ResumeKeepsResults(s: State, j: nat, hasProvider: bool, seen: set<Digest>)
    requires ResultInv(s, seen) && j < |s.jobs|
    ensures ResultInv(Resume(s, j, hasProvider), seen)
  {
    ResumeIsStep(s, j, hasProvider);
    StepKeepsResults(s, j, Resume(s, j, hasProvider), seen);
  }

  lemma EnqueueKeepsResults(s: State, claim: Claim, mode: Mode, seen: set<Digest>)
    requires ResultInv(s, seen)
    ensures ResultInv(Enqueue(s, claim, mode).0, seen)
  {
    var after := Enqueue(s, claim, mode).0;
    forall i | 0 <= i < |s.jobs| ensures after.jobs[i] == s.jobs[i] && JobClaimId(after, i) == JobClaimId(s, i) {}
  }

  /*** Every run ***/

  ghost predicate Inv(m: System) {
    WorldInv(m.world) && QueueInv(m.gateway) && TableInv(m.gateway) && SendInv(m.gateway, m.world.consumed)
  }

  lemma EnqueueKeepsBroadcasts(s: State, claim: Claim, mode: Mode)
    requires BroadcastInv(s)
    ensures BroadcastInv(Enqueue(s, claim, mode).0)
  {
    QuietKeepsBroadcasts(s, Enqueue(s, claim, mode).0);
  }

  /** A step of one job that neither broadcasts, acknowledges nor settles. */
  lemma QuietStep(s: State, j: nat, after: State, seen: set<Digest>)
    requires BroadcastInv(s) && HeldInv(s, seen) && ResultInv(s, seen) && StepOf(s, j, after)
    requires after.acknowledged == s.acknowledged && after.table == s.table
    requires !Running(s.jobs[j])
    requires || after.jobs[j].phase == s.jobs[j].phase
             || (s.jobs[j].phase == Queued && after.jobs[j].phase == ReadingVerifier)
    requires forall p | 0 <= p < |s.pendings| ::
               after.pendings[p] == s.pendings[p].(current := after.pendings[p].current)
    ensures BroadcastInv(after) && HeldInv(after, seen) && ResultInv(after, seen)
  {
    StepKeepsHeld(s, j, after, seen);
    StepKeepsResults(s, j, after, seen);
    QuietKeepsBroadcasts(s, after);
  }

  lemma StartIsQuiet(s: State, j: nat, seen: set<Digest>)
    requires BroadcastInv(s) && HeldInv(s, seen) && ResultInv(s, seen) && CanStart(s, j)
    ensures var after := WithPhase(s, j, ReadingVerifier);
            BroadcastInv(after) && HeldInv(after, seen) && ResultInv(after, seen)
  {
    QuietStep(s, j, WithPhase(s, j, ReadingVerifier), seen);
  }

  lemma DeliverKeepsHeld(s: State, j: nat, answer: Answer, seen: set<Digest>)
    requires TableInv(s) && HeldInv(s, seen) && j < |s.jobs| && s.jobs[j].reply == None
    requires answer.Sent? ==> s.jobs[j].phase == Broadcasting
    ensures HeldInv(Deliver(s, j, answer), seen)
  {
    DeliverIsStep(s, j, answer);
    if answer.Sent? { SentKeepsHeld(s, j, answer.hash, seen); }
    else { StepKeepsHeld(s, j, Deliver(s, j, answer), seen); }
  }

  lemma DeliverKeepsResults(s: State, j: nat, answer: Answer, seen: set<Digest>)
    requires ResultInv(s, seen) && j < |s.jobs|
    requires answer == Consumed(true) ==> JobClaimId(s, j) in seen
    ensures ResultInv(Deliver(s, j, answer), seen)
  {
    DeliverIsStep(s, j, answer);
    StepKeepsResults(s, j, Deliver(s, j, answer), seen);
  }

  /** What the answers a node can give tell the gateway. */
  lemma AnswerFits(m: System, j: nat, answer: Answer)
    requires Shaped(m.gateway) && j < |m.gateway.jobs| && Answerable(m, j, answer)
    ensures Running(m.gateway.jobs[j]) && m.gateway.jobs[j].reply == None
    ensures answer.Sent? ==> m.gateway.jobs[j].phase == Broadcasting
    ensures answer.Simulated? ==> m.gateway.jobs[j].phase == Simulating && JobClaimId(m.gateway, j) !in m.world.consumed
    ensures answer == Consumed(true) ==> JobClaimId(m.gateway, j) in m.world.consumed
  {}

  lemma ClearIsQuiet(s: State, j: nat, seen: set<Digest>)
    requires BroadcastInv(s) && HeldInv(s, seen) && ResultInv(s, seen) && j < |s.jobs| && Settled(s.jobs[j].phase)
    ensures var after := Clear(s, j);
            BroadcastInv(after) && HeldInv(after, seen) && ResultInv(after, seen)
  {
    QuietStep(s, j, Clear(s, j), seen);
  }

  lemma NextKeepsQueue(m: System, event: Event)
    requires QueueInv(m.gateway)
    ensures QueueInv(Next(m, event).gateway)
  {
    var s := m.gateway;
    match event
    case Call(claim, mode) => EnqueueKeepsQueue(s, claim, mode);
    case Start(j) => if CanStart(s, j) { StartKeepsQueue(s, j); }
    case Reply(j, answer) =>
      if j < |s.jobs| && Answerable(m, j, answer) { AnswerFits(m, j, answer); DeliverKeepsQueue(s, j, answer); }
    case Continue(j, hasProvider) => if j < |s.jobs| { ResumeKeepsQueue(s, j, hasProvider); }
    case Finally(j) => if j < |s.jobs| { ClearKeepsQueue(s, j); }
    case ChainStep(_) =>
  }

  lemma NextKeepsTable(m: System, event: Event)
    requires TableInv(m.gateway)
    ensures TableInv(Next(m, event).gateway)
  {
    var s := m.gateway;
    match event
    case Call(claim, mode) => EnqueueKeepsTable(s, claim, mode);
    case Start(j) => if CanStart(s, j) { PhaseKeepsTable(s, j, ReadingVerifier); }
    case Reply(j, answer) =>
      if j < |s.jobs| && Answerable(m, j, answer) { AnswerFits(m, j, answer); DeliverKeepsTable(s, j, answer); }
    case Continue(j, hasProvider) => if j < |s.jobs| { ResumeKeepsTable(s, j, hasProvider); }
    case Finally(j) => if j < |s.jobs| && Settled(s.jobs[j].phase) && !s.jobs[j].cleared { ClearKeepsTable(s, j); }
    case ChainStep(_) =>
  }

  /** The part of the invariant that speaks of broadcasts and results. */
  ghost predicate SendInv(s: State, seen: set<Digest>) {
    HeldInv(s, seen) && BroadcastInv(s) && ResultInv(s, seen)
  }

  lemma EnqueueKeepsSends(s: State, claim: Claim, mode: Mode, seen: set<Digest>)
    requires SendInv(s, seen)
    ensures SendInv(Enqueue(s, claim, mode).0, seen)
  {
    EnqueueKeepsHeld(s, claim, mode, seen);
    EnqueueKeepsResults(s, claim, mode, seen);
    EnqueueKeepsBroadcasts(s, claim, mode);
  }

  lemma ReplyKeepsSends(m: System, j: nat, answer: Answer)
    requires QueueInv(m.gateway) && TableInv(m.gateway) && SendInv(m.gateway, m.world.consumed)
    requires j < |m.gateway.jobs| && Answerable(m, j, answer)
    ensures SendInv(Deliver(m.gateway, j, answer), m.world.consumed)
  {
    AnswerFits(m, j, answer);
    DeliverKeepsBroadcasts(m.gateway, j, answer, m.world.consumed);
    DeliverKeepsHeld(m.gateway, j, answer, m.world.consumed);
    DeliverKeepsResults(m.gateway, j, answer, m.world.consumed);
  }

  lemma ResumeKeepsSends(s: State, j: nat, hasProvider: bool, seen: set<Digest>)
    requires QueueInv(s) && SendInv(s, seen) && j < |s.jobs|
    ensures SendInv(Resume(s, j, hasProvider), seen)
  {
    ResumeKeepsHeld(s, j, hasProvider, seen);
    ResumeKeepsBroadcasts(s, j, hasProvider);
    ResumeKeepsResults(s, j, hasProvider, seen);
  }

  lemma NextKeepsSends(m: System, event: Event)
    requires QueueInv(m.gateway) && TableInv(m.gateway) && SendInv(m.gateway, m.world.consumed) && EscrowsInv(m.world)
    ensures SendInv(Next(m, event).gateway, Next(m, event).world.consumed)
  {
    var s, seen := m.gateway, m.world.consumed;
    match event
    case Call(claim, mode) => EnqueueKeepsSends(s, claim, mode, seen);
    case Start(j) => if CanStart(s, j) { StartIsQuiet(s, j, seen); }
    case Reply(j, answer) => if j < |s.jobs| && Answerable(m, j, answer) { ReplyKeepsSends(m, j, answer); }
    case Continue(j, hasProvider) => if j < |s.jobs| { ResumeKeepsSends(s, j, hasProvider, seen); }
    case Finally(j) => if j < |s.jobs| && Settled(s.jobs[j].phase) && !s.jobs[j].cleared { ClearIsQuiet(s, j, seen); }
    case ChainStep(step) => ApplyIsLater(m.world, step);
  }

  lemma NextKeepsWorld(m: System, event: Event)
    requires Shaped(m.gateway) && WorldInv(m.world)
    ensures WorldInv(Next(m, event).world)
  {
    if event.ChainStep? {
      ApplyKeepsClaims(m.world, event.step);
      ApplyKeepsEscrows(m.world, event.step);
    }
  }

  /** Every scheduling step keeps all of it. */
  lemma NextKeepsInv(m: System, event: Event)
    requires Inv(m)
    ensures Inv(Next(m, event))
  {
    NextKeepsWorld(m, event);
    NextKeepsQueue(m, event);
    NextKeepsTable(m, event);
    NextKeepsSends(m, event);
  }

  function Fresh(registry: Address, verifier: Address): (m: System)
    ensures Inv(m)
  {
    System(EMPTY, Genesis(registry, verifier))
  }

  lemma NextKeepsShaped(m: System, event: Event)
    requires Shaped(m.gateway)
    ensures Shaped(Next(m, event).gateway)
  {
    var s := m.gateway;
    match event
    case Call(claim, mode) => assert Shaped(Enqueue(s, claim, mode).0);
    case Reply(j, answer) => if j < |s.jobs| { DeliverIsStep(s, j, answer); }
    case Continue(j, hasProvider) => if j < |s.jobs| { ResumeIsStep(s, j, hasProvider); }
    case _ =>
  }

  /** The system after any interleaving of calls, answers, continuations and foreign chain activity. */
  ghost function Run(m: System, events: seq<Event>): (after: System)
    requires Shaped(m.gateway)
    ensures Shaped(after.gateway)
    decreases events
  {
    if events == [] then m
    else
      NextKeepsShaped(m, events[0]);
      Run(Next(m, events[0]), events[1..])
  }

  lemma {:induction false} RunKeepsInv(m: System, events: seq<Event>)
    requires Inv(m)
    ensures Inv(Run(m, events))
    decreases events
  {
    if events != [] {
      NextKeepsInv(m, events[0]);
      RunKeepsInv(Next(m, events[0]), events[1..]);
    }
  }

  /** The system some events after a fresh gateway on a new chain. */
  ghost function Reached(registry: Address, verifier: Address, events: seq<Event>): (m: System)
    ensures Shaped(m.gateway)
  {
    Run(Fresh(registry, verifier), events)
  }

  lemma ReachedInv(registry: Address, verifier: Address, events: seq<Event>)
    ensures Inv(Reached(registry, verifier, events))
  {
    RunKeepsInv(Fresh(registry, verifier), events);
  }
}
