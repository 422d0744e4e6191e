/** Where the results of a gateway come from: the answers its jobs were given. */
module GatewayHistory {
  import opened Digests
  import opened Registry
  import opened Gateway
  import opened GatewayRuns

  /*** What the answers of a run amount to ***/

  /** The answer this event delivers to a job, if it can be given now. */
  ghost predicate Delivers(m: System, event: Event, j: nat, answer: Answer)
    requires Shaped(m.gateway)
  {
    event == Reply(j, answer) && j < |m.gateway.jobs| && Answerable(m, j, answer)
  }

  /** A transaction hash that came back from broadcasting a claim. */
  datatype Broadcast = Broadcast(claim: Claim, hash: Digest)

  /** A receipt a job was shown. */
  datatype Shown = Shown(job: nat, receipt: Receipt)

  ghost function SentNow(m: System, event: Event): set<Broadcast>
    requires Shaped(m.gateway)
  {
    if event.Reply? && event.answer.Sent? && Delivers(m, event, event.job, event.answer)
    then {Broadcast(PendingOf(m.gateway, event.job).claim, event.answer.hash)} else {}
  }

  ghost function ShownNow(m: System, event: Event): set<Shown>
    requires Shaped(m.gateway)
  {
    if event.Reply? && event.answer.Mined? && event.answer.receipt.Some? && Delivers(m, event, event.job, event.answer)
    then {Shown(event.job, event.answer.receipt.value)} else {}
  }

  /** Whether the event broadcasts a transaction of this claim, learned of or not. */
  ghost function CountNow(m: System, event: Event, id: Digest): nat
    requires Shaped(m.gateway)
  {
    if && event.Reply? && (event.answer.Sent? || event.answer.SentButThrew?)
       && Delivers(m, event, event.job, event.answer) && JobClaimId(m.gateway, event.job) == id
    then 1 else 0
  }

  ghost function Sent(m: System, events: seq<Event>): set<Broadcast>
    requires Shaped(m.gateway)
    decreases events
  {
    if events == [] then {}
    else
      NextKeepsShaped(m, events[0]);
      SentNow(m, events[0]) + Sent(Next(m, events[0]), events[1..])
  }

  ghost function ShownAll(m: System, events: seq<Event>): set<Shown>
    requires Shaped(m.gateway)
    decreases events
  {
    if events == [] then {}
    else
      NextKeepsShaped(m, events[0]);
      ShownNow(m, events[0]) + ShownAll(Next(m, events[0]), events[1..])
  }

  ghost function Count(m: System, events: seq<Event>, id: Digest): nat
    requires Shaped(m.gateway)
    decreases events
  {
    if events == [] then 0
    else
      NextKeepsShaped(m, events[0]);
      CountNow(m, events[0], id) + Count(Next(m, events[0]), events[1..], id)
  }

  /*** The counters are the broadcasts of the run ***/

  lemma NextCounts(m: System, event: Event, id: Digest)
    requires Shaped(m.gateway)
    ensures Broadcasts(Next(m, event).gateway, id) == Broadcasts(m.gateway, id) + CountNow(m, event, id)
  {
    var s := m.gateway;
    match event
    case Call(claim, mode) => EnqueueCounts(s, claim, mode, id);
    case Continue(j, hasProvider) => if j < |s.jobs| { ResumeCounts(s, j, hasProvider, id); }
    case Reply(j, answer) => if j < |s.jobs| && Answerable(m, j, answer) { AnswerFits(m, j, answer); }
    case _ =>
  }

  lemma EnqueueCounts(s: State, claim: Claim, mode: Mode, id: Digest)
    requires Shaped(s)
    ensures Broadcasts(Enqueue(s, claim, mode).0, id) == Broadcasts(s, id)
  {}

  lemma ResumeCounts(s: State, j: nat, hasProvider: bool, id: Digest)
    requires Shaped(s) && j < |s.jobs|
    ensures Broadcasts(Resume(s, j, hasProvider), id) == Broadcasts(s, id)
  {}

  /** The broadcasts counted for a claim are the answered sends of its jobs in the run, one by one. */
  lemma {:induction false} CountsAreBroadcasts(m: System, events: seq<Event>, id: Digest)
    requires Shaped(m.gateway)
    ensures Broadcasts(Run(m, events).gateway, id) == Broadcasts(m.gateway, id) + Count(m, events, id)
    decreases events
  {
    if events != [] {
      NextKeepsShaped(m, events[0]);
      NextCounts(m, events[0], id);
      CountsAreBroadcasts(Next(m, events[0]), events[1..], id);
    }
  }

  /*** What jobs hold ***/

  /** The acceptance event of this claim in a successful receipt. */
  predicate Accepts(claim: Claim, receipt: Receipt) {
    && receipt.status == 1 && receipt.event.Some?
    && receipt.event.value.claimId == ClaimId(claim) && receipt.event.value.escrow == claim.escrow
    && receipt.event.value.evidence == claim.evidence && receipt.event.value.sourceKey == SourceKey(claim)
  }

  /** Stored hashes were sent for the entry's claim, and a fulfilled job returned its entry's. */
  ghost predicate HashInv(s: State, sent: set<Broadcast>) {
    && Shaped(s)
    && (forall p | 0 <= p < |s.pendings| && s.pendings[p].transaction.Some? ::
          Broadcast(s.pendings[p].claim, s.pendings[p].transaction.value) in sent)
    && (forall j | 0 <= j < |s.jobs| :: HashOf(s, j, sent))
  }

  predicate HashOf(s: State, j: nat, sent: set<Broadcast>)
    requires Shaped(s) && j < |s.jobs|
  {
    var job, entry := s.jobs[j], PendingOf(s, j);
    && (job.phase == Broadcasting && Acknowledging(job) ==> Broadcast(entry.claim, job.reply.value.hash) in sent)
    && (job.phase.Fulfilled? ==> entry.transaction == Some(job.phase.result.transactionHash))
  }

  /** A job past the receipt check was shown a receipt that accepts its claim. */
  ghost predicate ReceiptInv(s: State, shown: set<Shown>) {
    Shaped(s) && forall j | 0 <= j < |s.jobs| :: ReceiptOf(s, j, shown)
  }

  ghost predicate ReceiptOf(s: State, j: nat, shown: set<Shown>)
    requires Shaped(s) && j < |s.jobs|
  {
    var job := s.jobs[j];
    && (Inspecting(job) && job.reply.value.receipt.Some? ==> Shown(j, job.reply.value.receipt.value) in shown)
    && (job.phase.Confirming? || job.phase.Fulfilled? ==>
          exists x | x in shown :: x.job == j && Accepts(PendingOf(s, j).claim, x.receipt))
  }

  predicate Inspecting(job: Job) {
    (job.phase == AwaitingReceipt || job.phase == FetchingReceipt) && job.reply.Some? && job.reply.value.Mined?
  }

  lemma MoreSent(s: State, sent: set<Broadcast>, more: set<Broadcast>)
    requires HashInv(s, sent) && sent <= more
    ensures HashInv(s, more)
  {
    forall j: nat | j < |s.jobs| ensures HashOf(s, j, more) { assert HashOf(s, j, sent); }
  }

  lemma MoreShown(s: State, shown: set<Shown>, more: set<Shown>)
    requires ReceiptInv(s, shown) && shown <= more
    ensures ReceiptInv(s, more)
  {
    forall j: nat | j < |s.jobs| ensures ReceiptOf(s, j, more) { assert ReceiptOf(s, j, shown); }
  }

  /** Every other job holds what it held, as long as no entry changes its claim or its stored hash. */
  predicate KeepsEntries(s: State, after: State) {
    && |s.pendings| <= |after.pendings|
    && forall p | 0 <= p < |s.pendings| ::
         && after.pendings[p].claim == s.pendings[p].claim
         && (s.pendings[p].transaction.Some? ==> after.pendings[p].transaction == s.pendings[p].transaction)
  }

  lemma StepKeepsHashes(s: State, j: nat, after: State, sent: set<Broadcast>)
    requires HashInv(s, sent) && StepOf(s, j, after) && KeepsEntries(s, after) && HashOf(after, j, sent)
    requires var p := s.jobs[j].pending;
             && (after.pendings[p].transaction.Some? ==>
                   Broadcast(s.pendings[p].claim, after.pendings[p].transaction.value) in sent)
             && forall q | 0 <= q < |s.pendings| && q != p :: after.pendings[q].transaction == s.pendings[q].transaction
    ensures HashInv(after, sent)
  {
    forall i: nat | i < |s.jobs| ensures HashOf(after, i, sent) {
      assert HashOf(s, i, sent);
    }
  }

  lemma StepKeepsReceipts(s: State, j: nat, after: State, shown: set<Shown>)
    requires ReceiptInv(s, shown) && StepOf(s, j, after) && ReceiptOf(after, j, shown)
    ensures ReceiptInv(after, shown)
  {
    forall i: nat | i < |s.jobs| ensures ReceiptOf(after, i, shown) {
      assert ReceiptOf(s, i, shown);
      assert SameClaim(s.pendings[s.jobs[i].pending], after.pendings[s.jobs[i].pending]);
    }
  }

  lemma EnqueueKeepsHistory(s: State, claim: Claim, mode: Mode, sent: set<Broadcast>, shown: set<Shown>)
    requires HashInv(s, sent) && ReceiptInv(s, shown)
    ensures HashInv(Enqueue(s, claim, mode).0, sent) && ReceiptInv(Enqueue(s, claim, mode).0, shown)
  {
    var after := Enqueue(s, claim, mode).0;
    EnqueueKeepsJobs(s, claim, mode);
    EnqueueKeepsEntries(s, claim, mode);
    forall i: nat | i < |after.jobs| ensures HashOf(after, i, sent) && ReceiptOf(after, i, shown) {
      if i < |s.jobs| { assert HashOf(s, i, sent) && ReceiptOf(s, i, shown); }
    }
  }

  lemma EnqueueKeepsEntries(s: State, claim: Claim, mode: Mode)
    requires Shaped(s)
    ensures var after := Enqueue(s, claim, mode).0;
            && KeepsEntries(s, after)
            && forall p | 0 <= p < |after.pendings| && after.pendings[p].transaction.Some? ::
                 p < |s.pendings| && after.pendings[p].transaction == s.pendings[p].transaction
  {}

  lemma DeliverKeepsHistory(m: System, j: nat, answer: Answer, sent: set<Broadcast>, shown: set<Shown>)
    requires HashInv(m.gateway, sent) && ReceiptInv(m.gateway, shown)
    requires j < |m.gateway.jobs| && Answerable(m, j, answer)
    ensures var after := Deliver(m.gateway, j, answer);
            && HashInv(after, sent + SentNow(m, Reply(j, answer)))
            && ReceiptInv(after, shown + ShownNow(m, Reply(j, answer)))
  {
    var s := m.gateway;
    var more, seen := sent + SentNow(m, Reply(j, answer)), shown + ShownNow(m, Reply(j, answer));
    MoreSent(s, sent, more);
    MoreShown(s, shown, seen);
    AnswerFits(m, j, answer);
    DeliverIsStep(s, j, answer);
    assert HashOf(s, j, more) && ReceiptOf(s, j, seen);
    StepKeepsHashes(s, j, Deliver(s, j, answer), more);
    StepKeepsReceipts(s, j, Deliver(s, j, answer), seen);
  }

  lemma ResumeKeepsHashes(s: State, j: nat, hasProvider: bool, sent: set<Broadcast>)
    requires HashInv(s, sent) && BroadcastInv(s) && j < |s.jobs|
    ensures HashInv(Resume(s, j, hasProvider), sent)
  {
    ResumeIsStep(s, j, hasProvider);
    assert Safe(s, j) && HashOf(s, j, sent);
    StepKeepsHashes(s, j, Resume(s, j, hasProvider), sent);
  }

  lemma ResumeKeepsReceipts(s: State, j: nat, hasProvider: bool, shown: set<Shown>)
    requires ReceiptInv(s, shown) && j < |s.jobs|
    ensures ReceiptInv(Resume(s, j, hasProvider), shown)
  {
    ResumeIsStep(s, j, hasProvider);
    assert ReceiptOf(s, j, shown);
    StepKeepsReceipts(s, j, Resume(s, j, hasProvider), shown);
  }

  ghost predicate HistoryInv(s: State, sent: set<Broadcast>, shown: set<Shown>) {
    HashInv(s, sent) && ReceiptInv(s, shown)
  }

  lemma MoreHistory(s: State, sent: set<Broadcast>, shown: set<Shown>, more: set<Broadcast>, seen: set<Shown>)
    requires HistoryInv(s, sent, shown) && sent <= more && shown <= seen
    ensures HistoryInv(s, more, seen)
  {
    MoreSent(s, sent, more);
    MoreShown(s, shown, seen);
  }

  lemma QuietKeepsHistory(s: State, j: nat, after: State, sent: set<Broadcast>, shown: set<Shown>)
    requires HistoryInv(s, sent, shown) && StepOf(s, j, after) && !Running(s.jobs[j])
    requires || after.jobs[j].phase == s.jobs[j].phase
             || (s.jobs[j].phase == Queued && after.jobs[j].phase == ReadingVerifier)
    requires forall p | 0 <= p < |s.pendings| ::
               after.pendings[p] == s.pendings[p].(current := after.pendings[p].current)
    ensures HistoryInv(after, sent, shown)
  {
    assert HashOf(s, j, sent) && ReceiptOf(s, j, shown);
    StepKeepsHashes(s, j, after, sent);
    StepKeepsReceipts(s, j, after, shown);
  }

  lemma StartKeepsHistory(s: State, j: nat, sent: set<Broadcast>, shown: set<Shown>)
    requires HistoryInv(s, sent, shown) && CanStart(s, j)
    ensures HistoryInv(WithPhase(s, j, ReadingVerifier), sent, shown)
  {
    QuietKeepsHistory(s, j, WithPhase(s, j, ReadingVerifier), sent, shown);
  }

  lemma ClearKeepsHistory(s: State, j: nat, sent: set<Broadcast>, shown: set<Shown>)
    requires HistoryInv(s, sent, shown) && j < |s.jobs| && Settled(s.jobs[j].phase)
    ensures HistoryInv(Clear(s, j), sent, shown)
  {
    QuietKeepsHistory(s, j, Clear(s, j), sent, shown);
  }

  lemma NextKeepsHistory(m: System, event: Event, sent: set<Broadcast>, shown: set<Shown>)
    requires HistoryInv(m.gateway, sent, shown) && BroadcastInv(m.gateway)
    ensures HistoryInv(Next(m, event).gateway, sent + SentNow(m, event), shown + ShownNow(m, event))
  {
    var s := m.gateway;
    assert sent + {} == sent && shown + {} == shown;
    match event
    case Call(claim, mode) => EnqueueKeepsHistory(s, claim, mode, sent, shown);
    case Start(j) => if CanStart(s, j) { StartKeepsHistory(s, j, sent, shown); }
    case Reply(j, answer) =>
      if j < |s.jobs| && Answerable(m, j, answer) { DeliverKeepsHistory(m, j, answer, sent, shown); }
    case Continue(j, hasProvider) =>
      if j < |s.jobs| {
        ResumeKeepsHashes(s, j, hasProvider, sent);
        ResumeKeepsReceipts(s, j, hasProvider, shown);
      }
    case Finally(j) => if j < |s.jobs| && Settled(s.jobs[j].phase) { ClearKeepsHistory(s, j, sent, shown); }
    case ChainStep(_) =>
  }

  lemma {:induction false} RunKeepsHistory(m: System, events: seq<Event>, sent: set<Broadcast>, shown: set<Shown>)
    requires Inv(m) && HistoryInv(m.gateway, sent, shown)
    ensures HistoryInv(Run(m, events).gateway, sent + Sent(m, events), shown + ShownAll(m, events))
    decreases events
  {
    if events == [] {
      MoreHistory(m.gateway, sent, shown, sent + Sent(m, events), shown + ShownAll(m, events));
    } else {
      var next, more, seen := Next(m, events[0]), sent + SentNow(m, events[0]), shown + ShownNow(m, events[0]);
      NextKeepsInv(m, events[0]);
      NextKeepsHistory(m, events[0], sent, shown);
      RunKeepsHistory(next, events[1..], more, seen);
      assert more + Sent(next, events[1..]) == sent + Sent(m, events);
      assert seen + ShownAll(next, events[1..]) == shown + ShownAll(m, events);
    }
  }

  /*** What a fulfilled promise rests on ***/

  /** A hash in the history came back from an earlier broadcast of a job of its claim. */
  lemma {:induction false} SentEarlier(m: System, events: seq<Event>, x: Broadcast) returns (k: nat, i: nat)
    requires Shaped(m.gateway) && x in Sent(m, events)
    ensures k < |events|
    ensures var n := Run(m, events[..k]);
            && Delivers(n, events[k], i, Answer.Sent(x.hash))
            && PendingOf(n.gateway, i).claim == x.claim && n.gateway.jobs[i].phase == Broadcasting
    decreases events
  {
    if x in SentNow(m, events[0]) {
      k, i := 0, events[0].job;
      AnswerFits(m, i, events[0].answer);
      assert events[..0] == [];
    } else {
      NextKeepsShaped(m, events[0]);
      k, i := SentEarlier(Next(m, events[0]), events[1..], x);
      k := k + 1;
      assert events[..k][0] == events[0] && events[..k][1..] == events[1..][..k - 1];
    }
  }

  lemma {:induction false} ShownEarlier(m: System, events: seq<Event>, x: Shown) returns (k: nat)
    requires Shaped(m.gateway) && x in ShownAll(m, events)
    ensures k < |events| && Delivers(Run(m, events[..k]), events[k], x.job, Mined(Some(x.receipt)))
    decreases events
  {
    if x in ShownNow(m, events[0]) {
      k := 0;
      assert events[..0] == [];
    } else {
      NextKeepsShaped(m, events[0]);
      k := ShownEarlier(Next(m, events[0]), events[1..], x);
      k := k + 1;
      assert events[..k][0] == events[0] && events[..k][1..] == events[1..][..k - 1];
    }
  }

  /**
   * Over every run: the transaction hash of a fulfilled promise is the one that came back from an earlier broadcast of
   * the same claim, and the job was earlier shown a successful receipt with this claim's acceptance event.
   */
  lemma FulfilledIsSent(registry: Address, verifier: Address, events: seq<Event>, j: nat)
    returns (k: nat, i: nat, l: nat, receipt: Receipt)
    requires j < |Reached(registry, verifier, events).gateway.jobs|
    requires Reached(registry, verifier, events).gateway.jobs[j].phase.Fulfilled?
    ensures k < |events| && l < |events|
    ensures var s := Reached(registry, verifier, events).gateway;
            var claim, sending := PendingOf(s, j).claim, Reached(registry, verifier, events[..k]);
            && Delivers(sending, events[k], i, Answer.Sent(s.jobs[j].phase.result.transactionHash))
            && PendingOf(sending.gateway, i).claim == claim && sending.gateway.jobs[i].phase == Broadcasting
            && Delivers(Reached(registry, verifier, events[..l]), events[l], j, Mined(Some(receipt)))
            && Accepts(claim, receipt)
  {
    var m := Fresh(registry, verifier);
    RunKeepsHistory(m, events, {}, {});
    var s := Reached(registry, verifier, events).gateway;
    assert HashOf(s, j, {} + Sent(m, events)) && ReceiptOf(s, j, {} + ShownAll(m, events));
    k, i := SentEarlier(m, events, Broadcast(PendingOf(s, j).claim, s.jobs[j].phase.result.transactionHash));
    var x :| x in ShownAll(m, events) && x.job == j && Accepts(PendingOf(s, j).claim, x.receipt);
    l := ShownEarlier(m, events, x);
    receipt := x.receipt;
  }

  /** For the claim a caller submitted, from the call that handed out the promise on. */
  lemma PromiseIsSent(registry: Address, verifier: Address, before: seq<Event>, claim: Claim, mode: Mode,
                      during: seq<Event>, j: nat) returns (k: nat, i: nat)
    requires Enqueue(Reached(registry, verifier, before).gateway, claim, mode).1 == Some(j)
    requires var s := Reached(registry, verifier, Calling(before, claim, mode) + during).gateway;
             j < |s.jobs| && s.jobs[j].phase.Fulfilled?
    ensures var events := Calling(before, claim, mode) + during;
            && k < |events|
            && var sending := Reached(registry, verifier, events[..k]);
               var result := Reached(registry, verifier, events).gateway.jobs[j].phase.result;
               && Delivers(sending, events[k], i, Answer.Sent(result.transactionHash))
               && sending.gateway.jobs[i].phase == Broadcasting && PendingOf(sending.gateway, i).claim == claim
  {
    PromiseStays(registry, verifier, before, claim, mode, during, j);
    var l, receipt;
    k, i, l, receipt := FulfilledIsSent(registry, verifier, Calling(before, claim, mode) + during, j);
  }

  /*** The steps of a job ***/

  /** Where a job goes on success of its awaited call. */
  predicate Proceeds(pending: Pending, job: Job, hasProvider: bool, next: Phase) {
    match next
    case ReadingSigner(verifier) => job.phase == ReadingVerifier && job.reply == Some(Address(verifier))
    case Simulating => job.phase.ReadingSigner? && job.reply == Some(Address(job.phase.verifier))
    case Broadcasting =>
      job.phase == Simulating && job.reply == Some(Simulated(ClaimId(pending.claim))) && pending.transaction == None
    case AwaitingReceipt =>
      || (job.phase == Simulating && job.reply == Some(Simulated(ClaimId(pending.claim))) && pending.transaction.Some?)
      || (job.phase == Broadcasting && job.reply.Some? && job.reply.value.Sent?)
    case FetchingReceipt => job.phase == AwaitingReceipt && job.reply.Some? && !job.reply.value.Mined? && hasProvider
    case Confirming(consumed, bound) =>
      && consumed == None && bound == None
      && Inspecting(job) && job.reply.value.receipt.Some? && Accepts(pending.claim, job.reply.value.receipt.value)
    case Fulfilled(result) =>
      && job.phase == Confirming(Some(true), Some(pending.claim.escrow)) && job.reply == None
      && result.claimId == ClaimId(pending.claim) && pending.transaction == Some(result.transactionHash)
    case _ => false
  }

  /** The job's awaited call, or both of its awaited views, have come back. */
  predicate Due(job: Job) {
    && Running(job)
    && (job.reply.Some? || (job.phase.Confirming? && job.phase.consumed.Some? && job.phase.bound.Some?))
  }

  /** A continued job moves exactly when its call has come back: along the table, or else it rejects. */
  lemma StepTable(pending: Pending, job: Job, hasProvider: bool, next: Phase)
    ensures next != Rejected ==>
              (NextPhase(pending, job, hasProvider) == Some(next) <==> Proceeds(pending, job, hasProvider, next))
    ensures NextPhase(pending, job, hasProvider) == Some(Rejected) <==>
              Due(job) && forall other :: !Proceeds(pending, job, hasProvider, other)
  {
    if NextPhase(pending, job, hasProvider).Some? && NextPhase(pending, job, hasProvider) != Some(Rejected) {
      var other := NextPhase(pending, job, hasProvider).value;
      assert Proceeds(pending, job, hasProvider, other);
    }
  }

  /*** Promises and completion ***/

  /**
   * The promise a caller gets: none, and nothing changed, for a claim entered in another mode; that of the claim's one
   * job whose callbacks have not run, if there is one; and otherwise that of a new job at the end of the queue, on the
   * claim's entry if it has one, whose stored transaction it keeps, and on a new entry if not.
   */
  lemma PromiseIsExact(s: State, claim: Claim, mode: Mode)
    requires TableInv(s)
    ensures var id := ClaimId(claim);
            var (after, promise) := Enqueue(s, claim, mode);
            if id in s.table && s.pendings[s.table[id]].mode != mode then promise == None && after == s
            else if id in s.table && exists j :: Waits(s, j, s.table[id]) then
              promise.Some? && Waits(s, promise.value, s.table[id]) && after == s
            else
              && promise == Some(|s.jobs|) && after.tail == promise && id in after.table
              && after.jobs == s.jobs + [Job(after.table[id], s.tail, Queued, None, false)]
              && after.table == s.table[id := after.table[id]]
              && (if id in s.table
                  then after.pendings == s.pendings[s.table[id] := s.pendings[s.table[id]].(current := promise)]
                       && after.table[id] == s.table[id]
                  else after.pendings == s.pendings + [Pending(claim, mode, None, promise)])
  {
    var id := ClaimId(claim);
    if id in s.table {
      var p := s.table[id];
      forall j: nat | Waits(s, j, p) ensures s.pendings[p].current == Some(j) {}
      if s.pendings[p].current.Some? { assert Waits(s, s.pendings[p].current.value, p); }
    }
  }

  /** Job `j` is of this entry and its `finally` callback has not run. */
  predicate Waits(s: State, j: nat, p: nat) {
    j < |s.jobs| && s.jobs[j].pending == p && !s.jobs[j].cleared
  }
}
