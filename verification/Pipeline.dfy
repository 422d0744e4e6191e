/** The verifier over the gateway over the chain: nothing is assumed of a submission but what the gateway does. */
module Pipeline {
  import opened Digests
  import opened Policies
  import opened Evaluator
  import opened Registry
  import opened Verifier
  import opened VerifierRuns
  import Escrow
  import Gateway
  import GatewayRuns
  import GatewayHistory

  /** The chain as it evolves under a gateway's events. */
  ghost function Chain(registry: Address, verifier: Address, events: seq<Gateway.Event>): seq<World> {
    GatewayRuns.Worlds(Gateway.Fresh(registry, verifier), events)
  }

  /**
   * The verifier's submission, if it makes one, is event `k`, a call on the gateway that hands out the promise of job
   * `j`; and if it is answered, the answer is what that promise was fulfilled with by the time of the answer.
   */
  ghost predicate Served(registry: Address, verifier: Address, events: seq<Gateway.Event>,
                         r: Request, a: Answers, t: Times, k: nat, j: nat)
  {
    Submits(r, a).Some? && a.submission.Some? ==>
      var (claim, mode) := Submits(r, a).value;
      && k < t.submission <= |events| && events[k] == Gateway.Call(claim, mode)
      && Gateway.Enqueue(Gateway.Reached(registry, verifier, events[..k]).gateway, claim, mode).1 == Some(j)
      && var s := Gateway.Reached(registry, verifier, events[..t.submission]).gateway;
         && j < |s.jobs| && s.jobs[j].phase.Fulfilled?
         && var result := s.jobs[j].phase.result;
            a.submission.value == Submission(result.claimId, result.transactionHash)
  }

  lemma Cut(events: seq<Gateway.Event>, k: nat, n: nat)
    requires k < n <= |events|
    ensures events[..n] == (events[..k] + [events[k]]) + events[k + 1..n]
    ensures events[..n] + events[n..] == events
  {}

  /** A gateway that serves the verifier answers as the verifier's theorems require. */
  lemma ServedIsObserved(registry: Address, verifier: Address, events: seq<Gateway.Event>,
                         r: Request, a: Answers, t: Times, k: nat, j: nat)
    requires Reads(Chain(registry, verifier, events), r, a, t)
    requires Served(registry, verifier, events, r, a, t, k, j)
    ensures Observed(Chain(registry, verifier, events), r, a, t)
  {
    GatewayRuns.ChainIsRun(registry, verifier, events);
    if Submits(r, a).Some? && a.submission.Some? {
      var (claim, mode) := Submits(r, a).value;
      var n := t.submission;
      Cut(events, k, n);
      assert GatewayRuns.Calling(events[..k], claim, mode) == events[..k] + [events[k]];
      GatewayRuns.SubmissionIsObserved(registry, verifier, events[..k], claim, mode, events[k + 1..n], events[n..], j);
    }
  }

  /** End to end: a positive result means this very claim is consumed on chain when the submission phase ends. */
  lemma ClaimLandsEndToEnd(registry: Address, verifier: Address, events: seq<Gateway.Event>,
                           r: Request, a: Answers, t: Times, k: nat, j: nat)
    requires Reads(Chain(registry, verifier, events), r, a, t)
    requires Served(registry, verifier, events, r, a, t, k, j) && Decide(r, a).Ok?
    ensures var c := Decide(r, a).value.claim;
            && c == BuildClaim(r, a.proof.value) && Decide(r, a).value.claimId == ClaimId(c)
            && ClaimId(c) in Chain(registry, verifier, events)[t.submission].consumed
  {
    ServedIsObserved(registry, verifier, events, r, a, t, k, j);
    ClaimLanded(Chain(registry, verifier, events), r, a, t);
  }

  /** End to end: direct settlement is sound however the gateway, the chain and the verifier's reads interleave. */
  lemma DirectSettlementEndToEnd(registry: Address, verifier: Address, events: seq<Gateway.Event>,
                                 r: Request, a: Answers, t: Times, k: nat, j: nat, v: Verified)
    requires Reads(Chain(registry, verifier, events), r, a, t)
    requires Served(registry, verifier, events, r, a, t, k, j)
    requires Decide(r, a) == Ok(v) && ModeOf(r) == DirectSettlement
    ensures SettledDirectly(Chain(registry, verifier, events), r, a, t, v)
  {
    ServedIsObserved(registry, verifier, events, r, a, t, k, j);
    DirectSettlementIsSound(Chain(registry, verifier, events), r, a, t, v, r.policy);
  }

  /** Where a positive result takes its hash from. */
  lemma HashOfResult(r: Request, a: Answers, v: Verified)
    requires Decide(r, a) == Ok(v)
    ensures match Submits(r, a)
            case None => v.transactionHash == r.transactionHash
            case Some((claim, _)) =>
              v.claim == claim && a.submission.Some? && a.submission.value.transactionHash == v.transactionHash
  {}

  /**
   * End to end: the transaction hash of a positive result is the one that came back from a broadcast of this very claim
   * on the gateway, if the verifier submitted it, and otherwise the source transaction's own.
   */
  lemma HashEndToEnd(registry: Address, verifier: Address, events: seq<Gateway.Event>,
                     r: Request, a: Answers, t: Times, k: nat, j: nat, v: Verified) returns (l: nat, i: nat)
    requires Served(registry, verifier, events, r, a, t, k, j) && Decide(r, a) == Ok(v)
    ensures Submits(r, a).None? ==> v.transactionHash == r.transactionHash
    ensures Submits(r, a).Some? ==> l < t.submission <= |events|
    ensures Submits(r, a).Some? ==>
              BroadcastReturns(Gateway.Reached(registry, verifier, events[..l]), events[l], i,
                               v.claim, v.transactionHash)
  {
    l, i := 0, 0;
    HashOfResult(r, a, v);
    if Submits(r, a).Some? {
      var (claim, mode) := Submits(r, a).value;
      l, i := PromiseReturns(registry, verifier, events, claim, mode, t.submission, k, j);
    }
  }

  /** A promise handed out at event `k` and fulfilled before event `n`. */
  lemma PromiseReturns(registry: Address, verifier: Address, events: seq<Gateway.Event>, claim: Claim, mode: Mode,
                       n: nat, k: nat, j: nat) returns (l: nat, i: nat)
    requires k < n <= |events| && events[k] == Gateway.Call(claim, mode)
    requires Gateway.Enqueue(Gateway.Reached(registry, verifier, events[..k]).gateway, claim, mode).1 == Some(j)
    requires var s := Gateway.Reached(registry, verifier, events[..n]).gateway;
             j < |s.jobs| && s.jobs[j].phase.Fulfilled?
    ensures l < n
    ensures var hash := Gateway.Reached(registry, verifier, events[..n]).gateway.jobs[j].phase.result.transactionHash;
            BroadcastReturns(Gateway.Reached(registry, verifier, events[..l]), events[l], i, claim, hash)
  {
    Cut(events, k, n);
    assert events[..n] == GatewayRuns.Calling(events[..k], claim, mode) + events[k + 1..n];
    l, i := GatewayHistory.PromiseIsSent(registry, verifier, events[..k], claim, mode, events[k + 1..n], j);
    assert events[..n][..l] == events[..l] && events[..n][l] == events[l];
  }

  /** The event delivers this hash to a job that is broadcasting the claim. */
  ghost predicate BroadcastReturns(m: Gateway.System, event: Gateway.Event, i: nat, claim: Claim, hash: Digest) {
    && Gateway.Shaped(m.gateway) && GatewayHistory.Delivers(m, event, i, Gateway.Sent(hash))
    && m.gateway.jobs[i].phase == Gateway.Broadcasting && Gateway.PendingOf(m.gateway, i).claim == claim
  }
}
