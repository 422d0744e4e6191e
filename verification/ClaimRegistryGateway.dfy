/** `EthersEvidenceClaimRegistryGateway` as it updates its fields, one method per synchronous segment. */
module ClaimRegistryGateway {
  import opened Digests
  import opened Registry
  import opened Gateway

  /** Promises are named by their job, pending objects by their position in `pendings`. */
  class EthersEvidenceClaimRegistryGateway {
    var claimSubmissions: map<Digest, nat>
    var submissionTail: Option<nat>
    var pendings: seq<Pending>
    var jobs: seq<Job>
    ghost var acknowledged: multiset<Digest>
    ghost var unacknowledged: multiset<Digest>

    ghost function Contents(): State
      reads this
    {
      State(claimSubmissions, pendings, jobs, submissionTail, acknowledged, unacknowledged)
    }

    ghost predicate Valid()
      reads this
    {
      Shaped(Contents())
    }

    constructor ()
      ensures Valid() && Contents() == EMPTY
    {
      claimSubmissions := map[];
      submissionTail := None;
      pendings, jobs := [], [];
      acknowledged, unacknowledged := multiset{}, multiset{};
    }

    /** `submitClaim`: the promise handed to the caller, or `None` when it throws. */
    method SubmitClaim(claim: Claim, mode: Mode) returns (promise: Option<nat>)
      requires Valid()
      modifies this
      ensures Valid()
      ensures (Contents(), promise) == Enqueue(old(Contents()), claim, mode)
    {
      var claimId := ClaimId(claim);
      if claimId !in claimSubmissions {
        pendings := pendings + [Pending(claim, mode, None, None)];
        claimSubmissions := claimSubmissions[claimId := |pendings| - 1];
      } else if pendings[claimSubmissions[claimId]].mode != mode {
        return None;
      }
      var pending := claimSubmissions[claimId];
      if pendings[pending].current.Some? {
        return pendings[pending].current;
      }
      var current := SerializeSubmission(pending);
      pendings := pendings[pending := pendings[pending].(current := Some(current))];
      return Some(current);
    }

    /** `serializeSubmission`: the work is chained to the tail, whatever becomes of it, and becomes the tail. */
    method SerializeSubmission(pending: nat) returns (result: nat)
      modifies this`jobs, this`submissionTail
      ensures result == |old(jobs)|
      ensures jobs == old(jobs) + [Job(pending, old(submissionTail), Queued, None, false)]
      ensures submissionTail == Some(result)
    {
      result := |jobs|;
      jobs := jobs + [Job(pending, submissionTail, Queued, None, false)];
      submissionTail := Some(result);
    }

    /** The queue calls the work: `processClaimSubmission` up to its first `await`. */
    method Begin(j: nat)
      requires Valid() && CanStart(Contents(), j)
      modifies this`jobs
      ensures Valid()
      ensures Contents() == WithPhase(old(Contents()), j, ReadingVerifier)
    {
      Await(j, ReadingVerifier);
    }

    method Await(j: nat, phase: Phase)
      requires j < |jobs|
      modifies this`jobs
      ensures jobs == old(jobs)[j := old(jobs)[j].(phase := phase, reply := None)]
    {
      jobs := jobs[j := jobs[j].(phase := phase, reply := None)];
    }

    /** `processClaimSubmission` from one `await` to the next, or to its return or throw. */
    method Proceed(j: nat, hasProvider: bool)
      requires Valid() && j < |jobs|
      modifies this
      ensures Contents() == Resume(old(Contents()), j, hasProvider)
    {
      var p := jobs[j].pending;
      var claim := pendings[p].claim;
      var claimId := ClaimId(claim);
      var reply := jobs[j].reply;
      match jobs[j].phase
      case Queued =>
      case ReadingVerifier =>
        if reply.Some? {
          if reply.value.Address? { Await(j, ReadingSigner(reply.value.address)); } else { Await(j, Rejected); }
        }
      case ReadingSigner(authorizedVerifier) =>
        if reply.Some? {
          if reply.value.Address? && reply.value.address == authorizedVerifier { Await(j, Simulating); }
          else { Await(j, Rejected); }
        }
      case Simulating =>
        if reply.Some? {
          if !reply.value.Simulated? || reply.value.claimId != claimId { Await(j, Rejected); }
          else if pendings[p].transaction.None? { Await(j, Broadcasting); }
          else { Await(j, AwaitingReceipt); }
        }
      case Broadcasting =>
        if reply.Some? { Broadcasted(j); }
      case AwaitingReceipt =>
        if reply.Some? {
          if reply.value.Mined? { Check(j, claim, reply.value.receipt); }
          else if hasProvider { Await(j, FetchingReceipt); }
          else { Await(j, Rejected); }
        }
      case FetchingReceipt =>
        if reply.Some? {
          if reply.value.Mined? { Check(j, claim, reply.value.receipt); } else { Await(j, Rejected); }
        }
      case Confirming(consumed, bound) =>
        if reply.Some? { Await(j, Rejected); } else if consumed.Some? && bound.Some? { Finish(j); }
      case Fulfilled(_) =>
      case Rejected =>
    }

    /** Both registry views have answered: the entry leaves the table only when they show the claim. */
    method Finish(j: nat)
      requires Valid() && j < |jobs| && jobs[j].reply == None
      requires jobs[j].phase.Confirming? && jobs[j].phase.consumed.Some? && jobs[j].phase.bound.Some?
      modifies this`jobs, this`claimSubmissions
      ensures Contents() == Resume(old(Contents()), j, true) == Resume(old(Contents()), j, false)
    {
      var Pending(claim, mode, transaction, current) := pendings[jobs[j].pending];
      var claimId := ClaimId(claim);
      var Confirming(consumed, bound) := jobs[j].phase;
      if !consumed.value || bound.value != claim.escrow || transaction.None? {
        Await(j, Rejected);
      } else {
        claimSubmissions := claimSubmissions - {claimId};
        Await(j, Fulfilled(Receipted(claimId, transaction.value)));
      }
    }

    /** The call that broadcasts has returned a transaction, or thrown. */
    method Broadcasted(j: nat)
      requires Valid() && j < |jobs| && jobs[j].reply.Some? && jobs[j].phase == Broadcasting
      modifies this`jobs, this`pendings
      ensures Contents() == Resume(old(Contents()), j, true) == Resume(old(Contents()), j, false)
    {
      var p, reply := jobs[j].pending, jobs[j].reply.value;
      if reply.Sent? {
        pendings := pendings[p := pendings[p].(transaction := Some(reply.hash))];
        Await(j, AwaitingReceipt);
      } else {
        Await(j, Rejected);
      }
    }

    /** The receipt's status and its first acceptance event, field by field. */
    method Check(j: nat, claim: Claim, receipt: Option<Receipt>)
      requires j < |jobs|
      modifies this`jobs
      ensures jobs == old(jobs)[j := old(jobs)[j].(phase := AfterReceipt(claim, receipt), reply := None)]
    {
      if receipt.None? || receipt.value.status != 1 || receipt.value.event.None? {
        Await(j, Rejected);
      } else {
        var event := receipt.value.event.value;
        if event.claimId != ClaimId(claim) || event.escrow != claim.escrow
           || event.evidence != claim.evidence || event.sourceKey != SourceKey(claim) {
          Await(j, Rejected);
        } else {
          Await(j, Confirming(None, None));
        }
      }
    }

    /** The `finally` callback: the settled promise is no longer the entry's current one. */
    method Settle(j: nat)
      requires Valid() && j < |jobs| && Settled(jobs[j].phase) && !jobs[j].cleared
      modifies this`jobs, this`pendings
      ensures Valid()
      ensures Contents() == Clear(old(Contents()), j)
    {
      var p := jobs[j].pending;
      jobs := jobs[j := jobs[j].(cleared := true)];
      pendings := pendings[p := pendings[p].(current := None)];
    }
  }
}
