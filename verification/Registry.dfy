/** The claim registry, `contracts/src/EvidenceClaimRegistry.sol`, and the escrows it talks to. */
module Registry {
  import opened Digests
  import opened Escrow

  datatype Claim = Claim(
    escrow: Address,
    agreement: Digest,
    policy: Digest,
    evidence: Digest,
    evidenceType: Digest,
    chainKey: nat,
    transactionHash: Digest,
    subject: Address)

  function EvidenceCommitment(policy: Digest, evidenceType: Digest, chainKey: nat,
                              transactionHash: Digest, subject: Address): Digest
  {
    Keccak(EvidenceTuple(policy, evidenceType, chainKey, transactionHash, subject))
  }

  function ClaimId(c: Claim): Digest {
    Keccak(ClaimTuple(c.escrow, c.agreement, c.policy, c.evidence, c.evidenceType,
                      c.chainKey, c.transactionHash, c.subject))
  }

  function SourceKey(c: Claim): Digest {
    Keccak(SourceTuple(c.evidenceType, c.chainKey, c.transactionHash, c.subject))
  }

  datatype Mode = DisputeEvidence | PrerequisiteRecord | DirectSettlement

  datatype Deployed = Deployed(terms: Terms, storage: Storage)

  /** The chain: the registry's two replay mappings, every escrow, and the acceptance log by escrow. */
  datatype World = World(
    registry: Address,
    verifier: Address,
    consumed: set<Digest>,
    sources: map<Digest, Address>,
    escrows: map<Address, Deployed>,
    claimOf: map<Address, Claim>)

  function BoundEscrow(w: World, key: Digest): Address {
    if key in w.sources then w.sources[key] else ZERO_ADDRESS
  }

  predicate WellFormed(c: Claim) {
    && c.escrow != ZERO_ADDRESS && c.agreement != ZERO_HASH && c.policy != ZERO_HASH
    && c.evidence != ZERO_HASH && c.evidenceType != ZERO_HASH && c.chainKey != 0
    && c.transactionHash != ZERO_HASH && c.subject != ZERO_ADDRESS
  }

  /** Same escrow context as the one fixed at deployment, and a recomputed evidence commitment. */
  predicate Matches(t: Terms, c: Claim) {
    && t.agreement == c.agreement && t.policy == c.policy
    && c.evidence == EvidenceCommitment(c.policy, c.evidenceType, c.chainKey, c.transactionHash, c.subject)
  }

  predicate Concerns(t: Terms, c: Claim) {
    c.subject == t.buyer || c.subject == t.seller
  }

  function RecordCall(registry: Address, c: Claim, mode: Mode): Call {
    match mode
    case DisputeEvidence => RecordVerifiedEvidence(registry, ClaimId(c), c.evidence)
    case PrerequisiteRecord => RecordVerifiedCondition(registry, ClaimId(c), c.evidence)
    case DirectSettlement => SettleVerifiedCondition(registry, ClaimId(c), c.evidence)
  }

  /** One submission; `None` when the transaction reverts. */
  function Submit(w: World, sender: Address, c: Claim, mode: Mode): (r: Option<World>) {
    if sender != w.verifier || !WellFormed(c) || c.escrow !in w.escrows then None
    else
      var Deployed(t, s) := w.escrows[c.escrow];
      if t.agreement != c.agreement || t.policy != c.policy then None
      else if mode != DisputeEvidence && s.active != ZERO_HASH then None
      else if mode == DisputeEvidence && s.active != c.evidence then None
      else if !Concerns(t, c) then None
      else if s.state != (if mode == DisputeEvidence then Disputed else AwaitingDelivery) then None
      else if c.evidence
              != EvidenceCommitment(c.policy, c.evidenceType, c.chainKey, c.transactionHash, c.subject) then None
      else if ClaimId(c) in w.consumed || BoundEscrow(w, SourceKey(c)) != ZERO_ADDRESS then None
      else
        var after := Exec(t, s, RecordCall(w.registry, c, mode));
        if after.None? then None
        else Some(w.(consumed := w.consumed + {ClaimId(c)},
                     sources := w.sources[SourceKey(c) := c.escrow],
                     claimOf := w.claimOf[c.escrow := c],
                     escrows := w.escrows[c.escrow := Deployed(t, after.value)]))
  }

  /*** Runs of the chain ***/

  datatype Step =
    | Deploy(address: Address, terms: Terms)
    | Participate(escrow: Address, call: Call)
    | SubmitClaim(sender: Address, claim: Claim, mode: Mode)

  /** Only the registry contract itself sends from the registry's address. */
  predicate NotFrom(account: Address, call: Call)
    decreases call
  {
    && call.sender != account
    && (call.Withdraw? ==> forall c <- call.callback :: NotFrom(account, c))
  }

  function DeployEscrow(w: World, a: Address, t: Terms): World {
    if a == ZERO_ADDRESS || a in w.escrows || !ValidTerms(t) then w
    else w.(escrows := w.escrows[a := Deployed(t, INITIAL)])
  }

  function CallEscrow(w: World, a: Address, call: Call): World {
    if a !in w.escrows || !NotFrom(w.registry, call) then w
    else WithStorage(w, a, After(w.escrows[a].terms, w.escrows[a].storage, call))
  }

  function WithStorage(w: World, a: Address, s: Storage): World
    requires a in w.escrows
  {
    w.(escrows := w.escrows[a := w.escrows[a].(storage := s)])
  }

  function SubmitOrRevert(w: World, sender: Address, c: Claim, mode: Mode): World {
    var r := Submit(w, sender, c, mode);
    if r.Some? then r.value else w
  }

  function Apply(w: World, step: Step): World {
    match step
    case Deploy(a, t) => DeployEscrow(w, a, t)
    case Participate(a, call) => CallEscrow(w, a, call)
    case SubmitClaim(sender, c, mode) => SubmitOrRevert(w, sender, c, mode)
  }

  function Genesis(registry: Address, verifier: Address): World {
    World(registry, verifier, {}, map[], map[], map[])
  }

  /** The chain as it evolves, one step at a time. */
  ghost predicate IsRun(run: seq<World>) {
    && run != []
    && run[0] == Genesis(run[0].registry, run[0].verifier)
    && forall i, j {:trigger Follows(run[i], run[j])} | 0 <= i && j == i + 1 && j < |run| :: Follows(run[i], run[j])
  }

  ghost predicate Follows(w: World, next: World) {
    exists step :: next == Apply(w, step)
  }

  /*** What every run keeps ***/

  /** The escrow's verified claim is the one accepted for it, consumed and bound; or there is none. */
  ghost predicate EscrowRecord(w: World, a: Address)
    requires a in w.escrows
  {
    var Deployed(t, s) := w.escrows[a];
    if a in w.claimOf then
      var c := w.claimOf[a];
      && c.escrow == a && Matches(t, c) && Concerns(t, c) && t.registry == w.registry
      && s.verified == ClaimId(c) && ClaimId(c) in w.consumed && BoundEscrow(w, SourceKey(c)) == a
    else
      t.registry == w.registry ==> s.verified == ZERO_HASH
  }

  ghost predicate ClaimsInv(w: World) {
    && ZERO_ADDRESS !in w.escrows && w.claimOf.Keys <= w.escrows.Keys
    && (forall a <- w.escrows :: EscrowRecord(w, a))
    && (forall c | ClaimId(c) in w.consumed :: c.escrow in w.claimOf && w.claimOf[c.escrow] == c)
    && (forall key <- w.sources ::
          w.sources[key] in w.claimOf && SourceKey(w.claimOf[w.sources[key]]) == key)
  }

  ghost predicate EscrowsInv(w: World) {
    forall a <- w.escrows :: ValidTerms(w.escrows[a].terms) && Inv(w.escrows[a].terms, w.escrows[a].storage)
  }

  ghost predicate WorldInv(w: World) {
    ClaimsInv(w) && EscrowsInv(w)
  }

  /** Participants cannot touch the verified claim, whatever they re-enter. */
  lemma ParticipantsKeepVerified(t: Terms, s: Storage, call: Call)
    requires NotFrom(t.registry, call)
    ensures After(t, s, call).verified == s.verified
    decreases call, 1
  {
    if call.Withdraw? {
      AllParticipantsKeepVerified(t, Handover(s, call.sender), call.callback);
    }
  }

  lemma {:induction false} AllParticipantsKeepVerified(t: Terms, s: Storage, calls: seq<Call>)
    requires forall c <- calls :: NotFrom(t.registry, c)
    ensures ExecAll(t, s, calls).verified == s.verified
    decreases calls, 0
  {
    if calls != [] {
      ParticipantsKeepVerified(t, s, calls[0]);
      AllParticipantsKeepVerified(t, After(t, s, calls[0]), calls[1..]);
    }
  }

  function Acceptance(w: World, c: Claim, s: Storage): World
    requires c.escrow in w.escrows
  {
    WithStorage(w, c.escrow, s).(
      consumed := w.consumed + {ClaimId(c)},
      sources := w.sources[SourceKey(c) := c.escrow],
      claimOf := w.claimOf[c.escrow := c])
  }

  lemma AcceptanceKeepsClaims(w: World, c: Claim, s: Storage)
    requires ClaimsInv(w) && c.escrow in w.escrows
    requires w.escrows[c.escrow].terms.registry == w.registry
    requires Matches(w.escrows[c.escrow].terms, c) && Concerns(w.escrows[c.escrow].terms, c)
    requires BoundEscrow(w, SourceKey(c)) == ZERO_ADDRESS
    requires w.escrows[c.escrow].storage.verified == ZERO_HASH && s.verified == ClaimId(c)
    ensures ClaimsInv(Acceptance(w, c, s))
  {
    AcceptanceKeepsRecords(w, c, s);
  }

  lemma AcceptanceKeepsRecords(w: World, c: Claim, s: Storage)
    requires ClaimsInv(w) && c.escrow in w.escrows
    requires w.escrows[c.escrow].terms.registry == w.registry
    requires Matches(w.escrows[c.escrow].terms, c) && Concerns(w.escrows[c.escrow].terms, c)
    requires BoundEscrow(w, SourceKey(c)) == ZERO_ADDRESS
    requires w.escrows[c.escrow].storage.verified == ZERO_HASH && s.verified == ClaimId(c)
    ensures c.escrow !in w.claimOf
    ensures forall a <- Acceptance(w, c, s).escrows :: EscrowRecord(Acceptance(w, c, s), a)
  {
    var after := Acceptance(w, c, s);
    assert EscrowRecord(w, c.escrow) && c.escrow !in w.claimOf;
    forall a | a in after.escrows ensures EscrowRecord(after, a) {
      assert EscrowRecord(w, a);
    }
  }

  /** What an accepted submission did, whatever its mode. */
  lemma SubmitEffect(w: World, sender: Address, c: Claim, mode: Mode)
    requires Submit(w, sender, c, mode).Some?
    ensures c.escrow in w.escrows && sender == w.verifier && WellFormed(c)
    ensures Matches(w.escrows[c.escrow].terms, c) && Concerns(w.escrows[c.escrow].terms, c)
    ensures ClaimId(c) !in w.consumed && BoundEscrow(w, SourceKey(c)) == ZERO_ADDRESS
    ensures var Deployed(t, s) := w.escrows[c.escrow];
            var after := Submit(w, sender, c, mode).value;
            && c.escrow in after.escrows
            && var s' := after.escrows[c.escrow].storage;
            && after == Acceptance(w, c, s')
            && s' == After(t, s, RecordCall(w.registry, c, mode))
            && t.registry == w.registry && s.verified == ZERO_HASH && s'.verified == ClaimId(c)
            && (mode == DirectSettlement ==> t.direct && s'.state == Complete)
            && (mode == PrerequisiteRecord ==> !t.direct && s'.state == AwaitingDelivery)
            && (mode == DisputeEvidence ==> s'.state == Disputed && s'.active == c.evidence)
  {}

  lemma DeployKeepsClaims(w: World, a: Address, t: Terms)
    requires ClaimsInv(w)
    ensures ClaimsInv(DeployEscrow(w, a, t))
  {
    forall b | b in w.escrows ensures EscrowRecord(DeployEscrow(w, a, t), b) {
      assert EscrowRecord(w, b);
    }
  }

  lemma CallKeepsClaims(w: World, a: Address, call: Call)
    requires ClaimsInv(w)
    ensures ClaimsInv(CallEscrow(w, a, call))
  {
    if a in w.escrows && NotFrom(w.registry, call) {
      if w.escrows[a].terms.registry == w.registry {
        ParticipantsKeepVerified(w.escrows[a].terms, w.escrows[a].storage, call);
      }
      StorageKeepsClaims(w, a, After(w.escrows[a].terms, w.escrows[a].storage, call));
    }
  }

  lemma StorageKeepsClaims(w: World, a: Address, s: Storage)
    requires ClaimsInv(w) && a in w.escrows
    requires w.escrows[a].terms.registry == w.registry ==> s.verified == w.escrows[a].storage.verified
    ensures ClaimsInv(WithStorage(w, a, s))
  {
    forall b | b in w.escrows ensures EscrowRecord(WithStorage(w, a, s), b) {
      assert EscrowRecord(w, b);
    }
  }

  lemma ApplyKeepsClaims(w: World, step: Step)
    requires ClaimsInv(w)
    ensures ClaimsInv(Apply(w, step))
  {
    match step
    case Deploy(a, t) => DeployKeepsClaims(w, a, t);
    case Participate(a, call) => CallKeepsClaims(w, a, call);
    case SubmitClaim(sender, c, mode) =>
      if Submit(w, sender, c, mode).Some? {
        SubmitEffect(w, sender, c, mode);
        AcceptanceKeepsClaims(w, c, Submit(w, sender, c, mode).value.escrows[c.escrow].storage);
      }
  }

  /** Each step is at most one call on at most one escrow. */
  lemma ApplyIsLocal(w: World, step: Step) returns (a: Address, call: Call)
    ensures var after := Apply(w, step);
      && after.registry == w.registry && after.verifier == w.verifier
      && w.escrows.Keys <= after.escrows.Keys
      && (forall b <- w.escrows :: after.escrows[b].terms == w.escrows[b].terms)
      && (forall b <- w.escrows | b != a :: after.escrows[b] == w.escrows[b])
      && (forall b <- after.escrows | b !in w.escrows ::
            ValidTerms(after.escrows[b].terms) && after.escrows[b].storage == INITIAL)
      && (a in w.escrows ==>
            after.escrows[a].storage == w.escrows[a].storage
            || after.escrows[a].storage == After(w.escrows[a].terms, w.escrows[a].storage, call))
      && w.consumed <= after.consumed
      && (forall key <- w.sources ::
            BoundEscrow(w, key) != ZERO_ADDRESS ==> BoundEscrow(after, key) == BoundEscrow(w, key))
  {
    a, call := ZERO_ADDRESS, Cancel(ZERO_ADDRESS);
    match step
    case Deploy(address, terms) =>
    case Participate(escrow, c) =>
      a, call := escrow, c;
    case SubmitClaim(sender, claim, mode) =>
      a, call := claim.escrow, RecordCall(w.registry, claim, mode);
      if Submit(w, sender, claim, mode).Some? { SubmitEffect(w, sender, claim, mode); }
  }

  lemma ApplyKeepsEscrows(w: World, step: Step)
    requires EscrowsInv(w)
    ensures EscrowsInv(Apply(w, step))
  {
    var a, call := ApplyIsLocal(w, step);
    if a in w.escrows {
      ExecKeepsInv(w.escrows[a].terms, w.escrows[a].storage, call);
    }
    assert forall t | ValidTerms(t) :: Inv(t, INITIAL);
  }

  lemma {:induction false} RunKeepsInv(run: seq<World>, i: nat)
    requires IsRun(run) && i < |run|
    ensures WorldInv(run[i])
  {
    if i > 0 {
      RunKeepsInv(run, i - 1);
      assert Follows(run[i - 1], run[i]);
      var step :| run[i] == Apply(run[i - 1], step);
      ApplyKeepsClaims(run[i - 1], step);
      ApplyKeepsEscrows(run[i - 1], step);
    }
  }

  /*** Runs only move forward ***/

  ghost predicate Later(w: World, later: World) {
    && later.registry == w.registry
    && w.consumed <= later.consumed
    && (forall key | BoundEscrow(w, key) != ZERO_ADDRESS :: BoundEscrow(later, key) == BoundEscrow(w, key))
    && forall a <- w.escrows :: EscrowLater(w, later, a)
  }

  ghost predicate EscrowLater(w: World, later: World, a: Address)
    requires a in w.escrows
  {
    && a in later.escrows
    && later.escrows[a].terms == w.escrows[a].terms
    && Advances(w.escrows[a].storage, later.escrows[a].storage)
  }

  lemma ApplyIsLater(w: World, step: Step)
    requires EscrowsInv(w)
    ensures Later(w, Apply(w, step))
  {
    var a, call := ApplyIsLocal(w, step);
    if a in w.escrows {
      CallAdvances(w.escrows[a].terms, w.escrows[a].storage, call);
    }
  }

  lemma LaterIsReflexive(w: World)
    ensures Later(w, w)
  {}

  lemma LaterIsTransitive(w: World, x: World, y: World)
    requires Later(w, x) && Later(x, y)
    ensures Later(w, y)
  {
    forall a | a in w.escrows ensures EscrowLater(w, y, a) {
      assert EscrowLater(w, x, a) && EscrowLater(x, y, a);
    }
  }

  lemma NextIsLater(run: seq<World>, i: nat)
    requires IsRun(run) && i + 1 < |run|
    ensures Later(run[i], run[i + 1])
  {
    RunKeepsInv(run, i);
    assert Follows(run[i], run[i + 1]);
    var step :| run[i + 1] == Apply(run[i], step);
    ApplyIsLater(run[i], step);
  }

  lemma {:induction false} RunMovesForward(run: seq<World>, i: nat, j: nat)
    requires IsRun(run) && i <= j < |run|
    ensures Later(run[i], run[j])
  {
    if i == j {
      LaterIsReflexive(run[i]);
    } else {
      RunMovesForward(run, i, j - 1);
      NextIsLater(run, j - 1);
      LaterIsTransitive(run[i], run[j - 1], run[j]);
    }
  }

  /*** The idempotency shortcut ***/

  /**
   * For a claim in its escrow's own context: the source key is bound to the escrow iff this very claim
   * is consumed iff the escrow, if it trusts this registry, carries this claim id.
   */
  lemma ShortcutIsExact(run: seq<World>, i: nat, c: Claim)
    requires IsRun(run) && i < |run|
    requires c.escrow in run[i].escrows && Matches(run[i].escrows[c.escrow].terms, c)
    ensures var Deployed(t, s) := run[i].escrows[c.escrow];
            && (BoundEscrow(run[i], SourceKey(c)) == c.escrow <==> ClaimId(c) in run[i].consumed)
            && (ClaimId(c) in run[i].consumed
                <==> t.registry == run[i].registry && s.verified == ClaimId(c))
  {
    RunKeepsInv(run, i);
    assert EscrowRecord(run[i], c.escrow);
  }

  /** A consumed claim of any shape has its source fact bound to its own escrow. */
  lemma ConsumedIsBound(run: seq<World>, i: nat, c: Claim)
    requires IsRun(run) && i < |run|
    ensures ClaimId(c) in run[i].consumed ==>
              && BoundEscrow(run[i], SourceKey(c)) == c.escrow != ZERO_ADDRESS
              && c.escrow in run[i].escrows
              && Matches(run[i].escrows[c.escrow].terms, c) && Concerns(run[i].escrows[c.escrow].terms, c)
              && run[i].escrows[c.escrow].terms.registry == run[i].registry
              && run[i].escrows[c.escrow].storage.verified == ClaimId(c)
  {
    RunKeepsInv(run, i);
    if ClaimId(c) in run[i].consumed {
      assert EscrowRecord(run[i], c.escrow);
    }
  }

  /** A bound source fact belongs to the one claim accepted for that escrow. */
  lemma BoundNamesClaim(run: seq<World>, i: nat, key: Digest) returns (c: Claim)
    requires IsRun(run) && i < |run| && BoundEscrow(run[i], key) != ZERO_ADDRESS
    ensures SourceKey(c) == key && c.escrow == BoundEscrow(run[i], key) && ClaimId(c) in run[i].consumed
  {
    RunKeepsInv(run, i);
    c := run[i].claimOf[run[i].sources[key]];
    assert EscrowRecord(run[i], run[i].sources[key]);
  }
}
