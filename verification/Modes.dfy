/** Agreement modes, `packages/shared/src/index.ts`, from validation to settlement. */
module Modes {
  import opened Digests
  import opened Numerals
  import opened Sorting
  import opened Json
  import opened WorkTerms
  import opened Persistence
  import opened PersistenceReads
  import Escrow
  import Policies
  import Registry
  import opened Dashboard
  import Verifier

  /** A parsed draft with its mode, and its evidence type as the text it was given as. */
  datatype ModeDraft = ModeDraft(draft: Draft, evidenceType: Words, mode: Lifecycle)

  const TRANSACTION_HASH := Units("TRANSACTION_HASH")

  /** keccak256("BLOCKCHAIN_VERIFICATION_DISABLED") in lower-case hexadecimal. */
  const DISABLED: Words :=
    Units("0x077b5f41b") + Units("a0bb75606c3") + Units("3e5fb0bc796")
    + Units("0701513a47f") + Units("b049efb90ab") + Units("f980fd9d011")

  predicate HasCondition(evidenceType: Words) {
    evidenceType != DISABLED
  }

  predicate HasWork(ds: seq<Deliverable>) {
    exists i | 0 <= i < |ds| :: ds[i].active && HasApplicationRequirement(ds[i].requirements)
  }

  predicate HasApplicationRequirement(rs: seq<Requirement>) {
    exists i | 0 <= i < |rs| :: rs[i].kind != TRANSACTION_HASH
  }

  /** `agreementLifecycleMode`: the stored mode, or the one the terms imply. */
  function LifecycleOf(stored: Option<Lifecycle>, evidenceType: Words, ds: seq<Deliverable>): Lifecycle {
    if stored.Some? then stored.value
    else if HasCondition(evidenceType) && HasWork(ds) then Hybrid
    else if HasCondition(evidenceType) then BlockchainConditionOnly
    else ApplicationWorkEvidence
  }

  /** `validateAgreementDraft` on a draft that parses. */
  predicate Accepts(d: ModeDraft) {
    var Draft(buyer, seller, arbitrator, amount, nonce, registry, _, deliverables) := d.draft;
    && buyer != ZERO_ADDRESS && seller != ZERO_ADDRESS && arbitrator != ZERO_ADDRESS && registry != ZERO_ADDRESS
    && nonce != ZERO_HASH
    && buyer != seller && buyer != arbitrator && seller != arbitrator
    && amount != 0
    && match d.mode
       case BlockchainConditionOnly => HasCondition(d.evidenceType) && |deliverables| == 0
       case ApplicationWorkEvidence => !HasCondition(d.evidenceType) && HasWork(deliverables)
       case Hybrid => HasCondition(d.evidenceType) && HasWork(deliverables)
  }

  /** `normalizeDraft` lower-cases the evidence type, after validation. */
  function Normalized(d: ModeDraft): ModeDraft {
    d.(evidenceType := Lower(d.evidenceType))
  }

  /**
   * The disabled marker in any other spelling than its own: validation does not recognise it, normalisation
   * then makes it one.
   */
  predicate DisguisedMarker(evidenceType: Words) {
    evidenceType != DISABLED && Lower(evidenceType) == DISABLED
  }

  predicate NoCapital(t: Words) {
    forall i | 0 <= i < |t| :: t[i] < 65 || t[i] > 90
  }

  lemma MarkerIsLowerCase()
    ensures Lower(DISABLED) == DISABLED
  {
    assert NoCapital(Units("0x077b5f41b"));
    assert NoCapital(Units("a0bb75606c3"));
    assert NoCapital(Units("3e5fb0bc796"));
    assert NoCapital(Units("0701513a47f"));
    assert NoCapital(Units("b049efb90ab"));
    assert NoCapital(Units("f980fd9d011"));
    assert NoCapital(DISABLED);
  }

  /**
   * Erasing the stored mode of an accepted draft and deriving it again gives the declared mode, unless the
   * marker is disguised.
   */
  lemma ModeIsStable(d: ModeDraft)
    requires Accepts(d)
    ensures LifecycleOf(None, Normalized(d).evidenceType, d.draft.deliverables) == d.mode
        <==> !DisguisedMarker(d.evidenceType)
  {
    MarkerIsLowerCase();
  }

  /*** Through the database ***/

  predicate RequirementIsWork(r: RequirementTerms) { r.kind != TRANSACTION_HASH }

  predicate DeliverableIsWork(d: DeliverableTerms) {
    d.active && exists r | r in d.requirements :: RequirementIsWork(r)
  }

  lemma RequirementWork(rs: seq<Requirement>)
    ensures HasApplicationRequirement(rs)
        <==> exists r | r in multiset(Map(TermsOfRequirement, rs)) :: RequirementIsWork(r)
  {
    var all := Map(TermsOfRequirement, rs);
    if HasApplicationRequirement(rs) {
      var k :| 0 <= k < |rs| && rs[k].kind != TRANSACTION_HASH;
      assert all[k] in multiset(all) && RequirementIsWork(all[k]);
    }
    forall r | r in multiset(all) && RequirementIsWork(r) ensures HasApplicationRequirement(rs) {
      var k :| 0 <= k < |all| && all[k] == r;
      assert rs[k].kind != TRANSACTION_HASH;
    }
  }

  /** The work a list of deliverables asks for is a matter of its terms, not of its order. */
  lemma WorkIsInTheTerms(ds: seq<Deliverable>)
    ensures HasWork(ds) <==> exists d | d in WorkTermsOf(ds) :: DeliverableIsWork(d)
  {
    var all := Map(TermsOfDeliverable, ds);
    forall i | 0 <= i < |ds|
      ensures DeliverableIsWork(all[i]) <==> ds[i].active && HasApplicationRequirement(ds[i].requirements) {
      RequirementWork(ds[i].requirements);
    }
    if HasWork(ds) {
      var i :| 0 <= i < |ds| && ds[i].active && HasApplicationRequirement(ds[i].requirements);
      assert all[i] in WorkTermsOf(ds) && DeliverableIsWork(all[i]);
    }
    forall d | d in WorkTermsOf(ds) && DeliverableIsWork(d) ensures HasWork(ds) {
      var i :| 0 <= i < |all| && all[i] == d;
      assert ds[i].active && HasApplicationRequirement(ds[i].requirements);
    }
  }

  lemma KeptHasWork(ds: seq<Deliverable>, jsonb: Locale)
    ensures HasWork(KeptWork(ds, jsonb)) <==> HasWork(ds)
  {
    var kept := KeptWork(ds, jsonb);
    forall i | 0 <= i < |ds|
      ensures kept[i].active == ds[i].active
      ensures HasApplicationRequirement(kept[i].requirements) <==> HasApplicationRequirement(ds[i].requirements) {
      var rs, ks := ds[i].requirements, kept[i].requirements;
      assert |ks| == |rs| && forall k | 0 <= k < |rs| :: ks[k].kind == rs[k].kind;
      assert forall k | 0 <= k < |rs| :: rs[k].kind == ks[k].kind;
    }
  }

  /** A stored agreement, read back: the same mode is derived from what the tables return. */
  lemma ModeSurvivesStorage(db: Tables, a: AgreementRow, ds: seq<Deliverable>, uuid: Locale, jsonb: Locale,
                            stored: Option<Lifecycle>, evidenceType: Words)
    requires Constraints(db) && Storable(db, a, ds, jsonb)
    ensures LifecycleOf(stored, evidenceType, Load(Appended(db, a, ds, jsonb), a.id, uuid))
        == LifecycleOf(stored, evidenceType, ds)
  {
    LoadedTerms(db, a, ds, uuid, jsonb);
    WorkIsInTheTerms(Load(Appended(db, a, ds, jsonb), a.id, uuid));
    WorkIsInTheTerms(KeptWork(ds, jsonb));
    KeptHasWork(ds, jsonb);
  }

  /*** At deployment and verification ***/

  /** The deployer's constructor argument. */
  predicate Direct(mode: Lifecycle) {
    mode == BlockchainConditionOnly
  }

  /** The terms an accepted draft is deployed with pass every guard of the escrow's constructor. */
  lemma AcceptedDraftDeploys(d: ModeDraft, stored: Option<Lifecycle>, locale: Locale)
    requires Accepts(d) && Policies.InRange(d.draft.policy) && d.draft.requiredAmount < Escrow.UINT256_LIMIT
    ensures Escrow.ValidTerms(DeploymentTerms(d, stored, locale))
  {}

  function DeploymentTerms(d: ModeDraft, stored: Option<Lifecycle>, locale: Locale): Escrow.Terms
    requires Policies.InRange(d.draft.policy)
  {
    Escrow.Terms(d.draft.buyer, d.draft.seller, d.draft.arbitrator, AgreementCommitment(d.draft, locale),
                 Policies.PolicyCommitment(d.draft.policy), d.draft.requiredAmount, d.draft.registry,
                 Direct(LifecycleOf(stored, Normalized(d).evidenceType, d.draft.deliverables)))
  }

  /** The submission mode the condition service asks for. */
  function SubmissionMode(mode: Lifecycle): Registry.Mode {
    if mode == BlockchainConditionOnly then Registry.DirectSettlement else Registry.PrerequisiteRecord
  }

  /*** The migration that added the mode column ***/

  /** What `006_add_agreement_mode.sql` writes into every row; the hash it tests is the disabled marker. */
  function Backfilled(evidenceType: Words, ds: seq<Deliverable>): Lifecycle {
    if evidenceType == DISABLED && HasWork(ds) then Hybrid
    else if evidenceType == DISABLED then BlockchainConditionOnly
    else ApplicationWorkEvidence
  }

  /** The migration gives an accepted agreement the declared mode exactly when its marker was disguised. */
  lemma BackfillIsInverted(d: ModeDraft)
    requires Accepts(d)
    ensures Backfilled(Normalized(d).evidenceType, d.draft.deliverables) == d.mode <==> DisguisedMarker(d.evidenceType)
  {
    MarkerIsLowerCase();
  }

  /** What a reader can find in the mode column of an accepted draft. */
  predicate Written(d: ModeDraft, stored: Option<Lifecycle>) {
    || stored == None || stored == Some(d.mode)
    || stored == Some(Backfilled(Normalized(d).evidenceType, d.draft.deliverables))
  }

  /** Such a mode leads away from the declared one: derived from a disguised marker, or backfilled. */
  predicate Strays(d: ModeDraft, stored: Option<Lifecycle>) {
    if DisguisedMarker(d.evidenceType) then stored == None
    else stored == Some(Backfilled(Normalized(d).evidenceType, d.draft.deliverables))
  }

  lemma StrayingIsExact(d: ModeDraft, stored: Option<Lifecycle>)
    requires Accepts(d) && Written(d, stored)
    ensures LifecycleOf(stored, Normalized(d).evidenceType, d.draft.deliverables) == d.mode <==> !Strays(d, stored)
    ensures LifecycleOf(stored, Normalized(d).evidenceType, d.draft.deliverables) == BlockchainConditionOnly
            <==> d.mode == BlockchainConditionOnly && !Strays(d, stored)
  {
    ModeIsStable(d);
    BackfillIsInverted(d);
  }

  /** A direct escrow meets a request that is not for direct settlement, or the other way round. */
  predicate ModesConflict(d: ModeDraft, atDeployment: Option<Lifecycle>, atVerification: Option<Lifecycle>) {
    d.mode == BlockchainConditionOnly && Strays(d, atDeployment) != Strays(d, atVerification)
  }

  /**
   * For every accepted draft, whatever mode the deployer and the condition service find stored, or derive: the escrow
   * is direct exactly when direct settlement is asked for, unless the draft is blockchain-only and just one of the two
   * went astray, as when the migration runs between deployment and verification.
   */
  lemma ModesAgree(d: ModeDraft, atDeployment: Option<Lifecycle>, atVerification: Option<Lifecycle>)
    requires Accepts(d) && Written(d, atDeployment) && Written(d, atVerification)
    ensures var n := Normalized(d);
            var direct := Direct(LifecycleOf(atDeployment, n.evidenceType, n.draft.deliverables));
            var asked := SubmissionMode(LifecycleOf(atVerification, n.evidenceType, n.draft.deliverables));
            (direct <==> asked == Registry.DirectSettlement) <==> !ModesConflict(d, atDeployment, atVerification)
  {
    StrayingIsExact(d, atDeployment);
    StrayingIsExact(d, atVerification);
  }

  /** The verifier's mode-mismatch branch is taken exactly then; with the escrow in order it finds no other fault. */
  lemma MismatchIsExact(d: ModeDraft, atDeployment: Option<Lifecycle>, atVerification: Option<Lifecycle>,
                        r: Verifier.Request, x: Verifier.Context, submitted: bool)
    requires Accepts(d) && Written(d, atDeployment) && Written(d, atVerification)
    requires x.direct == Direct(LifecycleOf(atDeployment, Normalized(d).evidenceType, d.draft.deliverables))
    requires var mode := LifecycleOf(atVerification, Normalized(d).evidenceType, d.draft.deliverables);
             r.mode == Some(SubmissionMode(mode))
    requires x.escrow == r.escrow && x.agreement == r.agreement && x.policy == r.policyCommitment
    requires r.subject == x.buyer || r.subject == x.seller
    ensures Verifier.ContextFailure(r, submitted, x) == None
            <==> !ModesConflict(d, atDeployment, atVerification)
                 && (submitted || (x.state == Escrow.AwaitingDelivery && x.active == ZERO_HASH))
  {
    ModesAgree(d, atDeployment, atVerification);
  }
}
