/** Deliverable terms and the agreement commitment over them, `packages/shared/src/index.ts`. */
module WorkTerms {
  import opened Digests
  import opened Numerals
  import opened Sorting
  import opened Json
  import Policies

  datatype Entry = Entry(key: Words, value: Words)

  datatype Requirement = Requirement(
    id: Words, caption: Words, kind: Words, required: bool, configuration: seq<Entry>, position: nat)

  datatype Deliverable = Deliverable(
    id: Words, title: Words, description: Words, required: bool, active: bool, position: nat,
    requirements: seq<Requirement>)

  /** The comparison `localeCompare` makes: a strict total order on the strings in use. */
  type Locale = (Words, Words) -> bool

  /*** Sorting ***/

  type Place = (nat, Words)

  function Earlier(locale: Locale): (Place, Place) -> bool {
    (a: Place, b: Place) => a.0 < b.0 || (a.0 == b.0 && locale(a.1, b.1))
  }

  function DeliverablePlace(d: Deliverable): Place { (d.position, d.id) }

  function RequirementPlace(r: Requirement): Place { (r.position, r.id) }

  function EntryKey(e: Entry): Words { e.key }

  function MemberKey(m: Member): Words { m.key }

  function SortDeliverables(ds: seq<Deliverable>, locale: Locale): seq<Deliverable> {
    Sort(ds, DeliverablePlace, Earlier(locale))
  }

  function SortRequirements(rs: seq<Requirement>, locale: Locale): seq<Requirement> {
    Sort(rs, RequirementPlace, Earlier(locale))
  }

  lemma EarlierIsStrict(locale: Locale)
    requires StrictTotal(locale)
    ensures StrictTotal(Earlier(locale))
  {
    var less := Earlier(locale);
    forall a, b ensures less(a, b) ==> !less(b, a) {
      assert locale(a.1, b.1) ==> !locale(b.1, a.1);
    }
    forall a, b ensures a != b ==> less(a, b) || less(b, a) {
      assert a.1 != b.1 ==> locale(a.1, b.1) || locale(b.1, a.1);
    }
    forall a, b, c ensures less(a, b) && less(b, c) ==> less(a, c) {
      assert locale(a.1, b.1) && locale(b.1, c.1) ==> locale(a.1, c.1);
    }
  }

  /*** Canonical JSON ***/

  /** Objects with their members sorted, at every depth. */
  function Canonical(j: Json, locale: Locale): Json {
    match j
    case Arr(items) => Arr(seq(|items|, i requires 0 <= i < |items| => Canonical(items[i], locale)))
    case Obj(members) => Obj(Sort(CanonicalMembers(members, locale), MemberKey, locale))
    case _ => j
  }

  function CanonicalMembers(members: seq<Member>, locale: Locale): (r: seq<Member>)
    ensures |r| == |members|
    ensures forall i | 0 <= i < |members| :: r[i] == Member(members[i].key, Canonical(members[i].value, locale))
  {
    seq(|members|, i requires 0 <= i < |members| => Member(members[i].key, Canonical(members[i].value, locale)))
  }

  function CanonicalJson(j: Json, locale: Locale): Words {
    Print(Canonical(j, locale))
  }

  const ID := Units("id")
  const KIND := Units("kind")
  const LABEL := Units("label")
  const TITLE := Units("title")
  const ACTIVE := Units("active")
  const REQUIRED := Units("required")
  const POSITION := Units("position")
  const DESCRIPTION := Units("description")
  const CONFIGURATION := Units("configuration")
  const EVIDENCE_REQUIREMENTS := Units("evidenceRequirements")

  function EntryMember(e: Entry): Member {
    Member(e.key, Str(e.value))
  }

  function ConfigurationJson(c: seq<Entry>, locale: Locale): Json {
    Obj(Map(EntryMember, Sort(c, EntryKey, locale)))
  }

  function RequirementMembers(r: Requirement, locale: Locale): seq<Member> {
    [Member(ID, Str(r.id)), Member(LABEL, Str(r.caption)), Member(KIND, Str(r.kind)),
     Member(REQUIRED, Bool(r.required)),
     Member(CONFIGURATION, ConfigurationJson(r.configuration, locale)), Member(POSITION, Num(r.position))]
  }

  function RequirementJson(locale: Locale): Requirement -> Json {
    (r: Requirement) => Obj(RequirementMembers(r, locale))
  }

  function DeliverableMembers(d: Deliverable, locale: Locale): seq<Member> {
    [Member(ID, Str(d.id)), Member(TITLE, Str(d.title)), Member(DESCRIPTION, Str(d.description)),
     Member(REQUIRED, Bool(d.required)), Member(ACTIVE, Bool(d.active)), Member(POSITION, Num(d.position)),
     Member(EVIDENCE_REQUIREMENTS, Arr(Map(RequirementJson(locale), SortRequirements(d.requirements, locale))))]
  }

  function DeliverableJson(locale: Locale): Deliverable -> Json {
    (d: Deliverable) => Obj(DeliverableMembers(d, locale))
  }

  function WorkText(ds: seq<Deliverable>, locale: Locale): Words {
    CanonicalJson(Arr(Map(DeliverableJson(locale), SortDeliverables(ds, locale))), locale)
  }

  function WorkCommitment(ds: seq<Deliverable>, locale: Locale): Digest {
    if ds == [] then ZERO_HASH else Keccak(Text(WorkText(ds, locale)))
  }

  /*** The terms a list of deliverables states, whatever its order ***/

  datatype RequirementTerms = RequirementTerms(
    id: Words, caption: Words, kind: Words, required: bool, position: nat, configuration: multiset<Entry>)

  datatype DeliverableTerms = DeliverableTerms(
    id: Words, title: Words, description: Words, required: bool, active: bool, position: nat,
    requirements: multiset<RequirementTerms>)

  function TermsOfRequirement(r: Requirement): RequirementTerms {
    RequirementTerms(r.id, r.caption, r.kind, r.required, r.position, multiset(r.configuration))
  }

  function TermsOfDeliverable(d: Deliverable): DeliverableTerms {
    DeliverableTerms(d.id, d.title, d.description, d.required, d.active, d.position,
                     multiset(Map(TermsOfRequirement, d.requirements)))
  }

  function WorkTermsOf(ds: seq<Deliverable>): multiset<DeliverableTerms> {
    multiset(Map(TermsOfDeliverable, ds))
  }

  /** Distinct places, and configuration keys of an object. */
  predicate DistinctRequirements(rs: seq<Requirement>) {
    DistinctKeys(rs, RequirementPlace) && forall r <- rs :: DistinctKeys(r.configuration, EntryKey)
  }

  predicate DistinctWork(ds: seq<Deliverable>) {
    DistinctKeys(ds, DeliverablePlace) && forall d <- ds :: DistinctRequirements(d.requirements)
  }

  /*** Equal texts, equal terms ***/

  /** Objects with the same member list differ after sorting where they differed before. */
  lemma SameMembers(a: seq<Member>, b: seq<Member>, locale: Locale)
    requires |a| == |b| && (forall i | 0 <= i < |a| :: a[i].key == b[i].key) && DistinctKeys(a, MemberKey)
    ensures Sort(a, MemberKey, locale) == Sort(b, MemberKey, locale) <==> a == b
  {
    SortPermutes(a, MemberKey, locale);
    SortPermutes(b, MemberKey, locale);
    if Sort(a, MemberKey, locale) == Sort(b, MemberKey, locale) {
      forall i | 0 <= i < |a| ensures a[i] == b[i] {
        assert a[i] in multiset(b);
        var j :| 0 <= j < |b| && b[j] == a[i];
        assert MemberKey(a[j]) == MemberKey(a[i]);
      }
    }
  }

  lemma ConfigurationsAgree(a: seq<Entry>, b: seq<Entry>, locale: Locale)
    requires StrictTotal(locale) && DistinctKeys(a, EntryKey) && DistinctKeys(b, EntryKey)
    ensures Canonical(ConfigurationJson(a, locale), locale) == Canonical(ConfigurationJson(b, locale), locale)
            <==> multiset(a) == multiset(b)
  {
    ConfigurationIsSorted(a, locale);
    ConfigurationIsSorted(b, locale);
    var e := (x: Entry) => x;
    SortIsCanonical(a, b, e, EntryKey, locale);
    assert Map(e, a) == a && Map(e, b) == b;
    var x, y := Sort(a, EntryKey, locale), Sort(b, EntryKey, locale);
    assert Map(e, x) == x && Map(e, y) == y;
    if Map(EntryMember, x) == Map(EntryMember, y) {
      forall i | 0 <= i < |x| ensures x[i] == y[i] {
        assert EntryMember(x[i]) == EntryMember(y[i]);
      }
    }
  }

  /** The second sort of a configuration changes nothing. */
  lemma ConfigurationIsSorted(c: seq<Entry>, locale: Locale)
    requires StrictTotal(locale)
    ensures Canonical(ConfigurationJson(c, locale), locale) == ConfigurationJson(c, locale)
  {
    var members := Map(EntryMember, Sort(c, EntryKey, locale));
    SortSorts(c, EntryKey, locale);
    assert CanonicalMembers(members, locale) == members;
    assert Sorted(members, MemberKey, locale);
    SortedIsFixed(members, MemberKey, locale);
  }

  /** A requirement's members once canonical: only the configuration is an object. */
  function RequirementView(r: Requirement, locale: Locale): seq<Member> {
    [Member(ID, Str(r.id)), Member(LABEL, Str(r.caption)), Member(KIND, Str(r.kind)),
     Member(REQUIRED, Bool(r.required)),
     Member(CONFIGURATION, Canonical(ConfigurationJson(r.configuration, locale), locale)),
     Member(POSITION, Num(r.position))]
  }

  lemma RequirementIsView(r: Requirement, locale: Locale)
    ensures CanonicalMembers(RequirementMembers(r, locale), locale) == RequirementView(r, locale)
    ensures DistinctKeys(RequirementView(r, locale), MemberKey)
    ensures Canonical(RequirementJson(locale)(r), locale) == Obj(Sort(RequirementView(r, locale), MemberKey, locale))
  {
    assert REQUIRED[0] != POSITION[0];
  }

  lemma RequirementsAgree(r: Requirement, s: Requirement, locale: Locale)
    requires StrictTotal(locale) && DistinctKeys(r.configuration, EntryKey) && DistinctKeys(s.configuration, EntryKey)
    ensures Canonical(RequirementJson(locale)(r), locale) == Canonical(RequirementJson(locale)(s), locale)
            <==> TermsOfRequirement(r) == TermsOfRequirement(s)
  {
    var a, b := RequirementView(r, locale), RequirementView(s, locale);
    RequirementIsView(r, locale);
    RequirementIsView(s, locale);
    SameMembers(a, b, locale);
    ConfigurationsAgree(r.configuration, s.configuration, locale);
    RequirementFields(r, s, locale);
  }

  lemma RequirementFields(r: Requirement, s: Requirement, locale: Locale)
    ensures RequirementView(r, locale) == RequirementView(s, locale) <==>
            && r.id == s.id && r.caption == s.caption && r.kind == s.kind && r.required == s.required
            && r.position == s.position
            && Canonical(ConfigurationJson(r.configuration, locale), locale)
               == Canonical(ConfigurationJson(s.configuration, locale), locale)
  {
    var a, b := RequirementView(r, locale), RequirementView(s, locale);
    assert a == b <==> a[0] == b[0] && a[1] == b[1] && a[2] == b[2] && a[3] == b[3] && a[4] == b[4] && a[5] == b[5];
  }

  /** Requirement lists, sorted and canonical. */
  function RequirementsJson(rs: seq<Requirement>, locale: Locale): Json {
    Canonical(Arr(Map(RequirementJson(locale), SortRequirements(rs, locale))), locale)
  }

  /** Pointwise the same canonical values exactly when pointwise the same terms. */
  lemma RequirementListsAgree(a: seq<Requirement>, b: seq<Requirement>, locale: Locale)
    requires StrictTotal(locale) && DistinctRequirements(a) && DistinctRequirements(b)
    ensures RequirementsJson(a, locale) == RequirementsJson(b, locale)
            <==> multiset(Map(TermsOfRequirement, a)) == multiset(Map(TermsOfRequirement, b))
  {
    EarlierIsStrict(locale);
    SortIsCanonical(a, b, TermsOfRequirement, RequirementPlace, Earlier(locale));
    var x, y := SortRequirements(a, locale), SortRequirements(b, locale);
    SortKeepsConfigurations(a, locale);
    SortKeepsConfigurations(b, locale);
    if |x| == |y| {
      forall i | 0 <= i < |x|
        ensures Canonical(RequirementJson(locale)(x[i]), locale) == Canonical(RequirementJson(locale)(y[i]), locale)
                <==> TermsOfRequirement(x[i]) == TermsOfRequirement(y[i]) {
        RequirementsAgree(x[i], y[i], locale);
      }
    }
    PointwiseAgree(x, y, RequirementJson(locale), TermsOfRequirement, locale);
  }

  lemma SortKeepsConfigurations(rs: seq<Requirement>, locale: Locale)
    requires DistinctRequirements(rs)
    ensures forall r <- SortRequirements(rs, locale) :: DistinctKeys(r.configuration, EntryKey)
  {
    SortPermutes(rs, RequirementPlace, Earlier(locale));
    forall r | r in SortRequirements(rs, locale) ensures DistinctKeys(r.configuration, EntryKey) {
      assert r in multiset(rs);
    }
  }

  lemma PointwiseAgree<T, U>(x: seq<T>, y: seq<T>, json: T -> Json, terms: T -> U, locale: Locale)
    requires |x| == |y| ==>
               forall i | 0 <= i < |x| ::
                 Canonical(json(x[i]), locale) == Canonical(json(y[i]), locale) <==> terms(x[i]) == terms(y[i])
    ensures Canonical(Arr(Map(json, x)), locale) == Canonical(Arr(Map(json, y)), locale)
        <==> Map(terms, x) == Map(terms, y)
  {
    var a, b := Canonical(Arr(Map(json, x)), locale).items, Canonical(Arr(Map(json, y)), locale).items;
    assert |a| == |x| && |b| == |y|;
    assert forall i | 0 <= i < |x| :: a[i] == Canonical(json(x[i]), locale);
    assert forall i | 0 <= i < |y| :: b[i] == Canonical(json(y[i]), locale);
    if |x| == |y| {
      if a == b {
        forall i | 0 <= i < |x| ensures Map(terms, x)[i] == Map(terms, y)[i] { assert a[i] == b[i]; }
      }
      if Map(terms, x) == Map(terms, y) {
        forall i | 0 <= i < |x| ensures a[i] == b[i] { assert Map(terms, x)[i] == Map(terms, y)[i]; }
      }
    }
  }

  /*** Deliverables ***/

  function DeliverableView(d: Deliverable, locale: Locale): seq<Member> {
    [Member(ID, Str(d.id)), Member(TITLE, Str(d.title)), Member(DESCRIPTION, Str(d.description)),
     Member(REQUIRED, Bool(d.required)), Member(ACTIVE, Bool(d.active)), Member(POSITION, Num(d.position)),
     Member(EVIDENCE_REQUIREMENTS, RequirementsJson(d.requirements, locale))]
  }

  lemma DeliverableIsView(d: Deliverable, locale: Locale)
    ensures CanonicalMembers(DeliverableMembers(d, locale), locale) == DeliverableView(d, locale)
    ensures DistinctKeys(DeliverableView(d, locale), MemberKey)
    ensures Canonical(DeliverableJson(locale)(d), locale) == Obj(Sort(DeliverableView(d, locale), MemberKey, locale))
  {
    assert REQUIRED[0] != POSITION[0];
  }

  lemma DeliverableFields(d: Deliverable, e: Deliverable, locale: Locale)
    ensures DeliverableView(d, locale) == DeliverableView(e, locale) <==>
            && d.id == e.id && d.title == e.title && d.description == e.description && d.required == e.required
            && d.active == e.active && d.position == e.position
            && RequirementsJson(d.requirements, locale) == RequirementsJson(e.requirements, locale)
  {
    var a, b := DeliverableView(d, locale), DeliverableView(e, locale);
    assert a == b <==> a[0] == b[0] && a[1] == b[1] && a[2] == b[2] && a[3] == b[3] && a[4] == b[4] && a[5] == b[5]
                       && a[6] == b[6];
  }

  lemma DeliverablesAgree(d: Deliverable, e: Deliverable, locale: Locale)
    requires StrictTotal(locale) && DistinctRequirements(d.requirements) && DistinctRequirements(e.requirements)
    ensures Canonical(DeliverableJson(locale)(d), locale) == Canonical(DeliverableJson(locale)(e), locale)
            <==> TermsOfDeliverable(d) == TermsOfDeliverable(e)
  {
    DeliverableIsView(d, locale);
    DeliverableIsView(e, locale);
    SameMembers(DeliverableView(d, locale), DeliverableView(e, locale), locale);
    DeliverableFields(d, e, locale);
    RequirementListsAgree(d.requirements, e.requirements, locale);
  }

  lemma SortKeepsRequirements(ds: seq<Deliverable>, locale: Locale)
    requires DistinctWork(ds)
    ensures forall d <- SortDeliverables(ds, locale) :: DistinctRequirements(d.requirements)
  {
    SortPermutes(ds, DeliverablePlace, Earlier(locale));
    forall d | d in SortDeliverables(ds, locale) ensures DistinctRequirements(d.requirements) {
      assert d in multiset(ds);
    }
  }

  /** The canonical text is unambiguous: the same text exactly when the same terms, in whatever order. */
  lemma WorkTextIsCanonical(a: seq<Deliverable>, b: seq<Deliverable>, locale: Locale)
    requires StrictTotal(locale) && DistinctWork(a) && DistinctWork(b)
    ensures WorkText(a, locale) == WorkText(b, locale) <==> WorkTermsOf(a) == WorkTermsOf(b)
  {
    EarlierIsStrict(locale);
    SortIsCanonical(a, b, TermsOfDeliverable, DeliverablePlace, Earlier(locale));
    var x, y := SortDeliverables(a, locale), SortDeliverables(b, locale);
    SortKeepsRequirements(a, locale);
    SortKeepsRequirements(b, locale);
    if |x| == |y| {
      forall i | 0 <= i < |x|
        ensures Canonical(DeliverableJson(locale)(x[i]), locale) == Canonical(DeliverableJson(locale)(y[i]), locale)
                <==> TermsOfDeliverable(x[i]) == TermsOfDeliverable(y[i]) {
        DeliverablesAgree(x[i], y[i], locale);
      }
    }
    PointwiseAgree(x, y, DeliverableJson(locale), TermsOfDeliverable, locale);
    PrintIsUnambiguous(Canonical(Arr(Map(DeliverableJson(locale), x)), locale),
                       Canonical(Arr(Map(DeliverableJson(locale), y)), locale));
  }

  /*** The agreement commitment ***/

  datatype Draft = Draft(
    buyer: Address, seller: Address, arbitrator: Address, requiredAmount: nat, nonce: Digest, registry: Address,
    policy: Policies.Policy, deliverables: seq<Deliverable>)

  function AgreementCommitment(d: Draft, locale: Locale): Digest
    requires Policies.InRange(d.policy)
  {
    var terms := Keccak(TermsTuple(d.buyer, d.seller, d.arbitrator, d.requiredAmount,
                                   Policies.PolicyCommitment(d.policy), d.nonce, d.registry));
    var work := WorkCommitment(d.deliverables, locale);
    if work == ZERO_HASH then terms else Keccak(PairTuple(terms, work))
  }

  /**
   * An agreement commitment fixes the participants, the amount, the nonce, the registry, the policy and the
   * work terms.
   */
  lemma AgreementCommitmentBinds(a: Draft, b: Draft, locale: Locale)
    requires StrictTotal(locale) && DistinctWork(a.deliverables) && DistinctWork(b.deliverables)
    requires Policies.InRange(a.policy) && Policies.InRange(b.policy)
    ensures AgreementCommitment(a, locale) == AgreementCommitment(b, locale) <==>
            && a == b.(deliverables := a.deliverables)
            && WorkTermsOf(a.deliverables) == WorkTermsOf(b.deliverables)
  {
    WorkTextIsCanonical(a.deliverables, b.deliverables, locale);
    Policies.CommitmentBindsPolicy(a.policy, b.policy);
    assert |WorkTermsOf(a.deliverables)| == |a.deliverables| && |WorkTermsOf(b.deliverables)| == |b.deliverables|;
  }
}
