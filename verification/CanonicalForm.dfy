/** What the canonical text of the work terms says, and where; `packages/shared/src/index.ts`. */
module CanonicalForm {
  import opened Digests
  import opened Numerals
  import opened Sorting
  import opened Json
  import opened WorkTerms
  import Policies

  /** An object whose keys come in locale order, each once. */
  ghost predicate InOrder(j: Json, locale: Locale) {
    j.Obj? && forall a, b | 0 <= a < b < |j.members| :: locale(j.members[a].key, j.members[b].key)
  }

  predicate Has(j: Json, key: Words, value: Json) {
    j.Obj? && Member(key, value) in j.members
  }

  ghost predicate ShowsConfiguration(j: Json, c: seq<Entry>, locale: Locale) {
    && InOrder(j, locale) && |j.members| == |c|
    && forall e <- c :: Has(j, e.key, Str(e.value))
  }

  /** Six members and no others; the configuration is an object of its own. */
  ghost predicate ShowsRequirement(j: Json, r: Requirement, locale: Locale) {
    && InOrder(j, locale) && |j.members| == 6
    && Has(j, ID, Str(r.id)) && Has(j, LABEL, Str(r.caption)) && Has(j, KIND, Str(r.kind))
    && Has(j, REQUIRED, Bool(r.required)) && Has(j, POSITION, Num(r.position))
    && exists c {:trigger Has(j, CONFIGURATION, c)} ::
         Has(j, CONFIGURATION, c) && ShowsConfiguration(c, r.configuration, locale)
  }

  function Self<T>(x: T): T { x }

  function RequirementFirst(locale: Locale): (Requirement, Requirement) -> bool {
    (r: Requirement, s: Requirement) => r.position < s.position || (r.position == s.position && locale(r.id, s.id))
  }

  function DeliverableFirst(locale: Locale): (Deliverable, Deliverable) -> bool {
    (d: Deliverable, e: Deliverable) => d.position < e.position || (d.position == e.position && locale(d.id, e.id))
  }

  /** How many requirements have a lower position, or the same position and an earlier id. */
  function RequirementRank(rs: seq<Requirement>, r: Requirement, locale: Locale): nat {
    Before(rs, r, Self, RequirementFirst(locale))
  }

  function DeliverableRank(ds: seq<Deliverable>, d: Deliverable, locale: Locale): nat {
    Before(ds, d, Self, DeliverableFirst(locale))
  }

  lemma RequirementStands(rs: seq<Requirement>, r: Requirement, locale: Locale)
    requires StrictTotal(locale) && DistinctKeys(rs, RequirementPlace) && r in rs
    ensures var k := RequirementRank(rs, r, locale);
            k < |rs| == |SortRequirements(rs, locale)| && SortRequirements(rs, locale)[k] == r
  {
    EarlierIsStrict(locale);
    SortPlaces(rs, r, RequirementPlace, Earlier(locale));
    BeforeAgrees(rs, RequirementPlace(r), RequirementPlace, Earlier(locale), rs, r, Self,
                 RequirementFirst(locale));
  }

  lemma DeliverableStands(ds: seq<Deliverable>, d: Deliverable, locale: Locale)
    requires StrictTotal(locale) && DistinctKeys(ds, DeliverablePlace) && d in ds
    ensures var k := DeliverableRank(ds, d, locale);
            k < |ds| == |SortDeliverables(ds, locale)| && SortDeliverables(ds, locale)[k] == d
  {
    EarlierIsStrict(locale);
    SortPlaces(ds, d, DeliverablePlace, Earlier(locale));
    BeforeAgrees(ds, DeliverablePlace(d), DeliverablePlace, Earlier(locale), ds, d, Self,
                 DeliverableFirst(locale));
  }

  /** Each requirement stands behind those of a lower position, or of the same position and an earlier id. */
  ghost predicate ShowsRequirements(j: Json, rs: seq<Requirement>, locale: Locale) {
    && j.Arr? && |j.items| == |rs|
    && forall r <- rs ::
         RequirementRank(rs, r, locale) < |rs| && ShowsRequirement(j.items[RequirementRank(rs, r, locale)], r, locale)
  }

  /** Seven members and no others. */
  ghost predicate ShowsDeliverable(j: Json, d: Deliverable, locale: Locale) {
    && InOrder(j, locale) && |j.members| == 7
    && Has(j, ID, Str(d.id)) && Has(j, TITLE, Str(d.title)) && Has(j, DESCRIPTION, Str(d.description))
    && Has(j, REQUIRED, Bool(d.required)) && Has(j, ACTIVE, Bool(d.active)) && Has(j, POSITION, Num(d.position))
    && exists rs {:trigger Has(j, EVIDENCE_REQUIREMENTS, rs)} ::
         Has(j, EVIDENCE_REQUIREMENTS, rs) && ShowsRequirements(rs, d.requirements, locale)
  }

  ghost predicate ShowsWork(j: Json, ds: seq<Deliverable>, locale: Locale) {
    && j.Arr? && |j.items| == |ds|
    && forall d <- ds ::
         DeliverableRank(ds, d, locale) < |ds| && ShowsDeliverable(j.items[DeliverableRank(ds, d, locale)], d, locale)
  }

  lemma SortedObject(members: seq<Member>, locale: Locale)
    requires StrictTotal(locale) && DistinctKeys(members, MemberKey)
    ensures var j := Obj(Sort(members, MemberKey, locale));
            InOrder(j, locale) && |j.members| == |members| && forall m <- members :: Has(j, m.key, m.value)
  {
    var sorted := Sort(members, MemberKey, locale);
    SortSorts(members, MemberKey, locale);
    SortPermutes(members, MemberKey, locale);
    SortKeepsDistinct(members, MemberKey, locale);
    forall a, b | 0 <= a < b < |sorted| ensures locale(sorted[a].key, sorted[b].key) {
      assert MemberKey(sorted[a]) != MemberKey(sorted[b]) && !locale(MemberKey(sorted[b]), MemberKey(sorted[a]));
    }
    forall m | m in members ensures m in sorted {
      assert m in multiset(sorted);
    }
  }

  lemma ConfigurationShows(c: seq<Entry>, locale: Locale)
    requires StrictTotal(locale) && DistinctKeys(c, EntryKey)
    ensures ShowsConfiguration(Canonical(ConfigurationJson(c, locale), locale), c, locale)
  {
    var sorted := Sort(c, EntryKey, locale);
    var j := ConfigurationJson(c, locale);
    ConfigurationIsSorted(c, locale);
    SortSorts(c, EntryKey, locale);
    SortPermutes(c, EntryKey, locale);
    SortKeepsDistinct(c, EntryKey, locale);
    forall a, b | 0 <= a < b < |sorted| ensures locale(j.members[a].key, j.members[b].key) {
      assert EntryKey(sorted[a]) != EntryKey(sorted[b]) && !locale(EntryKey(sorted[b]), EntryKey(sorted[a]));
    }
    forall e | e in c ensures Has(j, e.key, Str(e.value)) {
      assert e in multiset(sorted);
      var i :| 0 <= i < |sorted| && sorted[i] == e;
      assert j.members[i] == EntryMember(e);
    }
  }

  lemma RequirementShows(r: Requirement, locale: Locale)
    requires StrictTotal(locale) && DistinctKeys(r.configuration, EntryKey)
    ensures ShowsRequirement(Canonical(RequirementJson(locale)(r), locale), r, locale)
  {
    var view := RequirementView(r, locale);
    RequirementIsView(r, locale);
    SortedObject(view, locale);
    ConfigurationShows(r.configuration, locale);
    var j := Obj(Sort(view, MemberKey, locale));
    assert forall i | 0 <= i < 6 :: view[i] in view;
    assert Has(j, view[0].key, view[0].value) && Has(j, view[1].key, view[1].value);
    assert Has(j, view[2].key, view[2].value) && Has(j, view[3].key, view[3].value);
    assert Has(j, view[4].key, view[4].value) && Has(j, view[5].key, view[5].value);
  }

  lemma RequirementsShow(rs: seq<Requirement>, locale: Locale)
    requires StrictTotal(locale) && DistinctRequirements(rs)
    ensures ShowsRequirements(RequirementsJson(rs, locale), rs, locale)
  {
    var sorted := SortRequirements(rs, locale);
    var j := RequirementsJson(rs, locale);
    SortPermutes(rs, RequirementPlace, Earlier(locale));
    assert |j.items| == |sorted|;
    forall r | r in rs
      ensures RequirementRank(rs, r, locale) < |rs|
      ensures ShowsRequirement(j.items[RequirementRank(rs, r, locale)], r, locale) {
      RequirementStands(rs, r, locale);
      RequirementShows(r, locale);
      var k := RequirementRank(rs, r, locale);
      assert sorted[k] == r && j.items[k] == Canonical(RequirementJson(locale)(sorted[k]), locale);
    }
  }

  lemma DeliverableShows(d: Deliverable, locale: Locale)
    requires StrictTotal(locale) && DistinctRequirements(d.requirements)
    ensures ShowsDeliverable(Canonical(DeliverableJson(locale)(d), locale), d, locale)
  {
    var view := DeliverableView(d, locale);
    DeliverableIsView(d, locale);
    SortedObject(view, locale);
    RequirementsShow(d.requirements, locale);
    var j := Obj(Sort(view, MemberKey, locale));
    assert forall i | 0 <= i < 7 :: view[i] in view;
    assert Has(j, view[0].key, view[0].value) && Has(j, view[1].key, view[1].value);
    assert Has(j, view[2].key, view[2].value) && Has(j, view[3].key, view[3].value);
    assert Has(j, view[4].key, view[4].value) && Has(j, view[5].key, view[5].value);
    assert Has(j, view[6].key, view[6].value);
  }

  lemma WorkShows(ds: seq<Deliverable>, locale: Locale) returns (j: Json)
    requires StrictTotal(locale) && DistinctWork(ds)
    ensures WorkText(ds, locale) == Print(j) && ShowsWork(j, ds, locale)
  {
    var sorted := SortDeliverables(ds, locale);
    j := Canonical(Arr(Map(DeliverableJson(locale), sorted)), locale);
    SortPermutes(ds, DeliverablePlace, Earlier(locale));
    assert |j.items| == |sorted|;
    forall d | d in ds
      ensures DeliverableRank(ds, d, locale) < |ds|
      ensures ShowsDeliverable(j.items[DeliverableRank(ds, d, locale)], d, locale) {
      DeliverableStands(ds, d, locale);
      DeliverableShows(d, locale);
      var k := DeliverableRank(ds, d, locale);
      assert sorted[k] == d && j.items[k] == Canonical(DeliverableJson(locale)(sorted[k]), locale);
    }
  }

  /**
   * The canonical text parses, to the end, into exactly the work terms: every field under its own name and no other,
   * keys in locale order at every depth, deliverables and requirements in the order of position and id.
   */
  lemma WorkTextShows(ds: seq<Deliverable>, locale: Locale)
    requires StrictTotal(locale) && DistinctWork(ds)
    ensures var parsed := Parse(WorkText(ds, locale));
            parsed.Some? && parsed.value.1 == [] && ShowsWork(parsed.value.0, ds, locale)
  {
    var j := WorkShows(ds, locale);
    ParseInverts(j, []);
    assert Print(j) + [] == Print(j);
  }

  /** The two-character escapes of section 7 of RFC 8259 that `JSON.stringify` uses. */
  const SHORT_ESCAPES := map[
    '\"' as nat := Units("\\\""), '\\' as nat := Units("\\\\"), 8 := Units("\\b"), 9 := Units("\\t"),
    10 := Units("\\n"), 12 := Units("\\f"), 13 := Units("\\r")]

  /** Four lower-case hexadecimal digits. */
  function HexFour(u: nat): Words
    requires u < 0x10000
  {
    var digits := Units("0123456789abcdef");
    [digits[u / 0x1000], digits[u / 0x100 % 0x10], digits[u / 0x10 % 0x10], digits[u % 0x10]]
  }

  /** How each unit of a string is written; a surrogate pair is written as it is. */
  lemma EscapesAreJson(u: nat, low: nat)
    requires u < 0x10000
    ensures Escaped([u]) == if u in SHORT_ESCAPES then SHORT_ESCAPES[u]
                            else if u < 0x20 || 0xd800 <= u < 0xe000 then Units("\\u") + HexFour(u)
                            else [u]
    ensures 0xd800 <= u < 0xdc00 <= low < 0xe000 ==> Escaped([u, low]) == [u, low]
  {
    assert [u, low][2..] == [];
    if u in SHORT_ESCAPES {
      assert Escaped([u]) == EscapeUnit(u);
    } else {
      HexDigits(u / 0x1000);
      HexDigits(u / 0x100 % 0x10);
      HexDigits(u / 0x10 % 0x10);
      HexDigits(u % 0x10);
      assert Escaped([u]) == EscapeUnit(u);
    }
  }

  lemma HexDigits(d: nat)
    requires d < 16
    ensures Units("0123456789abcdef")[d] == HexDigit(d)
  {}

  /** Each term stands in the tuple under its own name; work terms are hashed in only if there are any. */
  lemma CommitmentNames(d: Draft, locale: Locale)
    requires Policies.InRange(d.policy)
    ensures var commitment := AgreementCommitment(d, locale);
            && commitment.Keccak?
            && (commitment.preimage.PairTuple? <==> d.deliverables != [])
            && (d.deliverables != [] ==> commitment.preimage.right == Keccak(Text(WorkText(d.deliverables, locale))))
            && var terms := if d.deliverables == [] then commitment else commitment.preimage.left;
               terms.Keccak? && terms.preimage.TermsTuple?
               && terms.preimage.buyer == d.buyer && terms.preimage.seller == d.seller
               && terms.preimage.arbitrator == d.arbitrator && terms.preimage.requiredAmount == d.requiredAmount
               && terms.preimage.policy == Policies.PolicyCommitment(d.policy)
               && terms.preimage.nonce == d.nonce && terms.preimage.registry == d.registry
  {}
}
