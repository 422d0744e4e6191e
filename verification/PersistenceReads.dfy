/** Reading an agreement back, and what its recomputed commitment is worth. */
module PersistenceReads {
  import opened Digests
  import opened Numerals
  import opened Sorting
  import opened Json
  import opened WorkTerms
  import opened Persistence
  import Policies

  /*** The two queries and the regrouping ***/

  function RowPlace(row: DeliverableRow): Place { (row.position, row.id) }

  function RowRank(row: RequirementRow): (Words, Place) { (row.deliverable, (row.position, row.id)) }

  /** `ORDER BY deliverable_id, position, id`. */
  function Ranked(uuid: Locale): ((Words, Place), (Words, Place)) -> bool {
    (a: (Words, Place), b: (Words, Place)) => uuid(a.0, b.0) || (a.0 == b.0 && Earlier(uuid)(a.1, b.1))
  }

  function DeliverablesOf(agreement: Digest): DeliverableRow -> bool {
    (row: DeliverableRow) => row.agreement == agreement
  }

  function RequirementsOf(agreement: Digest): RequirementRow -> bool {
    (row: RequirementRow) => row.agreement == agreement
  }

  function Within(deliverable: Words): RequirementRow -> bool {
    (row: RequirementRow) => row.deliverable == deliverable
  }

  function SelectDeliverables(db: Tables, id: Digest, uuid: Locale): seq<DeliverableRow> {
    Sort(Filter(DeliverablesOf(id), db.deliverables), RowPlace, Earlier(uuid))
  }

  function SelectRequirements(db: Tables, id: Digest, uuid: Locale): seq<RequirementRow> {
    Sort(Filter(RequirementsOf(id), db.requirements), RowRank, Ranked(uuid))
  }

  function ReadRequirement(row: RequirementRow): Requirement {
    Requirement(row.id, row.caption, row.kind, row.required, row.configuration, row.position)
  }

  function ReadDeliverable(rows: seq<RequirementRow>): DeliverableRow -> Deliverable {
    (row: DeliverableRow) =>
      Deliverable(row.id, row.title, row.description, row.required, row.active, row.position,
                  Map(ReadRequirement, Filter(Within(row.id), rows)))
  }

  /** `withDeliverables`. */
  function Load(db: Tables, id: Digest, uuid: Locale): seq<Deliverable> {
    Map(ReadDeliverable(SelectRequirements(db, id, uuid)), SelectDeliverables(db, id, uuid))
  }

  /*** Filtering ***/

  lemma {:induction false} FilterConcat<T>(P: T -> bool, s: seq<T>, t: seq<T>)
    ensures Filter(P, s + t) == Filter(P, s) + Filter(P, t)
  {
    if s == [] {
      assert s + t == t;
    } else {
      FilterConcat(P, s[1..], t);
      assert (s + t)[0] == s[0] && (s + t)[1..] == s[1..] + t;
      if P(s[0]) { Regroup([s[0]], Filter(P, s[1..]), Filter(P, t)); }
    }
  }

  lemma {:induction false} FilterNone<T>(P: T -> bool, s: seq<T>)
    requires forall i | 0 <= i < |s| :: !P(s[i])
    ensures Filter(P, s) == []
  {
    if s != [] { FilterNone(P, s[1..]); }
  }

  lemma {:induction false} FilterAll<T>(P: T -> bool, s: seq<T>)
    requires forall i | 0 <= i < |s| :: P(s[i])
    ensures Filter(P, s) == s
  {
    if s != [] { FilterAll(P, s[1..]); }
  }

  lemma {:induction false} FilterKeepsDistinct<T, K>(P: T -> bool, s: seq<T>, key: T -> K)
    requires DistinctKeys(s, key)
    ensures DistinctKeys(Filter(P, s), key)
    ensures forall x <- Filter(P, s) :: x in s
  {
    if s != [] {
      FilterKeepsDistinct(P, s[1..], key);
      forall y | y in Filter(P, s[1..]) ensures key(y) != key(s[0]) {
        assert y in s[1..];
      }
    }
  }

  lemma {:induction false} InsertFilters<T, K, U>(P: T -> bool, f: T -> U, x: T, s: seq<T>,
                                                  key: T -> K, less: (K, K) -> bool)
    ensures multiset(Map(f, Filter(P, Insert(x, s, key, less))))
            == (if P(x) then multiset{f(x)} else multiset{}) + multiset(Map(f, Filter(P, s)))
  {
    var keep := (y: T) => if P(y) then [y] else [];
    if s != [] && less(key(s[0]), key(x)) {
      InsertFilters(P, f, x, s[1..], key, less);
      MapConcat(f, keep(s[0]), Filter(P, Insert(x, s[1..], key, less)));
      MapConcat(f, keep(s[0]), Filter(P, s[1..]));
      assert Insert(x, s, key, less)[1..] == Insert(x, s[1..], key, less);
    } else {
      assert ([x] + s)[1..] == s && (s == [] ==> [x] + s == [x]);
      MapConcat(f, keep(x), Filter(P, s));
      assert Map(f, [x]) == [f(x)];
    }
  }

  lemma MapConcat<T, U>(f: T -> U, s: seq<T>, t: seq<T>)
    ensures Map(f, s + t) == Map(f, s) + Map(f, t)
  {}

  /** Selecting from a sorted table gives the same elements as selecting from the table. */
  lemma {:induction false} SortFilters<T, K, U>(P: T -> bool, f: T -> U, s: seq<T>, key: T -> K, less: (K, K) -> bool)
    ensures multiset(Map(f, Filter(P, Sort(s, key, less)))) == multiset(Map(f, Filter(P, s)))
  {
    if s != [] {
      SortFilters(P, f, s[1..], key, less);
      InsertFilters(P, f, s[0], Sort(s[1..], key, less), key, less);
      var first := if P(s[0]) then [s[0]] else [];
      MapConcat(f, first, Filter(P, s[1..]));
      assert Map(f, [s[0]]) == [f(s[0])] && Map(f, []) == [];
    }
  }

  /*** The rows of one agreement ***/

  lemma OwnDeliverables(db: Tables, a: AgreementRow, ds: seq<Deliverable>, jsonb: Locale)
    requires Constraints(db) && Storable(db, a, ds, jsonb)
    ensures Filter(DeliverablesOf(a.id), Appended(db, a, ds, jsonb).deliverables) == Rows(a.id, ds)
    ensures Filter(RequirementsOf(a.id), Appended(db, a, ds, jsonb).requirements) == RequirementRows(a.id, ds, jsonb)
  {
    AgreementIsNew(db, a);
    FilterConcat(DeliverablesOf(a.id), db.deliverables, Rows(a.id, ds));
    FilterNone(DeliverablesOf(a.id), db.deliverables);
    FilterAll(DeliverablesOf(a.id), Rows(a.id, ds));
    RequirementRowsBelong(a.id, ds, jsonb);
    FilterConcat(RequirementsOf(a.id), db.requirements, RequirementRows(a.id, ds, jsonb));
    FilterNone(RequirementsOf(a.id), db.requirements);
    FilterAll(RequirementsOf(a.id), RequirementRows(a.id, ds, jsonb));
  }

  lemma AgreementIsNew(db: Tables, a: AgreementRow)
    requires Constraints(db) && DistinctKeys(db.agreements + [a], AgreementId)
    ensures forall i | 0 <= i < |db.deliverables| :: db.deliverables[i].agreement != a.id
    ensures forall i | 0 <= i < |db.requirements| :: db.requirements[i].agreement != a.id
  {
    var all := db.agreements + [a];
    forall row | row in db.agreements ensures row.id != a.id {
      var i :| 0 <= i < |db.agreements| && db.agreements[i] == row;
      assert AgreementId(all[i]) != AgreementId(all[|db.agreements|]);
    }
    forall i | 0 <= i < |db.deliverables| ensures db.deliverables[i].agreement != a.id {
      assert AgreementKnown(db.agreements, db.deliverables[i].agreement);
    }
    forall i | 0 <= i < |db.requirements| ensures db.requirements[i].agreement != a.id {
      assert AgreementKnown(db.agreements, db.requirements[i].agreement);
    }
  }

  /** Among the requirement rows of an agreement, those of one deliverable are its own. */
  lemma {:induction false} OwnRequirements(agreement: Digest, ds: seq<Deliverable>, jsonb: Locale, k: nat)
    requires k < |ds| && forall i, j | 0 <= i < j < |ds| :: Lower(ds[i].id) != Lower(ds[j].id)
    ensures Filter(Within(Lower(ds[k].id)), RequirementRows(agreement, ds, jsonb))
            == Map(RequirementRowOf(agreement, ds[k], jsonb), ds[k].requirements)
    decreases ds
  {
    var P := Within(Lower(ds[k].id));
    var own := Map(RequirementRowOf(agreement, ds[0], jsonb), ds[0].requirements);
    FilterConcat(P, own, RequirementRows(agreement, ds[1..], jsonb));
    if k == 0 {
      FilterAll(P, own);
      OthersElsewhere(agreement, ds[1..], jsonb, Lower(ds[0].id));
    } else {
      assert Lower(ds[0].id) != Lower(ds[k].id);
      FilterNone(P, own);
      OwnRequirements(agreement, ds[1..], jsonb, k - 1);
    }
  }

  lemma {:induction false} OthersElsewhere(agreement: Digest, ds: seq<Deliverable>, jsonb: Locale, id: Words)
    requires forall i | 0 <= i < |ds| :: Lower(ds[i].id) != id
    ensures Filter(Within(id), RequirementRows(agreement, ds, jsonb)) == []
    decreases ds
  {
    if ds != [] {
      var own := Map(RequirementRowOf(agreement, ds[0], jsonb), ds[0].requirements);
      FilterConcat(Within(id), own, RequirementRows(agreement, ds[1..], jsonb));
      FilterNone(Within(id), own);
      OthersElsewhere(agreement, ds[1..], jsonb, id);
    }
  }

  /*** Terms read back ***/

  function KeptWork(ds: seq<Deliverable>, jsonb: Locale): seq<Deliverable> {
    Map((d: Deliverable) => KeptDeliverable(d, jsonb), ds)
  }

  predicate LowerIdsDiffer(ds: seq<Deliverable>) {
    forall i, j | 0 <= i < j < |ds| :: Lower(ds[i].id) != Lower(ds[j].id)
  }

  lemma StoredIdsDiffer(rows: seq<DeliverableRow>, agreement: Digest, ds: seq<Deliverable>)
    requires DistinctKeys(rows + Rows(agreement, ds), DeliverableId)
    ensures LowerIdsDiffer(ds)
  {
    forall i, j | 0 <= i < j < |ds| ensures Lower(ds[i].id) != Lower(ds[j].id) {
      var all, n := rows + Rows(agreement, ds), |rows|;
      assert DeliverableId(all[n + i]) != DeliverableId(all[n + j]);
    }
  }

  function RowTerms(row: RequirementRow): RequirementTerms {
    TermsOfRequirement(ReadRequirement(row))
  }

  lemma OwnTerms(agreement: Digest, d: Deliverable, jsonb: Locale)
    ensures Map(RowTerms, Map(RequirementRowOf(agreement, d, jsonb), d.requirements))
            == Map(TermsOfRequirement, KeptDeliverable(d, jsonb).requirements)
  {
    var x := Map(RowTerms, Map(RequirementRowOf(agreement, d, jsonb), d.requirements));
    var y := Map(TermsOfRequirement, KeptDeliverable(d, jsonb).requirements);
    forall i | 0 <= i < |d.requirements| ensures x[i] == y[i] {
      assert x[i] == RowTerms(RequirementRowOf(agreement, d, jsonb)(d.requirements[i]));
      assert y[i] == TermsOfRequirement(Kept(d.requirements[i], jsonb));
    }
  }

  lemma MapTwice(rows: seq<RequirementRow>)
    ensures Map(TermsOfRequirement, Map(ReadRequirement, rows)) == Map(RowTerms, rows)
  {}

  lemma ReadTerms(agreement: Digest, ds: seq<Deliverable>, uuid: Locale, jsonb: Locale, k: nat)
    requires k < |ds| && LowerIdsDiffer(ds)
    ensures var rows := Sort(RequirementRows(agreement, ds, jsonb), RowRank, Ranked(uuid));
            TermsOfDeliverable(ReadDeliverable(rows)(RowOf(agreement, ds[k])))
                == TermsOfDeliverable(KeptDeliverable(ds[k], jsonb))
  {
    var id := Lower(ds[k].id);
    var all := RequirementRows(agreement, ds, jsonb);
    OwnRequirements(agreement, ds, jsonb, k);
    SortFilters(Within(id), RowTerms, all, RowRank, Ranked(uuid));
    MapTwice(Filter(Within(id), Sort(all, RowRank, Ranked(uuid))));
    OwnTerms(agreement, ds[k], jsonb);
  }

  /** What is read back states the terms the columns kept. */
  lemma LoadedTerms(db: Tables, a: AgreementRow, ds: seq<Deliverable>, uuid: Locale, jsonb: Locale)
    requires Constraints(db) && Storable(db, a, ds, jsonb)
    ensures WorkTermsOf(Load(Appended(db, a, ds, jsonb), a.id, uuid)) == WorkTermsOf(KeptWork(ds, jsonb))
  {
    var after := Appended(db, a, ds, jsonb);
    OwnDeliverables(db, a, ds, jsonb);
    StoredIdsDiffer(db.deliverables, a.id, ds);
    var read := ReadDeliverable(SelectRequirements(after, a.id, uuid));
    var terms := (row: DeliverableRow) => TermsOfDeliverable(read(row));
    SortMaps(Rows(a.id, ds), terms, RowPlace, Earlier(uuid));
    assert Map(TermsOfDeliverable, Load(after, a.id, uuid)) == Map(terms, SelectDeliverables(after, a.id, uuid));
    forall k | 0 <= k < |ds| ensures terms(Rows(a.id, ds)[k]) == TermsOfDeliverable(KeptWork(ds, jsonb)[k]) {
      ReadTerms(a.id, ds, uuid, jsonb, k);
    }
    assert Map(terms, Rows(a.id, ds)) == Map(TermsOfDeliverable, KeptWork(ds, jsonb));
  }

  /*** Distinct places ***/

  /** Configurations are objects: no key twice. */
  predicate Configured(ds: seq<Deliverable>) {
    forall d <- ds :: forall r <- d.requirements :: DistinctKeys(r.configuration, EntryKey)
  }

  lemma RequirementSlotsDiffer(rows: seq<RequirementRow>, agreement: Digest, d: Deliverable, jsonb: Locale)
    requires DistinctKeys(rows, RequirementSlot)
    requires Filter(Within(Lower(d.id)), rows) == Map(RequirementRowOf(agreement, d, jsonb), d.requirements)
    ensures DistinctKeys(d.requirements, RequirementPlace)
  {
    var own := Map(RequirementRowOf(agreement, d, jsonb), d.requirements);
    FilterKeepsDistinct(Within(Lower(d.id)), rows, RequirementSlot);
    forall i, j | 0 <= i < j < |d.requirements|
      ensures RequirementPlace(d.requirements[i]) != RequirementPlace(d.requirements[j]) {
      assert RequirementSlot(own[i]) != RequirementSlot(own[j]);
    }
  }

  lemma SuffixDistinct<T, K>(rows: seq<T>, more: seq<T>, key: T -> K)
    requires DistinctKeys(rows + more, key)
    ensures DistinctKeys(more, key)
  {
    forall i, j | 0 <= i < j < |more| ensures key(more[i]) != key(more[j]) {
      assert (rows + more)[|rows| + i] == more[i] && (rows + more)[|rows| + j] == more[j];
    }
  }

  /** The unique positions of the tables are distinct places in the draft. */
  lemma StoredWorkIsDistinct(db: Tables, a: AgreementRow, ds: seq<Deliverable>, jsonb: Locale)
    requires Storable(db, a, ds, jsonb) && Configured(ds)
    ensures DistinctWork(ds)
  {
    SuffixDistinct(db.deliverables, Rows(a.id, ds), DeliverableSlot);
    SuffixDistinct(db.requirements, RequirementRows(a.id, ds, jsonb), RequirementSlot);
    StoredIdsDiffer(db.deliverables, a.id, ds);
    forall i, j | 0 <= i < j < |ds| ensures DeliverablePlace(ds[i]) != DeliverablePlace(ds[j]) {
      assert DeliverableSlot(Rows(a.id, ds)[i]) != DeliverableSlot(Rows(a.id, ds)[j]);
    }
    forall d | d in ds ensures DistinctRequirements(d.requirements) {
      var k :| 0 <= k < |ds| && ds[k] == d;
      OwnRequirements(a.id, ds, jsonb, k);
      RequirementSlotsDiffer(RequirementRows(a.id, ds, jsonb), a.id, d, jsonb);
    }
  }

  /** Requirements read for one deliverable have distinct places and their configurations distinct keys. */
  lemma ReadIsDistinct(rows: seq<RequirementRow>, uuid: Locale, id: Words)
    requires DistinctKeys(rows, RequirementId) && forall row <- rows :: DistinctKeys(row.configuration, EntryKey)
    ensures DistinctRequirements(Map(ReadRequirement, Filter(Within(id), Sort(rows, RowRank, Ranked(uuid)))))
  {
    var sorted := Sort(rows, RowRank, Ranked(uuid));
    var own := Filter(Within(id), sorted);
    forall i, j | 0 <= i < j < |rows| ensures RowRank(rows[i]) != RowRank(rows[j]) {
      assert RequirementId(rows[i]) != RequirementId(rows[j]);
    }
    SortKeepsDistinct(rows, RowRank, Ranked(uuid));
    SortPermutes(rows, RowRank, Ranked(uuid));
    FilterKeepsDistinct(Within(id), sorted, RowRank);
    var read := Map(ReadRequirement, own);
    forall i, j | 0 <= i < j < |read| ensures RequirementPlace(read[i]) != RequirementPlace(read[j]) {
      assert RowRank(own[i]) != RowRank(own[j]) && Within(id)(own[i]) && Within(id)(own[j]);
    }
    forall r | r in read ensures DistinctKeys(r.configuration, EntryKey) {
      var i :| 0 <= i < |read| && read[i] == r;
      assert own[i] in sorted && own[i] in multiset(rows);
    }
  }

  lemma {:induction false} RowsConfigured(agreement: Digest, ds: seq<Deliverable>, jsonb: Locale)
    requires Configured(ds)
    ensures forall row <- RequirementRows(agreement, ds, jsonb) :: DistinctKeys(row.configuration, EntryKey)
    decreases ds
  {
    if ds != [] {
      RowsConfigured(agreement, ds[1..], jsonb);
      forall row | row in Map(RequirementRowOf(agreement, ds[0], jsonb), ds[0].requirements)
        ensures DistinctKeys(row.configuration, EntryKey) {
        var i :| 0 <= i < |ds[0].requirements|
            && row == RequirementRowOf(agreement, ds[0], jsonb)(ds[0].requirements[i]);
        assert ds[0] in ds && ds[0].requirements[i] in ds[0].requirements;
        SortKeepsDistinct(ds[0].requirements[i].configuration, EntryKey, jsonb);
      }
    }
  }

  lemma LoadedIsDistinct(db: Tables, a: AgreementRow, ds: seq<Deliverable>, uuid: Locale, jsonb: Locale)
    requires Constraints(db) && Storable(db, a, ds, jsonb) && Configured(ds)
    ensures DistinctWork(Load(Appended(db, a, ds, jsonb), a.id, uuid))
  {
    var rows, requirements := Rows(a.id, ds), RequirementRows(a.id, ds, jsonb);
    OwnDeliverables(db, a, ds, jsonb);
    SuffixDistinct(db.deliverables, rows, DeliverableId);
    SuffixDistinct(db.requirements, requirements, RequirementId);
    RowsConfigured(a.id, ds, jsonb);
    LoadIsDistinct(rows, requirements, uuid);
  }

  lemma LoadIsDistinct(rows: seq<DeliverableRow>, requirements: seq<RequirementRow>, uuid: Locale)
    requires DistinctKeys(rows, DeliverableId) && DistinctKeys(requirements, RequirementId)
    requires forall row <- requirements :: DistinctKeys(row.configuration, EntryKey)
    ensures DistinctWork(Map(ReadDeliverable(Sort(requirements, RowRank, Ranked(uuid))),
                             Sort(rows, RowPlace, Earlier(uuid))))
  {
    var sorted := Sort(rows, RowPlace, Earlier(uuid));
    var work := Map(ReadDeliverable(Sort(requirements, RowRank, Ranked(uuid))), sorted);
    forall i, j | 0 <= i < j < |rows| ensures RowPlace(rows[i]) != RowPlace(rows[j]) {
      assert DeliverableId(rows[i]) != DeliverableId(rows[j]);
    }
    SortKeepsDistinct(rows, RowPlace, Earlier(uuid));
    forall i, j | 0 <= i < j < |work| ensures DeliverablePlace(work[i]) != DeliverablePlace(work[j]) {
      assert RowPlace(sorted[i]) != RowPlace(sorted[j]);
    }
    forall d | d in work ensures DistinctRequirements(d.requirements) {
      var i :| 0 <= i < |work| && work[i] == d;
      ReadIsDistinct(requirements, uuid, sorted[i].id);
    }
  }

  /*** What the columns keep ***/

  predicate PlainRequirement(r: Requirement) {
    Lower(r.id) == r.id && Paired(r.caption)
  }

  /** Lower-case ids and texts without unpaired surrogates. */
  predicate Plain(d: Deliverable) {
    Lower(d.id) == d.id && Paired(d.title) && Paired(d.description) && forall r <- d.requirements :: PlainRequirement(r)
  }

  lemma RequirementTermsKept(r: Requirement, jsonb: Locale)
    ensures TermsOfRequirement(Kept(r, jsonb)) == TermsOfRequirement(r) <==> PlainRequirement(r)
  {
    ColumnKeeps(r.caption);
    SortPermutes(r.configuration, EntryKey, jsonb);
  }

  /** Lists with distinct keys: a change that keeps the key keeps the terms as a whole only if it keeps each. */
  lemma KeptOneByOne<T, K, U>(s: seq<T>, after: seq<T>, f: T -> U, key: T -> K)
    requires |after| == |s| && DistinctKeys(s, key)
    requires forall i | 0 <= i < |s| :: forall j | 0 <= j < |s| :: f(after[i]) == f(s[j]) ==> key(s[i]) == key(s[j])
    ensures multiset(Map(f, after)) == multiset(Map(f, s)) <==> forall i | 0 <= i < |s| :: f(after[i]) == f(s[i])
  {
    if multiset(Map(f, after)) == multiset(Map(f, s)) {
      forall i | 0 <= i < |s| ensures f(after[i]) == f(s[i]) {
        assert Map(f, after)[i] in multiset(Map(f, s));
        var j :| 0 <= j < |s| && f(s[j]) == f(after[i]);
        assert key(s[i]) == key(s[j]);
      }
    }
    if forall i | 0 <= i < |s| :: f(after[i]) == f(s[i]) {
      assert Map(f, after) == Map(f, s);
    }
  }

  function RequirementPosition(r: Requirement): nat { r.position }

  function DeliverablePosition(d: Deliverable): nat { d.position }

  lemma RequirementListTermsKept(rs: seq<Requirement>, jsonb: Locale)
    requires DistinctKeys(rs, RequirementPosition)
    ensures var after := Map((r: Requirement) => Kept(r, jsonb), rs);
            multiset(Map(TermsOfRequirement, after)) == multiset(Map(TermsOfRequirement, rs))
                <==> forall r <- rs :: PlainRequirement(r)
  {
    var after := Map((r: Requirement) => Kept(r, jsonb), rs);
    forall i | 0 <= i < |rs|
      ensures after[i] == Kept(rs[i], jsonb)
      ensures TermsOfRequirement(after[i]) == TermsOfRequirement(rs[i]) <==> PlainRequirement(rs[i]) {
      RequirementTermsKept(rs[i], jsonb);
    }
    KeptOneByOne(rs, after, TermsOfRequirement, RequirementPosition);
    assert (forall r <- rs :: PlainRequirement(r)) <==> forall i | 0 <= i < |rs| :: PlainRequirement(rs[i]);
  }

  lemma DeliverableTermsKept(d: Deliverable, jsonb: Locale)
    requires DistinctKeys(d.requirements, RequirementPosition)
    ensures TermsOfDeliverable(KeptDeliverable(d, jsonb)) == TermsOfDeliverable(d) <==> Plain(d)
  {
    ColumnKeeps(d.title);
    ColumnKeeps(d.description);
    RequirementListTermsKept(d.requirements, jsonb);
  }

  predicate Positioned(ds: seq<Deliverable>) {
    DistinctKeys(ds, DeliverablePosition) && forall d <- ds :: DistinctKeys(d.requirements, RequirementPosition)
  }

  lemma WorkTermsKept(ds: seq<Deliverable>, jsonb: Locale)
    requires Positioned(ds)
    ensures WorkTermsOf(KeptWork(ds, jsonb)) == WorkTermsOf(ds) <==> forall d <- ds :: Plain(d)
  {
    var after := KeptWork(ds, jsonb);
    forall i | 0 <= i < |ds|
      ensures after[i] == KeptDeliverable(ds[i], jsonb)
      ensures TermsOfDeliverable(after[i]) == TermsOfDeliverable(ds[i]) <==> Plain(ds[i]) {
      DeliverableTermsKept(ds[i], jsonb);
    }
    KeptOneByOne(ds, after, TermsOfDeliverable, DeliverablePosition);
    assert (forall d <- ds :: Plain(d)) <==> forall i | 0 <= i < |ds| :: Plain(ds[i]);
  }

  lemma StoredIsPositioned(db: Tables, a: AgreementRow, ds: seq<Deliverable>, jsonb: Locale)
    requires Storable(db, a, ds, jsonb)
    ensures Positioned(ds)
  {
    SuffixDistinct(db.deliverables, Rows(a.id, ds), DeliverableSlot);
    SuffixDistinct(db.requirements, RequirementRows(a.id, ds, jsonb), RequirementSlot);
    StoredIdsDiffer(db.deliverables, a.id, ds);
    forall i, j | 0 <= i < j < |ds| ensures DeliverablePosition(ds[i]) != DeliverablePosition(ds[j]) {
      assert DeliverableSlot(Rows(a.id, ds)[i]) != DeliverableSlot(Rows(a.id, ds)[j]);
    }
    forall d | d in ds ensures DistinctKeys(d.requirements, RequirementPosition) {
      var k :| 0 <= k < |ds| && ds[k] == d;
      OwnRequirements(a.id, ds, jsonb, k);
      var own := Map(RequirementRowOf(a.id, d, jsonb), d.requirements);
      FilterKeepsDistinct(Within(Lower(d.id)), RequirementRows(a.id, ds, jsonb), RequirementSlot);
      forall i, j | 0 <= i < j < |d.requirements|
        ensures RequirementPosition(d.requirements[i]) != RequirementPosition(d.requirements[j]) {
        assert RequirementSlot(own[i]) != RequirementSlot(own[j]);
      }
    }
  }

  /*** Later creations ***/

  function FindAgreement(rows: seq<AgreementRow>, id: Digest): Option<AgreementRow> {
    if rows == [] then None else if rows[0].id == id then Some(rows[0]) else FindAgreement(rows[1..], id)
  }

  /** `getAgreementById`, as far as the commitment is concerned: the columns and the regrouped deliverables. */
  function ReadBack(db: Tables, id: Digest, uuid: Locale): Option<(Draft, Digest)> {
    var row := FindAgreement(db.agreements, id);
    if row.None? then None
    else Some((row.value.draft.(deliverables := Load(db, id, uuid)), row.value.commitment))
  }

  lemma {:induction false} FindsFirst(rows: seq<AgreementRow>, more: seq<AgreementRow>, id: Digest)
    ensures FindAgreement(rows + more, id)
            == if AgreementKnown(rows, id) then FindAgreement(rows, id) else FindAgreement(more, id)
    ensures AgreementKnown(rows, id) <==> FindAgreement(rows, id).Some?
  {
    if rows == [] {
      assert rows + more == more;
    } else {
      FindsFirst(rows[1..], more, id);
      assert (rows + more)[1..] == rows[1..] + more;
      assert AgreementKnown(rows, id) <==> rows[0].id == id || AgreementKnown(rows[1..], id);
    }
  }

  /** Another agreement's rows are no rows of this one. */
  lemma OthersAreFiltered(db: Tables, c: Creation, jsonb: Locale, id: Digest)
    requires c.row.id != id
    ensures Filter(DeliverablesOf(id), Appended(db, c.row, c.deliverables, jsonb).deliverables)
            == Filter(DeliverablesOf(id), db.deliverables)
    ensures Filter(RequirementsOf(id), Appended(db, c.row, c.deliverables, jsonb).requirements)
            == Filter(RequirementsOf(id), db.requirements)
  {
    var rows, requirements := Rows(c.row.id, c.deliverables), RequirementRows(c.row.id, c.deliverables, jsonb);
    RequirementRowsBelong(c.row.id, c.deliverables, jsonb);
    FilterConcat(DeliverablesOf(id), db.deliverables, rows);
    FilterNone(DeliverablesOf(id), rows);
    FilterConcat(RequirementsOf(id), db.requirements, requirements);
    FilterNone(RequirementsOf(id), requirements);
  }

  /** A stored agreement reads the same after another creation, whether that is committed or rolled back. */
  lemma ReadIsStable(db: Tables, c: Creation, uuid: Locale, jsonb: Locale, id: Digest)
    requires Constraints(db) && AgreementKnown(db.agreements, id)
    ensures AgreementKnown(Create(db, c, jsonb).agreements, id)
    ensures ReadBack(Create(db, c, jsonb), id, uuid) == ReadBack(db, id, uuid)
  {
    StatementsAmount(db, c.row, c.deliverables, jsonb);
    if Storable(db, c.row, c.deliverables, jsonb) {
      var row :| row in db.agreements && row.id == id;
      assert row in db.agreements + [c.row];
      NewIdDiffers(db.agreements, c.row, row);
      FindsFirst(db.agreements, [c.row], id);
      OthersAreFiltered(db, c, jsonb, id);
    }
  }

  lemma NewIdDiffers(rows: seq<AgreementRow>, added: AgreementRow, row: AgreementRow)
    requires DistinctKeys(rows + [added], AgreementId) && row in rows
    ensures added.id != row.id
  {
    var i :| 0 <= i < |rows| && rows[i] == row;
    assert AgreementId((rows + [added])[i]) != AgreementId((rows + [added])[|rows|]);
  }

  lemma {:induction false} ReadsAreStable(db: Tables, cs: seq<Creation>, uuid: Locale, jsonb: Locale, id: Digest)
    requires Constraints(db) && AgreementKnown(db.agreements, id)
    ensures ReadBack(CreateAll(db, cs, jsonb), id, uuid) == ReadBack(db, id, uuid)
    decreases cs
  {
    if cs != [] {
      CreateKeepsConstraints(db, cs[0], jsonb);
      ReadIsStable(db, cs[0], uuid, jsonb, id);
      ReadsAreStable(Create(db, cs[0], jsonb), cs[1..], uuid, jsonb, id);
    }
  }

  /** What a stored draft gives back right after it has been stored. */
  lemma StoredReadsBack(db: Tables, a: AgreementRow, draft: Draft, uuid: Locale, jsonb: Locale, locale: Locale)
    requires StrictTotal(locale) && Constraints(db) && Storable(db, a, draft.deliverables, jsonb)
    requires Configured(draft.deliverables) && Policies.InRange(draft.policy) && a.draft == draft.(deliverables := [])
    ensures var back := draft.(deliverables := Load(Appended(db, a, draft.deliverables, jsonb), a.id, uuid));
            && ReadBack(Appended(db, a, draft.deliverables, jsonb), a.id, uuid) == Some((back, a.commitment))
            && (AgreementCommitment(back, locale) == AgreementCommitment(draft, locale)
                <==> forall d <- draft.deliverables :: Plain(d))
  {
    var ds := draft.deliverables;
    var back := draft.(deliverables := Load(Appended(db, a, ds, jsonb), a.id, uuid));
    StoredWorkIsDistinct(db, a, ds, jsonb);
    StoredIsPositioned(db, a, ds, jsonb);
    LoadedIsDistinct(db, a, ds, uuid, jsonb);
    LoadedTerms(db, a, ds, uuid, jsonb);
    WorkTermsKept(ds, jsonb);
    AgreementCommitmentBinds(back, draft, locale);
    FindsFirst(db.agreements, [a], a.id);
    if AgreementKnown(db.agreements, a.id) {
      var row :| row in db.agreements && row.id == a.id;
      NewIdDiffers(db.agreements, a, row);
    }
  }

  /**
   * An agreement stored at any point of any history of creations, and read back from the three tables at any later
   * one, has the commitment it was stored with exactly when its ids were lower-case and its titles, descriptions and
   * labels held no unpaired surrogate.
   */
  lemma CommitmentSurvives(before: seq<Creation>, a: AgreementRow, draft: Draft, later: seq<Creation>,
                           uuid: Locale, jsonb: Locale, locale: Locale)
    requires StrictTotal(locale) && Configured(draft.deliverables) && Policies.InRange(draft.policy)
    requires a.draft == draft.(deliverables := []) && a.commitment == AgreementCommitment(draft, locale)
    requires Storable(CreateAll(EMPTY_TABLES, before, jsonb), a, draft.deliverables, jsonb)
    ensures var stored := Create(CreateAll(EMPTY_TABLES, before, jsonb), Creation(a, draft.deliverables), jsonb);
            var read := ReadBack(CreateAll(stored, later, jsonb), a.id, uuid);
            && read.Some? && read.value.1 == a.commitment && Policies.InRange(read.value.0.policy)
            && (AgreementCommitment(read.value.0, locale) == read.value.1
                <==> forall d <- draft.deliverables :: Plain(d))
  {
    var db, c := CreateAll(EMPTY_TABLES, before, jsonb), Creation(a, draft.deliverables);
    CreateAllKeepsConstraints(EMPTY_TABLES, before, jsonb);
    StatementsAmount(db, a, draft.deliverables, jsonb);
    CreateKeepsConstraints(db, c, jsonb);
    assert a in (db.agreements + [a]);
    StoredReadsBack(db, a, draft, uuid, jsonb, locale);
    ReadsAreStable(Create(db, c, jsonb), later, uuid, jsonb, a.id);
  }
}
