/** The order in which `withDeliverables` returns what was stored, `backend/src/agreements/agreement-repository.ts`. */
module LoadOrder {
  import opened Digests
  import opened Numerals
  import opened Sorting
  import opened Json
  import opened WorkTerms
  import opened Persistence
  import opened PersistenceReads

  function Less(a: nat, b: nat): bool { a < b }

  function PositionOf(d: Deliverable): nat { d.position }

  function RequirementPosition(r: Requirement): nat { r.position }

  /** How many positions in the list are lower. */
  function DeliverableIndex(ds: seq<Deliverable>, position: nat): nat {
    Before(ds, position, PositionOf, Less)
  }

  function RequirementIndex(rs: seq<Requirement>, position: nat): nat {
    Before(rs, position, RequirementPosition, Less)
  }

  lemma {:induction false} RankedIsStrict(uuid: Locale)
    requires StrictTotal(uuid)
    ensures StrictTotal(Ranked(uuid))
  {
    var less := Ranked(uuid);
    EarlierIsStrict(uuid);
    forall a, b ensures less(a, b) ==> !less(b, a) {
      assert uuid(a.0, b.0) ==> !uuid(b.0, a.0);
    }
    forall a, b ensures a != b ==> less(a, b) || less(b, a) {
      assert a.0 != b.0 ==> uuid(a.0, b.0) || uuid(b.0, a.0);
    }
    forall a, b, c ensures less(a, b) && less(b, c) ==> less(a, c) {
      assert uuid(a.0, b.0) && uuid(b.0, c.0) ==> uuid(a.0, c.0);
    }
  }

  lemma {:induction false} FilterKeepsSorted<T, K>(P: T -> bool, s: seq<T>, key: T -> K, less: (K, K) -> bool)
    requires Sorted(s, key, less)
    ensures Sorted(Filter(P, s), key, less)
  {
    if s != [] {
      FilterKeepsSorted(P, s[1..], key, less);
      forall x | x in Filter(P, s[1..]) ensures !less(key(x), key(s[0])) {
        assert x in s[1..];
      }
    }
  }

  /** Filtering a sorted table is sorting the filtered one, when its keys are distinct. */
  lemma {:induction false} FilterOfSort<T(!new), K(!new)>(P: T -> bool, s: seq<T>, key: T -> K, less: (K, K) -> bool)
    requires StrictTotal(less) && DistinctKeys(s, key)
    ensures Filter(P, Sort(s, key, less)) == Sort(Filter(P, s), key, less)
  {
    var a, b := Filter(P, Sort(s, key, less)), Sort(Filter(P, s), key, less);
    var same := (x: T) => x;
    SortSorts(s, key, less);
    FilterKeepsSorted(P, Sort(s, key, less), key, less);
    SortKeepsDistinct(s, key, less);
    FilterKeepsDistinct(P, Sort(s, key, less), key);
    FilterKeepsDistinct(P, s, key);
    SortSorts(Filter(P, s), key, less);
    SortKeepsDistinct(Filter(P, s), key, less);
    SortFilters(P, same, s, key, less);
    SortPermutes(Filter(P, s), key, less);
    assert Map(same, a) == a && Map(same, b) == b && Map(same, Filter(P, s)) == Filter(P, s);
    SortedViewsAgree(a, b, same, key, less);
  }

  lemma {:induction false} OwnPlaces(own: seq<RequirementRow>, rs: seq<Requirement>, uuid: Locale, i: nat)
    requires StrictTotal(uuid) && i < |rs| == |own| && DistinctKeys(own, RequirementSlot)
    requires forall k | 0 <= k < |own| :: own[k].position == rs[k].position && own[k].deliverable == own[i].deliverable
    ensures var sorted := Sort(own, RowRank, Ranked(uuid));
            var n := RequirementIndex(rs, rs[i].position);
            n < |rs| == |sorted| && sorted[n] == own[i]
  {
    var less := Ranked(uuid);
    RankedIsStrict(uuid);
    forall j, k | 0 <= j < k < |own| ensures RowRank(own[j]) != RowRank(own[k]) {
      assert RequirementSlot(own[j]) != RequirementSlot(own[k]);
    }
    assert own[i] in own;
    SortPlaces(own, own[i], RowRank, less);
    forall k | 0 <= k < |own|
      ensures less(RowRank(own[k]), RowRank(own[i])) <==> Less(RequirementPosition(rs[k]), rs[i].position) {
      assert k != i ==> RequirementSlot(own[k]) != RequirementSlot(own[i]);
      assert !less(RowRank(own[i]), RowRank(own[i]));
      assert !uuid(own[i].deliverable, own[i].deliverable);
    }
    BeforeAgrees(own, RowRank(own[i]), RowRank, less, rs, rs[i].position, RequirementPosition, Less);
  }

  lemma {:induction false} RequirementPlaces(rows: seq<RequirementRow>, agreement: Digest, d: Deliverable,
                                             uuid: Locale, jsonb: Locale, i: nat)
    requires StrictTotal(uuid) && i < |d.requirements|
    requires DistinctKeys(rows, RequirementId) && DistinctKeys(rows, RequirementSlot)
    requires Filter(Within(Lower(d.id)), rows) == Map(RequirementRowOf(agreement, d, jsonb), d.requirements)
    ensures var read := Map(ReadRequirement, Filter(Within(Lower(d.id)), Sort(rows, RowRank, Ranked(uuid))));
            var n := RequirementIndex(d.requirements, d.requirements[i].position);
            n < |d.requirements| == |read| && read[n] == Kept(d.requirements[i], jsonb)
  {
    var own := Map(RequirementRowOf(agreement, d, jsonb), d.requirements);
    RankedIsStrict(uuid);
    forall j, k | 0 <= j < k < |rows| ensures RowRank(rows[j]) != RowRank(rows[k]) {
      assert RequirementId(rows[j]) != RequirementId(rows[k]);
    }
    FilterOfSort(Within(Lower(d.id)), rows, RowRank, Ranked(uuid));
    FilterKeepsDistinct(Within(Lower(d.id)), rows, RequirementSlot);
    OwnPlaces(own, d.requirements, uuid, i);
    assert ReadRequirement(own[i]) == Kept(d.requirements[i], jsonb);
  }

  /** What the columns make of a deliverable, with its requirements in the order of their positions. */
  ghost predicate ReadsAs(out: Deliverable, d: Deliverable, jsonb: Locale) {
    && out.id == Lower(d.id) && out.title == Column(d.title) && out.description == Column(d.description)
    && out.required == d.required && out.active == d.active && out.position == d.position
    && |out.requirements| == |d.requirements|
    && forall r <- d.requirements ::
         RequirementIndex(d.requirements, r.position) < |d.requirements|
         && var back := out.requirements[RequirementIndex(d.requirements, r.position)];
            && back.id == Lower(r.id) && back.caption == Column(r.caption) && back.kind == r.kind
            && back.required == r.required && back.position == r.position
            && multiset(back.configuration) == multiset(r.configuration)
  }

  /** A stored deliverable is read back behind exactly those of lower positions, and its requirements likewise. */
  lemma {:induction false} LoadPlaces(db: Tables, a: AgreementRow, ds: seq<Deliverable>, uuid: Locale,
                                      jsonb: Locale, k: nat)
    requires StrictTotal(uuid) && Constraints(db) && Storable(db, a, ds, jsonb) && k < |ds|
    ensures var loaded := Load(Appended(db, a, ds, jsonb), a.id, uuid);
            var n := DeliverableIndex(ds, ds[k].position);
            n < |ds| == |loaded| && ReadsAs(loaded[n], ds[k], jsonb)
  {
    var after := Appended(db, a, ds, jsonb);
    var rows := Rows(a.id, ds);
    OwnDeliverables(db, a, ds, jsonb);
    StoredIdsDiffer(db.deliverables, a.id, ds);
    SuffixDistinct(db.deliverables, rows, DeliverableSlot);
    DeliverablePlaces(a.id, ds, uuid, k);
    SuffixDistinct(db.requirements, RequirementRows(a.id, ds, jsonb), RequirementSlot);
    SuffixDistinct(db.requirements, RequirementRows(a.id, ds, jsonb), RequirementId);
    DeliverableReadsAs(a.id, ds, uuid, jsonb, k);
  }

  lemma {:induction false} DeliverableReadsAs(agreement: Digest, ds: seq<Deliverable>, uuid: Locale, jsonb: Locale,
                                              k: nat)
    requires StrictTotal(uuid) && k < |ds| && LowerIdsDiffer(ds)
    requires var all := RequirementRows(agreement, ds, jsonb);
             DistinctKeys(all, RequirementId) && DistinctKeys(all, RequirementSlot)
    ensures var rows := Sort(RequirementRows(agreement, ds, jsonb), RowRank, Ranked(uuid));
            ReadsAs(ReadDeliverable(rows)(RowOf(agreement, ds[k])), ds[k], jsonb)
  {
    var all, d := RequirementRows(agreement, ds, jsonb), ds[k];
    var out := ReadDeliverable(Sort(all, RowRank, Ranked(uuid)))(RowOf(agreement, d));
    OwnRequirements(agreement, ds, jsonb, k);
    assert d.requirements == [] ==> |out.requirements| == 0 by {
      if d.requirements == [] {
        SortFilters(Within(Lower(d.id)), ReadRequirement, all, RowRank, Ranked(uuid));
        assert |multiset(out.requirements)| == 0;
      }
    }
    forall i: nat | i < |d.requirements|
      ensures var n := RequirementIndex(d.requirements, d.requirements[i].position);
              && n < |d.requirements| == |out.requirements|
              && out.requirements[n] == Kept(d.requirements[i], jsonb) {
      RequirementPlaces(all, agreement, d, uuid, jsonb, i);
    }
    assert d.requirements != [] ==> 0 < |d.requirements|;
    RequirementsReadAs(out, d, jsonb);
  }

  lemma {:induction false} RequirementsReadAs(out: Deliverable, d: Deliverable, jsonb: Locale)
    requires out == KeptDeliverable(d, jsonb).(requirements := out.requirements)
    requires |out.requirements| == |d.requirements|
    requires forall i: nat | i < |d.requirements| ::
               var n := RequirementIndex(d.requirements, d.requirements[i].position);
               n < |d.requirements| && out.requirements[n] == Kept(d.requirements[i], jsonb)
    ensures ReadsAs(out, d, jsonb)
  {
    forall r | r in d.requirements
      ensures RequirementIndex(d.requirements, r.position) < |d.requirements|
      ensures out.requirements[RequirementIndex(d.requirements, r.position)] == Kept(r, jsonb)
      ensures multiset(Kept(r, jsonb).configuration) == multiset(r.configuration) {
      var i :| 0 <= i < |d.requirements| && d.requirements[i] == r;
      SortPermutes(r.configuration, EntryKey, jsonb);
    }
  }

  lemma {:induction false} DeliverablePlaces(agreement: Digest, ds: seq<Deliverable>, uuid: Locale, k: nat)
    requires StrictTotal(uuid) && k < |ds| && DistinctKeys(Rows(agreement, ds), DeliverableSlot)
    ensures var sorted := Sort(Rows(agreement, ds), RowPlace, Earlier(uuid));
            var n := DeliverableIndex(ds, ds[k].position);
            n < |ds| == |sorted| && sorted[n] == RowOf(agreement, ds[k])
  {
    var rows, less := Rows(agreement, ds), Earlier(uuid);
    EarlierIsStrict(uuid);
    forall i, j | 0 <= i < j < |rows| ensures RowPlace(rows[i]) != RowPlace(rows[j]) {
      assert DeliverableSlot(rows[i]) != DeliverableSlot(rows[j]);
    }
    assert rows[k] in rows;
    SortPlaces(rows, rows[k], RowPlace, less);
    forall i | 0 <= i < |rows|
      ensures less(RowPlace(rows[i]), RowPlace(rows[k])) <==> Less(PositionOf(ds[i]), ds[k].position) {
      assert i != k ==> DeliverableSlot(rows[i]) != DeliverableSlot(rows[k]);
      assert !less(RowPlace(rows[k]), RowPlace(rows[k]));
    }
    BeforeAgrees(rows, RowPlace(rows[k]), RowPlace, less, ds, ds[k].position, PositionOf, Less);
  }
}
