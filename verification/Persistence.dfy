/**
 * Agreements in three tables, `backend/src/agreements/agreement-repository.ts`, with the keys of
 * `backend/sql/001_create_agreements.sql` and `backend/sql/003_create_work_evidence.sql`.
 */
module Persistence {
  import opened Digests
  import opened Numerals
  import opened Sorting
  import opened Json
  import opened WorkTerms
  import Policies

  /**
   * The columns of `agreements` that a commitment depends on or a key constrains; `draft` is without its
   * deliverables.
   */
  datatype AgreementRow = AgreementRow(id: Digest, draft: Draft, commitment: Digest, escrow: Option<Words>)

  datatype DeliverableRow = DeliverableRow(
    id: Words, agreement: Digest, title: Words, description: Words, required: bool, active: bool, position: nat)

  datatype RequirementRow = RequirementRow(
    id: Words, agreement: Digest, deliverable: Words, caption: Words, kind: Words, required: bool,
    configuration: seq<Entry>, position: nat)

  datatype Tables = Tables(
    agreements: seq<AgreementRow>, deliverables: seq<DeliverableRow>, requirements: seq<RequirementRow>)

  /*** Columns ***/

  /** A text column: unpaired surrogates do not survive UTF-8. */
  function Column(t: Words): Words
    decreases |t|
  {
    if t == [] then []
    else if IsHigh(t[0]) && |t| > 1 && IsLow(t[1]) then t[..2] + Column(t[2..])
    else [if IsHigh(t[0]) || IsLow(t[0]) then 0xfffd else t[0]] + Column(t[1..])
  }

  lemma {:induction false} ColumnKeeps(t: Words)
    ensures Column(t) == t <==> Paired(t)
    decreases |t|
  {
    if t != [] {
      var n := if IsHigh(t[0]) && |t| > 1 && IsLow(t[1]) then 2 else 1;
      ColumnKeeps(t[n..]);
      assert t == t[..n] + t[n..];
      assert Column(t)[n..] == Column(t[n..]);
    }
  }

  /** Neither a text column nor `jsonb` accepts U+0000. */
  predicate NoNul(t: Words) { 0 !in t }

  /** `jsonb` also refuses the escape of an unpaired surrogate. */
  predicate Jsonb(c: seq<Entry>) {
    forall e <- c :: NoNul(e.key) && NoNul(e.value) && Paired(e.key) && Paired(e.value)
  }

  /** What the columns make of a requirement: `uuid` is lower-case, `jsonb` reorders keys. */
  function Kept(r: Requirement, jsonb: Locale): Requirement {
    r.(id := Lower(r.id), caption := Column(r.caption), configuration := Sort(r.configuration, EntryKey, jsonb))
  }

  function KeptDeliverable(d: Deliverable, jsonb: Locale): Deliverable {
    d.(id := Lower(d.id), title := Column(d.title), description := Column(d.description),
       requirements := Map((r: Requirement) => Kept(r, jsonb), d.requirements))
  }

  function RowOf(agreement: Digest, d: Deliverable): DeliverableRow {
    DeliverableRow(Lower(d.id), agreement, Column(d.title), Column(d.description), d.required, d.active, d.position)
  }

  function RequirementRowOf(agreement: Digest, d: Deliverable, jsonb: Locale): Requirement -> RequirementRow {
    (r: Requirement) =>
      var k := Kept(r, jsonb);
      RequirementRow(k.id, agreement, Lower(d.id), k.caption, k.kind, k.required, k.configuration, k.position)
  }

  /*** Constraints ***/

  function AgreementId(row: AgreementRow): Digest { row.id }

  function AgreementCommitmentKey(row: AgreementRow): Digest { row.commitment }

  /** A unique column that may be null: rows without an escrow differ by their ids. */
  function EscrowSlot(row: AgreementRow): (Option<Words>, Option<Digest>) {
    if row.escrow.Some? then (row.escrow, None) else (None, Some(row.id))
  }

  /** The primary key, the unique commitment and the unique escrow address. */
  predicate AgreementKeys(rows: seq<AgreementRow>) {
    DistinctKeys(rows, AgreementId) && DistinctKeys(rows, AgreementCommitmentKey) && DistinctKeys(rows, EscrowSlot)
  }

  function DeliverableId(row: DeliverableRow): Words { row.id }

  function DeliverableSlot(row: DeliverableRow): (Digest, nat) { (row.agreement, row.position) }

  function RequirementId(row: RequirementRow): Words { row.id }

  function RequirementSlot(row: RequirementRow): (Words, nat) { (row.deliverable, row.position) }

  predicate DeliverableKeys(rows: seq<DeliverableRow>) {
    DistinctKeys(rows, DeliverableId) && DistinctKeys(rows, DeliverableSlot)
  }

  predicate RequirementKeys(rows: seq<RequirementRow>) {
    DistinctKeys(rows, RequirementId) && DistinctKeys(rows, RequirementSlot)
  }

  predicate AgreementKnown(agreements: seq<AgreementRow>, id: Digest) {
    exists row <- agreements :: row.id == id
  }

  /** Primary keys, unique positions, and foreign keys. */
  ghost predicate Constraints(db: Tables) {
    && AgreementKeys(db.agreements) && DeliverableKeys(db.deliverables) && RequirementKeys(db.requirements)
    && (forall row <- db.deliverables :: AgreementKnown(db.agreements, row.agreement))
    && (forall row <- db.requirements :: AgreementKnown(db.agreements, row.agreement))
  }

  /*** Inserting ***/

  predicate Clashes<T, K(==)>(rows: seq<T>, row: T, key: T -> K) {
    exists i | 0 <= i < |rows| :: key(rows[i]) == key(row)
  }

  function InsertAgreement(db: Tables, row: AgreementRow): Option<Tables> {
    if || Clashes(db.agreements, row, AgreementId)
       || Clashes(db.agreements, row, AgreementCommitmentKey)
       || Clashes(db.agreements, row, EscrowSlot)
    then None
    else Some(db.(agreements := db.agreements + [row]))
  }

  function InsertDeliverable(db: Tables, agreement: Digest, d: Deliverable): Option<Tables> {
    var row := RowOf(agreement, d);
    if !NoNul(d.title) || !NoNul(d.description) then None
    else if Clashes(db.deliverables, row, DeliverableId) || Clashes(db.deliverables, row, DeliverableSlot) then None
    else Some(db.(deliverables := db.deliverables + [row]))
  }

  function InsertRequirement(db: Tables, agreement: Digest, d: Deliverable, r: Requirement,
      jsonb: Locale): Option<Tables> {
    var row := RequirementRowOf(agreement, d, jsonb)(r);
    if !NoNul(r.caption) || !Jsonb(r.configuration) then None
    else if Clashes(db.requirements, row, RequirementId) || Clashes(db.requirements, row, RequirementSlot) then None
    else Some(db.(requirements := db.requirements + [row]))
  }

  function InsertRequirements(db: Tables, agreement: Digest, d: Deliverable, rs: seq<Requirement>,
      jsonb: Locale): Option<Tables>
    decreases rs
  {
    if rs == [] then Some(db)
    else
      var next := InsertRequirement(db, agreement, d, rs[0], jsonb);
      if next.None? then None else InsertRequirements(next.value, agreement, d, rs[1..], jsonb)
  }

  function InsertDeliverables(db: Tables, agreement: Digest, ds: seq<Deliverable>, jsonb: Locale): Option<Tables>
    decreases ds
  {
    if ds == [] then Some(db)
    else
      var row := InsertDeliverable(db, agreement, ds[0]);
      if row.None? then None
      else
        var rows := InsertRequirements(row.value, agreement, ds[0], ds[0].requirements, jsonb);
        if rows.None? then None else InsertDeliverables(rows.value, agreement, ds[1..], jsonb)
  }

  /** The statements of `createAgreement`, or `None` at the first one that fails. */
  function Statements(db: Tables, a: AgreementRow, ds: seq<Deliverable>, jsonb: Locale): Option<Tables> {
    var first := InsertAgreement(db, a);
    if first.None? then None else InsertDeliverables(first.value, a.id, ds, jsonb)
  }

  /*** What the statements amount to ***/

  function Rows(agreement: Digest, ds: seq<Deliverable>): seq<DeliverableRow> {
    Map((d: Deliverable) => RowOf(agreement, d), ds)
  }

  function RequirementRows(agreement: Digest, ds: seq<Deliverable>, jsonb: Locale): seq<RequirementRow> {
    if ds == [] then []
    else Map(RequirementRowOf(agreement, ds[0], jsonb), ds[0].requirements) + RequirementRows(agreement, ds[1..], jsonb)
  }

  predicate Writable(d: Deliverable) {
    NoNul(d.title) && NoNul(d.description) && FitsAll(d.requirements)
  }

  predicate Fits(r: Requirement) { NoNul(r.caption) && Jsonb(r.configuration) }

  predicate FitsAll(rs: seq<Requirement>) {
    rs == [] || (Fits(rs[0]) && FitsAll(rs[1..]))
  }

  /** The tables with all rows of the agreement appended. */
  function Appended(db: Tables, a: AgreementRow, ds: seq<Deliverable>, jsonb: Locale): Tables {
    Tables(db.agreements + [a], db.deliverables + Rows(a.id, ds), db.requirements + RequirementRows(a.id, ds, jsonb))
  }

  lemma AppendOne<T, K>(rows: seq<T>, row: T, key: T -> K)
    requires DistinctKeys(rows, key)
    ensures DistinctKeys(rows + [row], key) <==> !Clashes(rows, row, key)
  {
    var all := rows + [row];
    if Clashes(rows, row, key) {
      var i :| 0 <= i < |rows| && key(rows[i]) == key(row);
      assert key(all[i]) == key(all[|rows|]);
    }
  }

  lemma PrefixDistinct<T, K>(rows: seq<T>, more: seq<T>, key: T -> K)
    requires DistinctKeys(rows + more, key)
    ensures DistinctKeys(rows, key)
  {
    forall i, j | 0 <= i < j < |rows| ensures key(rows[i]) != key(rows[j]) {
      assert (rows + more)[i] == rows[i] && (rows + more)[j] == rows[j];
    }
  }

  lemma RequirementStep(db: Tables, agreement: Digest, d: Deliverable, r: Requirement, jsonb: Locale)
    requires RequirementKeys(db.requirements)
    ensures var rows := db.requirements + [RequirementRowOf(agreement, d, jsonb)(r)];
            InsertRequirement(db, agreement, d, r, jsonb)
            == if Fits(r) && RequirementKeys(rows) then Some(db.(requirements := rows)) else None
  {
    var row := RequirementRowOf(agreement, d, jsonb)(r);
    AppendOne(db.requirements, row, RequirementId);
    AppendOne(db.requirements, row, RequirementSlot);
  }

  lemma RequirementPrefix(rows: seq<RequirementRow>, more: seq<RequirementRow>)
    requires RequirementKeys(rows + more)
    ensures RequirementKeys(rows)
  {
    PrefixDistinct(rows, more, RequirementId);
    PrefixDistinct(rows, more, RequirementSlot);
  }

  lemma {:induction false} RequirementsAmount(db: Tables, agreement: Digest, d: Deliverable, rs: seq<Requirement>,
      jsonb: Locale)
    requires RequirementKeys(db.requirements)
    ensures var all := db.requirements + Map(RequirementRowOf(agreement, d, jsonb), rs);
            InsertRequirements(db, agreement, d, rs, jsonb)
            == if FitsAll(rs) && RequirementKeys(all) then Some(db.(requirements := all)) else None
    decreases rs
  {
    var f := RequirementRowOf(agreement, d, jsonb);
    if rs == [] {
      assert db.requirements + Map(f, rs) == db.requirements;
    } else {
      var rows := db.requirements + [f(rs[0])];
      MapTail(rs, f);
      assert db.requirements + Map(f, rs) == rows + Map(f, rs[1..]);
      RequirementStep(db, agreement, d, rs[0], jsonb);
      if RequirementKeys(rows + Map(f, rs[1..])) { RequirementPrefix(rows, Map(f, rs[1..])); }
      if RequirementKeys(rows) { RequirementsAmount(db.(requirements := rows), agreement, d, rs[1..], jsonb); }
    }
  }

  lemma DeliverableStep(db: Tables, agreement: Digest, d: Deliverable)
    requires DeliverableKeys(db.deliverables)
    ensures var rows := db.deliverables + [RowOf(agreement, d)];
            InsertDeliverable(db, agreement, d)
            == if NoNul(d.title) && NoNul(d.description) && DeliverableKeys(rows)
               then Some(db.(deliverables := rows)) else None
  {
    AppendOne(db.deliverables, RowOf(agreement, d), DeliverableId);
    AppendOne(db.deliverables, RowOf(agreement, d), DeliverableSlot);
  }

  lemma DeliverablePrefix(rows: seq<DeliverableRow>, more: seq<DeliverableRow>)
    requires DeliverableKeys(rows + more)
    ensures DeliverableKeys(rows)
  {
    PrefixDistinct(rows, more, DeliverableId);
    PrefixDistinct(rows, more, DeliverableSlot);
  }

  predicate WritableAll(ds: seq<Deliverable>) {
    ds == [] || (Writable(ds[0]) && WritableAll(ds[1..]))
  }

  predicate WorkFits(db: Tables, agreement: Digest, ds: seq<Deliverable>, jsonb: Locale) {
    && WritableAll(ds)
    && DeliverableKeys(db.deliverables + Rows(agreement, ds))
    && RequirementKeys(db.requirements + RequirementRows(agreement, ds, jsonb))
  }

  function WithWork(db: Tables, agreement: Digest, ds: seq<Deliverable>, jsonb: Locale): Tables {
    db.(deliverables := db.deliverables + Rows(agreement, ds),
        requirements := db.requirements + RequirementRows(agreement, ds, jsonb))
  }

  /** The nested inserts succeed exactly when the tables with all the rows satisfy the constraints. */
  lemma {:induction false} DeliverablesAmount(db: Tables, agreement: Digest, ds: seq<Deliverable>, jsonb: Locale)
    requires DeliverableKeys(db.deliverables) && RequirementKeys(db.requirements)
    ensures InsertDeliverables(db, agreement, ds, jsonb)
            == if WorkFits(db, agreement, ds, jsonb) then Some(WithWork(db, agreement, ds, jsonb)) else None
    decreases ds
  {
    if ds == [] {
      assert WithWork(db, agreement, ds, jsonb) == db;
    } else {
      var first := db.(deliverables := db.deliverables + [RowOf(agreement, ds[0])]);
      var own := Map(RequirementRowOf(agreement, ds[0], jsonb), ds[0].requirements);
      var second := first.(requirements := db.requirements + own);
      DeliverableStep(db, agreement, ds[0]);
      RequirementsAmount(first, agreement, ds[0], ds[0].requirements, jsonb);
      WorkSplits(db, agreement, ds, jsonb, second);
      if DeliverableKeys(second.deliverables) && RequirementKeys(second.requirements) {
        DeliverablesAmount(second, agreement, ds[1..], jsonb);
      }
    }
  }

  function OwnRows(db: Tables, agreement: Digest, d: Deliverable, jsonb: Locale): Tables {
    db.(deliverables := db.deliverables + [RowOf(agreement, d)],
        requirements := db.requirements + Map(RequirementRowOf(agreement, d, jsonb), d.requirements))
  }

  lemma RowsConcat(db: Tables, agreement: Digest, ds: seq<Deliverable>, jsonb: Locale)
    requires ds != []
    ensures var second := OwnRows(db, agreement, ds[0], jsonb);
            && db.deliverables + Rows(agreement, ds) == second.deliverables + Rows(agreement, ds[1..])
            && db.requirements + RequirementRows(agreement, ds, jsonb)
               == second.requirements + RequirementRows(agreement, ds[1..], jsonb)
  {
    MapTail(ds, (d: Deliverable) => RowOf(agreement, d));
    Regroup(db.deliverables, [RowOf(agreement, ds[0])], Rows(agreement, ds[1..]));
    Regroup(db.requirements, Map(RequirementRowOf(agreement, ds[0], jsonb), ds[0].requirements),
        RequirementRows(agreement, ds[1..], jsonb));
  }

  lemma WorkSplits(db: Tables, agreement: Digest, ds: seq<Deliverable>, jsonb: Locale, second: Tables)
    requires ds != [] && second == OwnRows(db, agreement, ds[0], jsonb)
    ensures WithWork(db, agreement, ds, jsonb) == WithWork(second, agreement, ds[1..], jsonb)
    ensures WorkFits(db, agreement, ds, jsonb) <==>
              && Writable(ds[0]) && DeliverableKeys(second.deliverables) && RequirementKeys(second.requirements)
              && WorkFits(second, agreement, ds[1..], jsonb)
  {
    RowsConcat(db, agreement, ds, jsonb);
    if DeliverableKeys(second.deliverables + Rows(agreement, ds[1..])) {
      DeliverablePrefix(second.deliverables, Rows(agreement, ds[1..]));
    }
    if RequirementKeys(second.requirements + RequirementRows(agreement, ds[1..], jsonb)) {
      RequirementPrefix(second.requirements, RequirementRows(agreement, ds[1..], jsonb));
    }
  }

  /** Every row of the agreement is acceptable, and the tables with all of them satisfy the unique keys. */
  predicate Storable(db: Tables, a: AgreementRow, ds: seq<Deliverable>, jsonb: Locale) {
    AgreementKeys(db.agreements + [a]) && WorkFits(db, a.id, ds, jsonb)
  }

  /** `createAgreement` stores everything or nothing, and everything exactly when the constraints allow it. */
  lemma StatementsAmount(db: Tables, a: AgreementRow, ds: seq<Deliverable>, jsonb: Locale)
    requires Constraints(db)
    ensures Statements(db, a, ds, jsonb)
            == if Storable(db, a, ds, jsonb) then Some(Appended(db, a, ds, jsonb)) else None
  {
    AppendOne(db.agreements, a, AgreementId);
    AppendOne(db.agreements, a, AgreementCommitmentKey);
    AppendOne(db.agreements, a, EscrowSlot);
    DeliverablesAmount(db.(agreements := db.agreements + [a]), a.id, ds, jsonb);
  }

  lemma AppendedKeepsConstraints(db: Tables, a: AgreementRow, ds: seq<Deliverable>, jsonb: Locale)
    requires Constraints(db) && Storable(db, a, ds, jsonb)
    ensures Constraints(Appended(db, a, ds, jsonb))
  {
    var after := Appended(db, a, ds, jsonb);
    assert after.agreements[|db.agreements|] == a;
    RequirementRowsBelong(a.id, ds, jsonb);
    forall id | AgreementKnown(db.agreements, id) || id == a.id ensures AgreementKnown(after.agreements, id) {
      if AgreementKnown(db.agreements, id) {
        var row :| row in db.agreements && row.id == id;
        assert row in after.agreements;
      } else {
        assert a in after.agreements;
      }
    }
  }

  lemma {:induction false} RequirementRowsBelong(agreement: Digest, ds: seq<Deliverable>, jsonb: Locale)
    ensures forall row <- RequirementRows(agreement, ds, jsonb) :: row.agreement == agreement
  {
    if ds != [] { RequirementRowsBelong(agreement, ds[1..], jsonb); }
  }

  /*** Many creations ***/

  datatype Creation = Creation(row: AgreementRow, deliverables: seq<Deliverable>)

  const EMPTY_TABLES := Tables([], [], [])

  /** One call of `createAgreement`: committed, or rolled back. */
  function Create(db: Tables, c: Creation, jsonb: Locale): Tables {
    var after := Statements(db, c.row, c.deliverables, jsonb);
    if after.Some? then after.value else db
  }

  function CreateAll(db: Tables, cs: seq<Creation>, jsonb: Locale): Tables
    decreases cs
  {
    if cs == [] then db else CreateAll(Create(db, cs[0], jsonb), cs[1..], jsonb)
  }

  lemma CreateKeepsConstraints(db: Tables, c: Creation, jsonb: Locale)
    requires Constraints(db)
    ensures Constraints(Create(db, c, jsonb))
  {
    StatementsAmount(db, c.row, c.deliverables, jsonb);
    if Storable(db, c.row, c.deliverables, jsonb) { AppendedKeepsConstraints(db, c.row, c.deliverables, jsonb); }
  }

  lemma {:induction false} CreateAllKeepsConstraints(db: Tables, cs: seq<Creation>, jsonb: Locale)
    requires Constraints(db)
    ensures Constraints(CreateAll(db, cs, jsonb))
    decreases cs
  {
    if cs != [] {
      CreateKeepsConstraints(db, cs[0], jsonb);
      CreateAllKeepsConstraints(Create(db, cs[0], jsonb), cs[1..], jsonb);
    }
  }
}
