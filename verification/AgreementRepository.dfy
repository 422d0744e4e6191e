/** `SqlAgreementRepository` over its tables: a transaction of nested inserts, and a grouped read. */
module AgreementRepository {
  import opened Digests
  import opened Numerals
  import opened Sorting
  import opened Json
  import opened WorkTerms
  import opened Persistence
  import opened PersistenceReads

  class SqlAgreementRepository {
    /** The committed tables, and the two orders the database uses. */
    var tables: Tables
    const uuid: Locale
    const jsonb: Locale

    constructor (uuid: Locale, jsonb: Locale)
      ensures tables == EMPTY_TABLES && this.uuid == uuid && this.jsonb == jsonb
    {
      this.tables := EMPTY_TABLES;
      this.uuid, this.jsonb := uuid, jsonb;
    }

    /** One transaction: every row is stored, or none and the call throws. */
    method CreateAgreement(a: AgreementRow, deliverables: seq<Deliverable>) returns (stored: bool)
      requires Constraints(tables)
      modifies this`tables
      ensures stored <==> Storable(old(tables), a, deliverables, jsonb)
      ensures tables == if stored then Appended(old(tables), a, deliverables, jsonb) else old(tables)
      ensures Constraints(tables)
    {
      var work := Operation(tables, a, deliverables);
      StatementsAmount(tables, a, deliverables, jsonb);
      if work.None? { return false; }
      AppendedKeepsConstraints(tables, a, deliverables, jsonb);
      tables := work.value;
      return true;
    }

    method Operation(db: Tables, a: AgreementRow, deliverables: seq<Deliverable>) returns (work: Option<Tables>)
      ensures work == Statements(db, a, deliverables, jsonb)
    {
      work := InsertAgreement(db, a);
      if work.None? { return None; }
      ghost var begun := work.value;
      for i := 0 to |deliverables|
        invariant work.Some?
        invariant InsertDeliverables(work.value, a.id, deliverables[i..], jsonb)
            == InsertDeliverables(begun, a.id, deliverables, jsonb)
      {
        var d := deliverables[i];
        assert deliverables[i..][0] == d && deliverables[i..][1..] == deliverables[i + 1..];
        work := InsertDeliverable(work.value, a.id, d);
        if work.None? { return None; }
        work := InsertRows(work.value, a.id, d);
        if work.None? { return None; }
      }
    }

    method InsertRows(db: Tables, agreement: Digest, d: Deliverable) returns (work: Option<Tables>)
      ensures work == InsertRequirements(db, agreement, d, d.requirements, jsonb)
    {
      work := Some(db);
      for j := 0 to |d.requirements|
        invariant work.Some?
        invariant InsertRequirements(work.value, agreement, d, d.requirements[j..], jsonb)
                  == InsertRequirements(db, agreement, d, d.requirements, jsonb)
      {
        assert d.requirements[j..][0] == d.requirements[j] && d.requirements[j..][1..] == d.requirements[j + 1..];
        work := InsertRequirement(work.value, agreement, d, d.requirements[j], jsonb);
        if work.None? { return None; }
      }
    }

    /** `withDeliverables`. */
    method WithDeliverables(id: Digest) returns (deliverables: seq<Deliverable>)
      ensures deliverables == Load(tables, id, uuid)
    {
      var rows := SelectDeliverables(tables, id, uuid);
      var requirementRows := SelectRequirements(tables, id, uuid);
      var byDeliverable := GroupRows(requirementRows);
      deliverables := Assemble(rows, requirementRows, byDeliverable);
    }

    method Assemble(rows: seq<DeliverableRow>, ghost requirementRows: seq<RequirementRow>,
                    groups: map<Words, seq<Requirement>>)
      returns (deliverables: seq<Deliverable>)
      requires forall k :: Group(groups, k) == Map(ReadRequirement, Filter(Within(k), requirementRows))
      ensures deliverables == Map(ReadDeliverable(requirementRows), rows)
    {
      deliverables := [];
      for i := 0 to |rows|
        invariant deliverables == Map(ReadDeliverable(requirementRows), rows[..i])
      {
        var row := rows[i];
        deliverables := deliverables + [
          Deliverable(row.id, row.title, row.description, row.required, row.active, row.position,
                      Group(groups, row.id))];
      }
      assert rows[..|rows|] == rows;
    }

    /** Requirements are pushed onto their deliverable's list as the sorted rows come by. */
    method GroupRows(rows: seq<RequirementRow>) returns (groups: map<Words, seq<Requirement>>)
      ensures forall k :: Group(groups, k) == Map(ReadRequirement, Filter(Within(k), rows))
    {
      groups := map[];
      for i := 0 to |rows|
        invariant forall k :: Group(groups, k) == Map(ReadRequirement, Filter(Within(k), rows[..i]))
      {
        forall k ensures Map(ReadRequirement, Filter(Within(k), rows[..i + 1]))
                         == Group(groups, k) + (if rows[i].deliverable == k then [ReadRequirement(rows[i])] else []) {
          Pushed(k, rows, i);
        }
        groups := groups[rows[i].deliverable := Group(groups, rows[i].deliverable) + [ReadRequirement(rows[i])]];
      }
      assert rows[..|rows|] == rows;
    }

    static function Group(groups: map<Words, seq<Requirement>>, k: Words): seq<Requirement> {
      if k in groups then groups[k] else []
    }
  }

  /** What one more row adds to the group of `k`. */
  lemma Pushed(k: Words, rows: seq<RequirementRow>, i: nat)
    requires i < |rows|
    ensures Map(ReadRequirement, Filter(Within(k), rows[..i + 1]))
            == Map(ReadRequirement, Filter(Within(k), rows[..i]))
                + (if rows[i].deliverable == k then [ReadRequirement(rows[i])] else [])
  {
    assert rows[..i + 1] == rows[..i] + [rows[i]];
    FilterConcat(Within(k), rows[..i], [rows[i]]);
    if rows[i].deliverable == k { FilterAll(Within(k), [rows[i]]); } else { FilterNone(Within(k), [rows[i]]); }
  }
}
