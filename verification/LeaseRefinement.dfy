/** When the map in memory and the SQL table grant the same claims and expose the same rows. */
module LeaseRefinement {
  import opened Digests
  import opened Numerals
  import opened Sorting
  import opened LeaseStore

  /** The same rows, as the application sees them, whatever their order. */
  ghost predicate Same(rows: seq<Row>, t: Table) {
    && Distinct(rows)
    && (forall i | 0 <= i < |rows| :: rows[i].id in t && rows[i] == Exposed(t[rows[i].id]))
    && (forall id <- t :: First(rows, HasId(id)).Some?)
  }

  predicate Distinct(rows: seq<Row>) {
    forall i, j | 0 <= i < j < |rows| :: rows[i].id != rows[j].id
  }

  ghost predicate LowerCase(t: Table) {
    forall id <- t :: Lower(t[id].hash) == t[id].hash
  }

  ghost predicate Normal(t: Table) {
    Constraints(t) && LowerCase(t)
  }

  lemma SameAt(rows: seq<Row>, t: Table, id: nat)
    requires Same(rows, t) && Constraints(t)
    ensures id in t <==> First(rows, HasId(id)).Some?
    ensures id in t ==> rows[First(rows, HasId(id)).value] == Exposed(t[id])
  {}

  lemma PutKeepsDistinct(rows: seq<Row>, row: Row)
    requires Distinct(rows)
    ensures Distinct(Put(rows, row))
  {}

  lemma PutKeepsSame(rows: seq<Row>, t: Table, row: Row, stored: Row)
    requires Same(rows, t) && Constraints(t) && row == Exposed(stored)
    ensures Same(Put(rows, row), t[row.id := stored])
  {
    var after, table := Put(rows, row), t[row.id := stored];
    PutKeepsDistinct(rows, row);
    forall i | 0 <= i < |after| ensures after[i].id in table && after[i] == Exposed(table[after[i].id]) {
      if after[i] != row { assert i < |rows| && rows[i] == after[i] && rows[i].id != row.id; }
    }
    forall id | id in table ensures First(after, HasId(id)).Some? {
      SameAt(rows, t, id);
      PutFinds(rows, row, id);
    }
  }

  lemma PutFinds(rows: seq<Row>, row: Row, id: nat)
    requires id == row.id || First(rows, HasId(id)).Some?
    ensures First(Put(rows, row), HasId(id)).Some?
  {
    var k := First(rows, HasId(row.id));
    var i := if id != row.id then First(rows, HasId(id)).value else if k.Some? then k.value else |rows|;
    assert HasId(id)(Put(rows, row)[i]);
  }

  /** Both stores look up the same row. */
  lemma ConflictIsFirst(rows: seq<Row>, t: Table, agreement: nat, hash: Words)
    requires Same(rows, t) && Normal(t) && Lower(hash) == hash
    ensures var k := First(rows, IsFor(agreement, hash));
            var c := Conflict(t, agreement, hash);
            && (k.Some? <==> c.Some?)
            && (k.Some? ==> rows[k.value].id == c.value && rows[k.value] == Exposed(t[c.value]))
  {
    var k := First(rows, IsFor(agreement, hash));
    var c := Conflict(t, agreement, hash);
    if c.Some? {
      SameAt(rows, t, c.value);
      assert IsFor(agreement, hash)(rows[First(rows, HasId(c.value)).value]);
    }
    if k.Some? {
      assert Holds(t, rows[k.value].id, agreement, hash);
    }
  }

  /** The claims the two stores decide alike. */
  ghost predicate StartAgrees(t: Table, v: Row) {
    var c := Conflict(t, v.agreement, v.hash);
    c.Some? ==>
      var row := t[c.value];
      match row.status
      case Verified => true
      case InProgress =>
        var age := v.updatedAt - row.updatedAt;
        age < TIMEOUT || (age > TIMEOUT && row.facts == None)
      case _ => row.facts == None
  }

  ghost predicate Agree(rows: seq<Row>, inMemory: Outcome, t: Table, inSql: Outcome) {
    inMemory == inSql && Same(rows, t)
  }

  /**
   * A fresh claim on equal stores: they agree unless a lease is exactly five minutes old or a restart meets
   * old facts.
   */
  lemma StartAgreesExactly(rows: seq<Row>, t: Table, v: Row)
    requires Same(rows, t) && Normal(t) && v.id !in t && Lower(v.hash) == v.hash
    requires v == LeaseStore.Fresh(v.id, v.agreement, v.submitter, v.hash, v.submittedAt, v.updatedAt)
    ensures Agree(MemoryStart(rows, v).0, MemoryStart(rows, v).1, SqlStart(t, v).0, SqlStart(t, v).1)
        <==> StartAgrees(t, v)
  {
    ConflictIsFirst(rows, t, v.agreement, v.hash);
    var c := Conflict(t, v.agreement, v.hash);
    if c.None? {
      PutKeepsSame(rows, t, v, v);
    } else {
      PutKeepsSame(rows, t, Reset(Exposed(t[c.value]), v.updatedAt), Reset(t[c.value], v.updatedAt));
    }
  }

  /** An update writes what the map would have kept, and writes no empty text. */
  predicate FieldAgrees<T(==)>(given: Option<T>, kept: Option<T>) {
    given.None? ==> kept.None?
  }

  predicate UpdateFits(row: Row, u: Update) {
    && FieldAgrees(u.claimId, NonEmpty(row.claimId)) && FieldAgrees(u.amount, row.amount)
    && FieldAgrees(u.facts, row.facts) && FieldAgrees(u.code, NonEmpty(row.code))
    && FieldAgrees(u.message, NonEmpty(row.message)) && FieldAgrees(u.verifiedAt, row.verifiedAt)
    && u.claimId != Some([]) && u.code != Some([]) && u.message != Some([])
  }

  lemma RowsAgreeExactly(stored: Row, u: Update)
    ensures Merged(Exposed(stored), u) == Exposed(Overwritten(stored, u)) <==> UpdateFits(stored, u)
  {}

  lemma UpdateAgreesExactly(rows: seq<Row>, t: Table, id: nat, u: Update)
    requires Same(rows, t) && Normal(t)
    ensures Agree(MemoryUpdate(rows, id, u).0, MemoryUpdate(rows, id, u).1,
                  SqlUpdate(t, id, u).0, SqlUpdate(t, id, u).1)
            <==> (id in t ==> UpdateFits(t[id], u) && !(u.status == Verified && Taken(t, id)))
  {
    SameAt(rows, t, id);
    if id in t {
      RowsAgreeExactly(t[id], u);
      if UpdateFits(t[id], u) { PutKeepsSame(rows, t, Merged(Exposed(t[id]), u), Overwritten(t[id], u)); }
    }
  }

  lemma FindAgrees(rows: seq<Row>, t: Table, hash: Words)
    requires Same(rows, t) && Normal(t) && Lower(hash) == hash
    ensures MemoryFind(rows, hash) == SqlFind(t, hash)
  {
    var k := First(rows, IsVerified(hash));
    if k.Some? {
      assert HoldsVerified(t, rows[k.value].id, hash);
    }
    forall id | HoldsVerified(t, id, hash) ensures k.Some? && rows[k.value].id == id {
      SameAt(rows, t, id);
      assert IsVerified(hash)(rows[First(rows, HasId(id)).value]);
    }
  }

  /*** Histories ***/

  datatype Op = Start(v: Row) | Report(id: nat, u: Update) | Find(hash: Words)

  function InMemory(rows: seq<Row>, op: Op): (seq<Row>, Outcome) {
    match op
    case Start(v) => MemoryStart(rows, v)
    case Report(id, u) => MemoryUpdate(rows, id, u)
    case Find(hash) => (rows, MemoryFind(rows, hash))
  }

  ghost function InSql(t: Table, op: Op): (Table, Outcome) {
    match op
    case Start(v) => SqlStart(t, v)
    case Report(id, u) => SqlUpdate(t, id, u)
    case Find(hash) => (t, SqlFind(t, hash))
  }

  ghost function MemoryOutcomes(rows: seq<Row>, ops: seq<Op>): seq<Outcome>
    decreases ops
  {
    if ops == [] then [] else [InMemory(rows, ops[0]).1] + MemoryOutcomes(InMemory(rows, ops[0]).0, ops[1..])
  }

  ghost function SqlOutcomes(t: Table, ops: seq<Op>): (r: seq<Outcome>)
    ensures |r| == |ops|
    decreases ops
  {
    if ops == [] then [] else [InSql(t, ops[0]).1] + SqlOutcomes(InSql(t, ops[0]).0, ops[1..])
  }

  ghost function MemoryAfter(rows: seq<Row>, ops: seq<Op>): seq<Row>
    decreases ops
  {
    if ops == [] then rows else MemoryAfter(InMemory(rows, ops[0]).0, ops[1..])
  }

  ghost function SqlAfter(t: Table, ops: seq<Op>): Table
    decreases ops
  {
    if ops == [] then t else SqlAfter(InSql(t, ops[0]).0, ops[1..])
  }

  /**
   * Lower-case hashes, fresh ids, no lease exactly five minutes old, results reported only on rows in progress,
   * facts only with a verification, nonempty texts, no unique violation.
   */
  ghost predicate Disciplined(t: Table, op: Op) {
    match op
    case Start(v) =>
      && v == LeaseStore.Fresh(v.id, v.agreement, v.submitter, v.hash, v.submittedAt, v.updatedAt)
      && v.id !in t && Lower(v.hash) == v.hash
      && var c := Conflict(t, v.agreement, v.hash);
         c.Some? && t[c.value].status == InProgress ==> v.updatedAt - t[c.value].updatedAt != TIMEOUT
    case Report(id, u) =>
      && u.status != InProgress && (u.status != Verified ==> u.facts == None)
      && u.claimId != Some([]) && u.code != Some([]) && u.message != Some([])
      && (id in t ==> t[id].status == InProgress && !(u.status == Verified && Taken(t, id)))
    case Find(hash) => Lower(hash) == hash
  }

  ghost predicate DisciplinedAll(t: Table, ops: seq<Op>)
    decreases ops
  {
    ops != [] ==> Disciplined(t, ops[0]) && DisciplinedAll(InSql(t, ops[0]).0, ops[1..])
  }

  /** Rows in progress carry no result, rows not verified no facts. */
  ghost predicate Tidy(t: Table) {
    forall id <- t :: TidyRow(t[id])
  }

  predicate TidyRow(row: Row) {
    && (row.status != Verified ==> row.facts == None)
    && (row.status == InProgress ==>
          row.claimId == None && row.amount == None && row.code == None && row.message == None
              && row.verifiedAt == None)
  }

  lemma StepKeepsNormal(t: Table, op: Op)
    requires Normal(t) && Disciplined(t, op)
    ensures Normal(InSql(t, op).0)
  {
    match op
    case Start(v) => StartKeepsConstraints(t, v);
    case Report(id, u) => UpdateKeepsConstraints(t, id, u);
    case Find(_) =>
  }

  lemma StepKeepsTidy(t: Table, op: Op)
    requires Tidy(t) && Disciplined(t, op)
    ensures Tidy(InSql(t, op).0)
  {}

  lemma DisciplineSuffices(t: Table, op: Op)
    requires Constraints(t) && Tidy(t) && Disciplined(t, op)
    ensures op.Start? ==> StartAgrees(t, op.v)
    ensures op.Report? && op.id in t ==> UpdateFits(t[op.id], op.u) && !(op.u.status == Verified && Taken(t, op.id))
  {
    if op.Report? && op.id in t { assert TidyRow(t[op.id]); }
  }

  lemma StepAgrees(rows: seq<Row>, t: Table, op: Op)
    requires Same(rows, t) && Normal(t) && Tidy(t) && Disciplined(t, op)
    ensures Agree(InMemory(rows, op).0, InMemory(rows, op).1, InSql(t, op).0, InSql(t, op).1)
  {
    DisciplineSuffices(t, op);
    match op
    case Start(v) => StartAgreesExactly(rows, t, v);
    case Report(id, u) => UpdateAgreesExactly(rows, t, id, u);
    case Find(hash) => FindAgrees(rows, t, hash);
  }

  /** Over every disciplined history the two stores give the same answers and end with the same rows. */
  lemma {:induction false} StoresAgree(rows: seq<Row>, t: Table, ops: seq<Op>)
    requires Same(rows, t) && Normal(t) && Tidy(t) && DisciplinedAll(t, ops)
    ensures MemoryOutcomes(rows, ops) == SqlOutcomes(t, ops)
    ensures Same(MemoryAfter(rows, ops), SqlAfter(t, ops))
    decreases ops
  {
    if ops != [] {
      StepAgrees(rows, t, ops[0]);
      StepKeepsNormal(t, ops[0]);
      StepKeepsTidy(t, ops[0]);
      StoresAgree(InMemory(rows, ops[0]).0, InSql(t, ops[0]).0, ops[1..]);
    }
  }
}
