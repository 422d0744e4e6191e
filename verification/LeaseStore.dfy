/** The verification lease store in both of its forms, `backend/src/agreements/agreement-condition-repository.ts`. */
module LeaseStore {
  import opened Digests
  import opened Numerals
  import opened Sorting

  datatype Status = Pending | InProgress | Verified | Failed

  datatype Row = Row(
    id: nat, agreement: nat, submitter: nat, hash: Words, status: Status,
    claimId: Option<Words>, amount: Option<nat>, facts: Option<Words>,
    code: Option<Words>, message: Option<Words>,
    submittedAt: int, verifiedAt: Option<int>, updatedAt: int)

  datatype Update = Update(
    status: Status, claimId: Option<Words>, amount: Option<nat>, facts: Option<Words>,
    code: Option<Words>, message: Option<Words>, verifiedAt: Option<int>, updatedAt: int)

  /** Times are milliseconds. */
  const TIMEOUT := 5 * 60 * 1000

  function Fresh(id: nat, agreement: nat, submitter: nat, hash: Words, submittedAt: int, updatedAt: int): Row {
    Row(id, agreement, submitter, hash, InProgress, None, None, None, None, None, submittedAt, None, updatedAt)
  }

  datatype Outcome =
    | Started(row: Row, claimed: bool)
    | Updated(updated: Option<Row>)
    | Found(found: Option<Row>)
    | Violation

  /*** The map in memory ***/

  /** First row that satisfies `P`, in insertion order. */
  function First(rows: seq<Row>, P: Row -> bool): (k: Option<nat>)
    ensures k.Some? ==> k.value < |rows| && P(rows[k.value]) && forall i | 0 <= i < k.value :: !P(rows[i])
    ensures k.None? ==> forall i | 0 <= i < |rows| :: !P(rows[i])
  {
    if rows == [] then None
    else if P(rows[0]) then Some(0)
    else
      var k := First(rows[1..], P);
      if k.None? then None else Some(k.value + 1)
  }

  function HasId(id: nat): Row -> bool {
    (row: Row) => row.id == id
  }

  function IsFor(agreement: nat, hash: Words): Row -> bool {
    (row: Row) => row.agreement == agreement && Lower(row.hash) == Lower(hash)
  }

  function IsVerified(hash: Words): Row -> bool {
    (row: Row) => row.status == Verified && Lower(row.hash) == Lower(hash)
  }

  /** `Map.set`: an existing key keeps its place. */
  function Put(rows: seq<Row>, row: Row): seq<Row> {
    var k := First(rows, HasId(row.id));
    if k.Some? then rows[k.value := row] else rows + [row]
  }

  predicate HeldInMemory(row: Row, at: int) {
    row.status == Verified || (row.status == InProgress && at - row.updatedAt < TIMEOUT)
  }

  /** A restart drops every result field but the verified facts. */
  function Restarted(row: Row, at: int): Row {
    row.(status := InProgress, claimId := None, amount := None, code := None, message := None,
         verifiedAt := None, updatedAt := at)
  }

  function MemoryStart(rows: seq<Row>, v: Row): (seq<Row>, Outcome) {
    var k := First(rows, IsFor(v.agreement, v.hash));
    if k.None? then (Put(rows, v), Started(v, true))
    else if HeldInMemory(rows[k.value], v.updatedAt) then (rows, Started(rows[k.value], false))
    else
      var restarted := Restarted(rows[k.value], v.updatedAt);
      (Put(rows, restarted), Started(restarted, true))
  }

  function Or<T>(given: Option<T>, kept: Option<T>): Option<T> {
    if given.Some? then given else kept
  }

  function Merged(row: Row, u: Update): Row {
    row.(status := u.status, claimId := Or(u.claimId, row.claimId), amount := Or(u.amount, row.amount),
         facts := Or(u.facts, row.facts), code := Or(u.code, row.code), message := Or(u.message, row.message),
         verifiedAt := Or(u.verifiedAt, row.verifiedAt), updatedAt := u.updatedAt)
  }

  function MemoryUpdate(rows: seq<Row>, id: nat, u: Update): (seq<Row>, Outcome) {
    var k := First(rows, HasId(id));
    if k.None? then (rows, Updated(None))
    else (Put(rows, Merged(rows[k.value], u)), Updated(Some(Merged(rows[k.value], u))))
  }

  function MemoryFind(rows: seq<Row>, hash: Words): Outcome {
    var k := First(rows, IsVerified(hash));
    Found(if k.None? then None else Some(rows[k.value]))
  }

  function IsOf(agreement: nat): Row -> bool {
    (row: Row) => row.agreement == agreement
  }

  function Submitted(row: Row): int { row.submittedAt }

  function LaterFirst(): (int, int) -> bool {
    (a: int, b: int) => a > b
  }

  /** Filtered, sorted by submission time with the latest first, and the head of that. */
  function MemoryLatest(rows: seq<Row>, agreement: nat): Outcome {
    var sorted := Sort(Filter(IsOf(agreement), rows), Submitted, LaterFirst());
    Found(if sorted == [] then None else Some(sorted[0]))
  }

  /*** The table ***/

  type Table = map<nat, Row>

  /** The primary key, the unique agreement and hash, and the unique hash of verified rows. */
  ghost predicate Constraints(t: Table) {
    && (forall id <- t :: t[id].id == id)
    && (forall a <- t, b <- t | t[a].agreement == t[b].agreement && t[a].hash == t[b].hash :: a == b)
    && (forall a <- t, b <- t | t[a].status == Verified && t[b].status == Verified && t[a].hash == t[b].hash :: a == b)
  }

  ghost predicate Holds(t: Table, id: nat, agreement: nat, hash: Words) {
    id in t && t[id].agreement == agreement && t[id].hash == hash
  }

  ghost predicate HoldsVerified(t: Table, id: nat, hash: Words) {
    id in t && t[id].status == Verified && t[id].hash == hash
  }

  ghost function Conflict(t: Table, agreement: nat, hash: Words): (r: Option<nat>)
    ensures r.Some? ==> Holds(t, r.value, agreement, hash)
    ensures r.None? ==> forall id :: !Holds(t, id, agreement, hash)
  {
    if exists id :: Holds(t, id, agreement, hash) then
      var id :| Holds(t, id, agreement, hash);
      Some(id)
    else None
  }

  /** A row as the application sees it: empty texts read as absent. */
  function Exposed(row: Row): Row {
    row.(claimId := NonEmpty(row.claimId), code := NonEmpty(row.code), message := NonEmpty(row.message))
  }

  function NonEmpty(text: Option<Words>): Option<Words> {
    if text == Some([]) then None else text
  }

  predicate Reclaimable(row: Row, at: int) {
    || row.status == Pending || row.status == Failed
    || (row.status == InProgress && row.updatedAt < at - TIMEOUT)
  }

  function Reset(row: Row, at: int): Row {
    row.(status := InProgress, claimId := None, amount := None, facts := None, code := None, message := None,
         verifiedAt := None, updatedAt := at)
  }

  ghost function SqlStart(t: Table, v: Row): (Table, Outcome) {
    var k := Conflict(t, v.agreement, v.hash);
    if k.Some? then
      var row := t[k.value];
      if Reclaimable(row, v.updatedAt)
      then (t[k.value := Reset(row, v.updatedAt)], Started(Exposed(Reset(row, v.updatedAt)), true))
      else (t, Started(Exposed(row), false))
    else if v.id in t then (t, Violation)
    else (t[v.id := v], Started(Exposed(v), true))
  }

  function Overwritten(row: Row, u: Update): Row {
    row.(status := u.status, claimId := u.claimId, amount := u.amount, facts := u.facts, code := u.code,
         message := u.message, verifiedAt := u.verifiedAt, updatedAt := u.updatedAt)
  }

  /** Another row is already verified for the transaction of this one. */
  ghost predicate Taken(t: Table, id: nat) {
    id in t && exists other :: other != id && HoldsVerified(t, other, t[id].hash)
  }

  ghost function SqlUpdate(t: Table, id: nat, u: Update): (Table, Outcome) {
    if id !in t then (t, Updated(None))
    else if u.status == Verified && Taken(t, id) then (t, Violation)
    else (t[id := Overwritten(t[id], u)], Updated(Some(Exposed(Overwritten(t[id], u)))))
  }

  ghost function SqlFind(t: Table, hash: Words): Outcome {
    if exists id :: HoldsVerified(t, id, hash) then
      var id :| HoldsVerified(t, id, hash);
      Found(Some(Exposed(t[id])))
    else Found(None)
  }

  /** `ORDER BY submitted_at DESC, id LIMIT 1`. */
  ghost predicate IsLatest(t: Table, id: nat, agreement: nat) {
    && id in t && t[id].agreement == agreement
    && forall k <- t | t[k].agreement == agreement ::
         t[k].submittedAt < t[id].submittedAt || (t[k].submittedAt == t[id].submittedAt && id <= k)
  }

  ghost function SqlLatest(t: Table, agreement: nat): Outcome {
    if exists id :: IsLatest(t, id, agreement) then
      var id :| IsLatest(t, id, agreement);
      Found(Some(Exposed(t[id])))
    else Found(None)
  }

  lemma StartKeepsConstraints(t: Table, v: Row)
    requires Constraints(t) && v.status == InProgress
    ensures Constraints(SqlStart(t, v).0)
  {
    forall id | id in t && t[id].agreement == v.agreement && t[id].hash == v.hash
      ensures Conflict(t, v.agreement, v.hash).Some? {
      assert Holds(t, id, v.agreement, v.hash);
    }
  }

  /** The database refuses exactly the updates that would break a constraint. */
  lemma UpdateKeepsConstraints(t: Table, id: nat, u: Update)
    requires Constraints(t)
    ensures Constraints(SqlUpdate(t, id, u).0)
    ensures id in t ==> (SqlUpdate(t, id, u).1 == Violation <==> !Constraints(t[id := Overwritten(t[id], u)]))
  {
    if id in t {
      var after := t[id := Overwritten(t[id], u)];
      if u.status == Verified && Taken(t, id) {
        var other: nat :| other != id && HoldsVerified(t, other, t[id].hash);
        assert after[other].hash == after[id].hash && after[other].status == after[id].status == Verified;
      } else {
        forall other: nat | other in t && other != id
          ensures !(u.status == Verified && t[other].status == Verified && t[other].hash == t[id].hash) {
          assert u.status == Verified ==> !HoldsVerified(t, other, t[id].hash);
        }
        assert Constraints(after);
      }
    }
  }
}
