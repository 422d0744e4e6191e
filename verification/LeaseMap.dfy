/** `InMemoryAgreementConditionVerificationRepository` as it updates its map. */
module LeaseMap {
  import opened Digests
  import opened Numerals
  import opened Sorting
  import opened LeaseStore

  class InMemoryVerificationRepository {
    /** The map's values in insertion order; each row carries its key. */
    var verifications: seq<Row>

    constructor ()
      ensures verifications == []
    {
      verifications := [];
    }

    method StartVerification(v: Row) returns (verification: Row, claimed: bool)
      modifies this
      ensures (verifications, Started(verification, claimed)) == MemoryStart(old(verifications), v)
    {
      var existing := FindVerification(v.agreement, v.hash);
      if existing.Some? {
        var row := verifications[existing.value];
        if row.status == Verified || (row.status == InProgress && !IsStale(row.updatedAt, v.updatedAt)) {
          return row, false;
        }
        var restarted := row.(status := InProgress, claimId := None, amount := None, code := None, message := None,
                              verifiedAt := None, updatedAt := v.updatedAt);
        Set(restarted);
        return restarted, true;
      }
      Set(v);
      return v, true;
    }

    method UpdateVerification(id: nat, u: Update) returns (updated: Option<Row>)
      modifies this
      ensures (verifications, Updated(updated)) == MemoryUpdate(old(verifications), id, u)
    {
      var k := Get(id);
      if k.None? { return None; }
      var row := verifications[k.value].(status := u.status);
      if u.claimId.Some? { row := row.(claimId := u.claimId); }
      if u.amount.Some? { row := row.(amount := u.amount); }
      if u.facts.Some? { row := row.(facts := u.facts); }
      if u.code.Some? { row := row.(code := u.code); }
      if u.message.Some? { row := row.(message := u.message); }
      if u.verifiedAt.Some? { row := row.(verifiedAt := u.verifiedAt); }
      row := row.(updatedAt := u.updatedAt);
      Set(row);
      return Some(row);
    }

    method FindVerifiedTransaction(hash: Words) returns (found: Option<Row>)
      ensures Found(found) == MemoryFind(verifications, hash)
    {
      for i := 0 to |verifications|
        invariant forall j | 0 <= j < i :: !IsVerified(hash)(verifications[j])
      {
        if verifications[i].status == Verified && Lower(verifications[i].hash) == Lower(hash) {
          FirstIs(verifications, IsVerified(hash), Some(i));
          return Some(verifications[i]);
        }
      }
      FirstIs(verifications, IsVerified(hash), None);
      return None;
    }

    method LatestVerification(agreement: nat) returns (latest: Option<Row>)
      ensures Found(latest) == MemoryLatest(verifications, agreement)
    {
      var sorted := Sort(Filter(IsOf(agreement), verifications), Submitted, LaterFirst());
      latest := if sorted == [] then None else Some(sorted[0]);
    }

    method FindVerification(agreement: nat, hash: Words) returns (k: Option<nat>)
      ensures k == First(verifications, IsFor(agreement, hash))
    {
      for i := 0 to |verifications|
        invariant forall j | 0 <= j < i :: !IsFor(agreement, hash)(verifications[j])
      {
        if verifications[i].agreement == agreement && Lower(verifications[i].hash) == Lower(hash) {
          FirstIs(verifications, IsFor(agreement, hash), Some(i));
          return Some(i);
        }
      }
      FirstIs(verifications, IsFor(agreement, hash), None);
      return None;
    }

    /** The entry of a key. */
    method Get(id: nat) returns (k: Option<nat>)
      ensures k == First(verifications, HasId(id))
    {
      for i := 0 to |verifications|
        invariant forall j | 0 <= j < i :: !HasId(id)(verifications[j])
      {
        if verifications[i].id == id {
          FirstIs(verifications, HasId(id), Some(i));
          return Some(i);
        }
      }
      FirstIs(verifications, HasId(id), None);
      return None;
    }

    method Set(row: Row)
      modifies this
      ensures verifications == Put(old(verifications), row)
    {
      var k := Get(row.id);
      verifications := if k.Some? then verifications[k.value := row] else verifications + [row];
    }

    function IsStale(updatedAt: int, attemptedAt: int): bool {
      attemptedAt - updatedAt >= TIMEOUT
    }
  }

  /** A scan that stops at the first match finds what `First` names. */
  lemma FirstIs(rows: seq<Row>, P: Row -> bool, k: Option<nat>)
    requires k.Some? ==> k.value < |rows| && P(rows[k.value]) && forall i | 0 <= i < k.value :: !P(rows[i])
    requires k.None? ==> forall i | 0 <= i < |rows| :: !P(rows[i])
    ensures First(rows, P) == k
  {}
}
