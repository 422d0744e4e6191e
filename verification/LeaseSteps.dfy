/** What each step of `verify` does to the table, `backend/src/agreements/agreement-condition-service.ts`. */
module LeaseSteps {
  import opened Digests
  import opened Numerals
  import opened LeaseStore
  import opened LeaseRuns

  /** Some row is verified for this transaction and another agreement. */
  ghost predicate VerifiedElsewhere(t: Table, agreement: nat, hash: Words) {
    exists id :: id in t && t[id].status == Verified && t[id].hash == hash && t[id].agreement != agreement
  }

  /** A call is refused exactly when its transaction is verified for another agreement; otherwise it goes on. */
  lemma LookIsExact(events: seq<Event>, a: nat)
    requires var m := Run(START, events); a < |m.attempts| && m.attempts[a].phase == Looking
    ensures var m := Run(START, events);
            var x := m.attempts[a];
            && Next(m, Look(a)).table == m.table && Next(m, Look(a)).now == m.now
            && Next(m, Look(a)).attempts
               == m.attempts[a := x.(phase := if VerifiedElsewhere(m.table, x.agreement, x.hash) then Refused
                                              else Chosen)]
  {
    AnyRunIsSound(START, events);
    var m := Run(START, events);
    FindIsExact(m.table, m.attempts[a].agreement, m.attempts[a].hash);
  }

  lemma FindIsExact(t: Table, agreement: nat, hash: Words)
    requires Constraints(t)
    ensures var o := SqlFind(t, hash);
            && o.Found?
            && (o.found.Some? && o.found.value.agreement != agreement <==> VerifiedElsewhere(t, agreement, hash))
  {
    if VerifiedElsewhere(t, agreement, hash) {
      var id :| id in t && t[id].status == Verified && t[id].hash == hash && t[id].agreement != agreement;
      assert HoldsVerified(t, id, hash);
    }
  }

  /** The row of this agreement and transaction, if there is one. */
  ghost predicate RowFor(t: Table, id: nat, agreement: nat, hash: Words) {
    id in t && t[id].agreement == agreement && t[id].hash == hash
  }

  /**
   * A claim: without a row for its agreement and transaction it inserts one of its own, in progress and without
   * results; a row that failed, or has been in progress for more than five minutes, it takes over, cleared of results
   * but with its id, submitter and submission time; and any other row it leaves alone and is declined.
   */
  lemma ClaimIsExact(events: seq<Event>, a: nat)
    requires var m := Run(START, events); a < |m.attempts| && m.attempts[a].phase.Sending?
    ensures var m := Run(START, events);
            var x := m.attempts[a];
            var after := Next(m, Claim(a));
            && (forall id: nat | RowFor(m.table, id, x.agreement, x.hash) ::
                  var row := m.table[id];
                  if || row.status in {Pending, Failed}
                     || (row.status == InProgress && x.phase.at - row.updatedAt > TIMEOUT) then
                    && after.attempts[a].phase == Working(id, x.phase.at)
                    && after.table == m.table[id := LeaseStore.Fresh(id, x.agreement, row.submitter, x.hash,
                                                                     row.submittedAt, x.phase.at)]
                  else after.attempts[a].phase == Declined && after.table == m.table)
            && ((forall id: nat :: !RowFor(m.table, id, x.agreement, x.hash)) ==>
                  && after.attempts[a].phase == Working(a, x.phase.at)
                  && after.table == m.table[a := LeaseStore.Fresh(a, x.agreement, x.submitter, x.hash,
                                                                  x.phase.at, x.phase.at)])
  {
    AnyRunIsSound(START, events);
    var m := Run(START, events);
    var x := m.attempts[a];
    ConflictIsRow(m.table, x.agreement, x.hash);
  }

  lemma ConflictIsRow(t: Table, agreement: nat, hash: Words)
    requires Constraints(t)
    ensures forall id: nat | RowFor(t, id, agreement, hash) :: Conflict(t, agreement, hash) == Some(id)
    ensures (forall id: nat :: !RowFor(t, id, agreement, hash)) ==> Conflict(t, agreement, hash) == None
  {
    forall id: nat | RowFor(t, id, agreement, hash) ensures Conflict(t, agreement, hash) == Some(id) {
      assert LeaseStore.Holds(t, id, agreement, hash);
    }
    if Conflict(t, agreement, hash).Some? { assert RowFor(t, Conflict(t, agreement, hash).value, agreement, hash); }
  }

  /** What a verdict leaves in its row. */
  function Verdicted(row: Row, verdict: Verdict, at: int): Row {
    match verdict
    case Proven(claimId, amount, facts) =>
      Row(row.id, row.agreement, row.submitter, row.hash, Verified, Some(claimId), Some(amount), Some(facts),
          None, None, row.submittedAt, Some(at), at)
    case NotProven(code, message) => FailedRow(row, code, message, at)
  }

  function FailedRow(row: Row, code: Words, message: Words, at: int): Row {
    Row(row.id, row.agreement, row.submitter, row.hash, Failed, None, None, None,
        Some(code), Some(message), row.submittedAt, None, at)
  }

  /**
   * A verdict is written whole into the attempt's row, and the call returns that row; unless it is a proof and another
   * row is verified for the transaction, when nothing is written and the attempt has lost.
   */
  lemma WriteIsExact(m: System, a: nat)
    requires a < |m.attempts| && m.attempts[a].phase.Reporting? && m.attempts[a].phase.id in m.table
    ensures var Reporting(id, at, verdict, reportedAt) := m.attempts[a].phase;
            var taken := exists other :: other != id && HoldsVerified(m.table, other, m.table[id].hash);
            Next(m, Write(a)) ==
              if verdict.Proven? && taken then To(m, a, Losing(id, at))
              else
                var row := Verdicted(m.table[id], verdict, reportedAt);
                To(m, a, Done(verdict.Proven?, Exposed(row))).(table := m.table[id := row])
  {}

  /** A loser's row fails with `REPLAY_DETECTED` and its message, whatever it held. */
  lemma ConcedeIsExact(m: System, a: nat)
    requires a < |m.attempts| && m.attempts[a].phase.Losing? && m.attempts[a].phase.id in m.table
    ensures var id := m.attempts[a].phase.id;
            var row := FailedRow(m.table[id], Units("REPLAY_DETECTED"),
                                 Units("This external transaction is already verified for another agreement."), m.now);
            Next(m, Concede(a)) == To(m, a, Done(true, Exposed(row))).(table := m.table[id := row])
  {}
}
