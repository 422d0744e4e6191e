/** Concurrent `verify` calls on the SQL store, `backend/src/agreements/agreement-condition-service.ts`. */
module LeaseRuns {
  import opened Digests
  import opened Numerals
  import opened LeaseStore
  import opened LeaseRefinement

  /*** Successive claims of one row ***/

  /** The statement granted row `id` to its caller. */
  predicate Grants(o: Outcome, id: nat) {
    o.Started? && o.claimed && o.row.id == id
  }

  /** A report on row `id` other than a verification. */
  predicate Releases(op: Op, id: nat) {
    op.Report? && op.id == id && op.u.status != Verified
  }

  predicate StartsInProgress(ops: seq<Op>) {
    forall op <- ops :: op.Start? ==> op.v.status == InProgress
  }

  /**
   * After a row was claimed at time `since`, and whatever happens to other rows: until a report other than a
   * verification is written to it, only a claim stamped more than five minutes later is granted the row again.
   */
  lemma {:induction false} LeaseExcludes(t: Table, id: nat, since: int, ops: seq<Op>, k: nat)
    requires Constraints(t) && id in t && StartsInProgress(ops)
    requires t[id].status == Verified || (t[id].status == InProgress && t[id].updatedAt >= since)
    requires k < |ops| && Grants(SqlOutcomes(t, ops)[k], id)
    requires forall i | 0 <= i < k :: !Releases(ops[i], id)
    ensures ops[k].Start? && ops[k].v.updatedAt - since > TIMEOUT
    decreases k
  {
    if k > 0 {
      StatementKeepsConstraints(t, ops[0]);
      assert forall i | 0 <= i < k - 1 :: ops[1..][i] == ops[i + 1];
      LeaseExcludes(InSql(t, ops[0]).0, id, since, ops[1..], k - 1);
    }
  }

  lemma GrantedRow(t: Table, op: Op, id: nat)
    requires Constraints(t) && Grants(InSql(t, op).1, id) && (op.Start? ==> op.v.status == InProgress)
    ensures op.Start? && id in InSql(t, op).0 && Constraints(InSql(t, op).0)
    ensures InSql(t, op).0[id].status == InProgress && InSql(t, op).0[id].updatedAt == op.v.updatedAt
  {
    StartKeepsConstraints(t, op.v);
  }

  lemma StatementKeepsConstraints(t: Table, op: Op)
    requires Constraints(t) && (op.Start? ==> op.v.status == InProgress)
    ensures Constraints(InSql(t, op).0)
  {
    match op
    case Start(v) => StartKeepsConstraints(t, v);
    case Report(k, u) => UpdateKeepsConstraints(t, k, u);
    case Find(_) =>
  }

  /** Any two grants of one row are separated by a report other than a verification, or by more than five minutes. */
  lemma {:induction false} GrantsAreSeparated(t: Table, id: nat, ops: seq<Op>, i: nat, j: nat)
    requires Constraints(t) && StartsInProgress(ops) && i < j < |ops|
    requires Grants(SqlOutcomes(t, ops)[i], id) && Grants(SqlOutcomes(t, ops)[j], id)
    ensures || (exists k | i < k < j :: Releases(ops[k], id))
            || (ops[i].Start? && ops[j].Start? && ops[j].v.updatedAt - ops[i].v.updatedAt > TIMEOUT)
    decreases i
  {
    var after, rest := InSql(t, ops[0]).0, ops[1..];
    assert forall k | 0 < k < j :: rest[k - 1] == ops[k];
    if i > 0 {
      StatementKeepsConstraints(t, ops[0]);
      GrantsAreSeparated(after, id, rest, i - 1, j - 1);
      if k :| i - 1 < k < j - 1 && Releases(rest[k], id) { assert Releases(ops[k + 1], id); }
    } else {
      GrantedRow(t, ops[0], id);
      if forall k | 0 < k < j :: !Releases(ops[k], id) {
        LeaseExcludes(after, id, ops[0].v.updatedAt, rest, j - 1);
      }
    }
  }

  /** No guard on the holder: a claimant overtaken after five minutes overwrites the verification of its successor. */
  lemma StaleHolderOverwrites(v: Row, late: Row, verified: Update, failed: Update)
    requires v.status == late.status == InProgress && v.agreement == late.agreement && v.hash == late.hash
    requires late.updatedAt - v.updatedAt > TIMEOUT && verified.status == Verified && failed.status == Failed
    ensures var claimed := SqlStart(map[], v);
            var reclaimed := SqlStart(claimed.0, late);
            var reported := SqlUpdate(reclaimed.0, v.id, verified);
            var overwritten := SqlUpdate(reported.0, v.id, failed);
            && claimed.1 == Started(Exposed(v), true) && reclaimed.1.Started? && reclaimed.1.claimed
            && reported.0[v.id].status == Verified && overwritten.0[v.id].status == Failed
  {
    var t := SqlStart(map[], v).0;
    assert LeaseStore.Holds(t, v.id, late.agreement, late.hash);
    assert Conflict(t, late.agreement, late.hash) == Some(v.id);
  }

  /*** Attempts ***/

  datatype Verdict =
    | Proven(claimId: Words, amount: nat, facts: Words)
    | NotProven(code: Words, message: Words)

  datatype Phase =
    | Looking
    | Refused
    | Chosen
    | Sending(at: int)
    | Declined
    | Working(id: nat, at: int)
    | Reporting(id: nat, at: int, verdict: Verdict, reportedAt: int)
    | Losing(id: nat, at: int)
    | Done(proven: bool, row: Row)
    | Crashed

  datatype Attempt = Attempt(agreement: nat, submitter: nat, hash: Words, phase: Phase)

  /** The table, every `verify` call so far, and the clock. */
  datatype System = System(table: Table, attempts: seq<Attempt>, now: int)

  datatype Event =
    | Enter(agreement: nat, submitter: nat, hash: Words)
    | Look(a: nat)
    | Stamp(a: nat)
    | Claim(a: nat)
    | Decide(a: nat, verdict: Verdict)
    | Write(a: nat)
    | Concede(a: nat)
    | Crash(a: nat)
    | Tick(elapsed: nat)

  predicate Holding(phase: Phase) {
    phase.Working? || phase.Reporting? || phase.Losing?
  }

  const REPLAY_CODE := Units("REPLAY_DETECTED")
  const REPLAY_MESSAGE := Units("This external transaction is already verified for another agreement.")

  function ReportOf(verdict: Verdict, at: int): Update {
    match verdict
    case Proven(claimId, amount, facts) =>
        Update(Verified, Some(claimId), Some(amount), Some(facts), None, None, Some(at), at)
    case NotProven(code, message) => Failure(code, message, at)
  }

  function Failure(code: Words, message: Words, at: int): Update {
    Update(Failed, None, None, None, Some(code), Some(message), None, at)
  }

  function To(m: System, a: nat, phase: Phase): System
    requires a < |m.attempts|
  {
    m.(attempts := m.attempts[a := m.attempts[a].(phase := phase)])
  }

  /** The row a new attempt would insert; its id is the attempt itself, so ids are never reused. */
  function Inserted(m: System, a: nat, at: int): Row
    requires a < |m.attempts|
  {
    LeaseStore.Fresh(a, m.attempts[a].agreement, m.attempts[a].submitter, m.attempts[a].hash, at, at)
  }

  /** The upsert: the lease is taken, or the row that blocks it is returned. */
  ghost function Acquire(m: System, a: nat, at: int): System
    requires a < |m.attempts|
  {
    var (t, o) := SqlStart(m.table, Inserted(m, a, at));
    if o.Started? && o.claimed then To(m, a, Working(o.row.id, at)).(table := t)
    else To(m, a, if o.Started? then Declined else Crashed)
  }

  /** The verdict's update: stored, refused by the unique index, or aimed at no row. */
  ghost function Record(m: System, a: nat, id: nat, at: int, verdict: Verdict, reportedAt: int): System
    requires a < |m.attempts|
  {
    var (t, o) := SqlUpdate(m.table, id, ReportOf(verdict, reportedAt));
    match o
    case Violation => To(m, a, Losing(id, at))
    case Updated(Some(row)) => To(m, a, Done(verdict.Proven?, row)).(table := t)
    case _ => To(m, a, Crashed)
  }

  /** `finishFailure` after a unique violation. */
  ghost function Lose(m: System, a: nat, id: nat): System
    requires a < |m.attempts|
  {
    var (t, o) := SqlUpdate(m.table, id, Failure(REPLAY_CODE, REPLAY_MESSAGE, m.now));
    if o.Updated? && o.updated.Some? then To(m, a, Done(true, o.updated.value)).(table := t) else To(m, a, Crashed)
  }

  /** One statement or one clock reading of one attempt; a step that is not due changes nothing. */
  ghost function Next(m: System, event: Event): System {
    match event
    case Enter(agreement, submitter, hash) =>
      m.(attempts := m.attempts + [Attempt(agreement, submitter, hash, Looking)])
    case Tick(elapsed) => m.(now := m.now + elapsed)
    case _ => if event.a < |m.attempts| then Proceed(m, event, m.attempts[event.a].phase) else m
  }

  ghost function Proceed(m: System, event: Event, phase: Phase): System
    requires !event.Enter? && !event.Tick? && event.a < |m.attempts|
  {
    var a := event.a;
    match (event, phase)
    case (Look(_), Looking) =>
      var o := SqlFind(m.table, m.attempts[a].hash);
      var elsewhere := o.Found? && o.found.Some? && o.found.value.agreement != m.attempts[a].agreement;
      To(m, a, if elsewhere then Refused else Chosen)
    case (Stamp(_), Chosen) => To(m, a, Sending(m.now))
    case (Claim(_), Sending(at)) => Acquire(m, a, at)
    case (Decide(_, verdict), Working(id, at)) => To(m, a, Reporting(id, at, verdict, m.now))
    case (Write(_), Reporting(id, at, verdict, reportedAt)) => Record(m, a, id, at, verdict, reportedAt)
    case (Concede(_), Losing(id, at)) => Lose(m, a, id)
    case (Crash(_), _) => if phase.Done? then m else To(m, a, Crashed)
    case _ => m
  }

  /*** What every interleaving keeps ***/

  ghost predicate Sound(m: System) {
    && Constraints(m.table)
    && (forall id <- m.table :: id < |m.attempts| && !Unsent(m.attempts[id].phase))
    && (forall a | 0 <= a < |m.attempts| && m.attempts[a].phase.Sending? :: m.attempts[a].phase.at <= m.now)
  }

  predicate Unsent(phase: Phase) {
    phase.Looking? || phase.Chosen? || phase.Sending?
  }

  lemma MoveKeepsSound(m: System, a: nat, phase: Phase)
    requires Sound(m) && a < |m.attempts| && (Unsent(phase) ==> Unsent(m.attempts[a].phase))
    requires phase.Sending? ==> phase.at <= m.now
    ensures Sound(To(m, a, phase))
  {}

  lemma AcquireKeepsSound(m: System, a: nat, at: int)
    requires Sound(m) && a < |m.attempts| && m.attempts[a].phase.Sending?
    ensures Sound(Acquire(m, a, at))
  {
    StartKeepsConstraints(m.table, Inserted(m, a, at));
  }

  lemma RecordKeepsSound(m: System, a: nat, id: nat, at: int, verdict: Verdict, reportedAt: int)
    requires Sound(m) && a < |m.attempts|
    ensures Sound(Record(m, a, id, at, verdict, reportedAt))
  {
    UpdateKeepsConstraints(m.table, id, ReportOf(verdict, reportedAt));
  }

  lemma LoseKeepsSound(m: System, a: nat, id: nat)
    requires Sound(m) && a < |m.attempts|
    ensures Sound(Lose(m, a, id))
  {
    UpdateKeepsConstraints(m.table, id, Failure(REPLAY_CODE, REPLAY_MESSAGE, m.now));
  }

  lemma NextIsSound(m: System, event: Event)
    requires Sound(m)
    ensures Sound(Next(m, event))
  {
    if !event.Enter? && !event.Tick? && event.a < |m.attempts| {
      var a := event.a;
      var phase := m.attempts[a].phase;
      if event.Claim? && phase.Sending? { AcquireKeepsSound(m, a, phase.at); }
      else if event.Write? && phase.Reporting? {
        RecordKeepsSound(m, a, phase.id, phase.at, phase.verdict, phase.reportedAt);
      }
      else if event.Concede? && phase.Losing? { LoseKeepsSound(m, a, phase.id); }
      else { MoveKeepsSound(m, a, Next(m, event).attempts[a].phase); }
    }
  }

  /*** Who holds one row ***/

  /** Attempt `a` is at work on row `id`. */
  predicate Holds(m: System, a: nat, id: nat) {
    a < |m.attempts| && Holding(m.attempts[a].phase) && m.attempts[a].phase.id == id
  }

  /** The held row is the attempt's own, in progress since it claimed it. */
  ghost predicate Intact(m: System, a: nat, id: nat)
    requires Holds(m, a, id)
  {
    var x := m.attempts[a];
    && id in m.table
    && var row := m.table[id];
       row.status == InProgress && row.updatedAt == x.phase.at && row.agreement == x.agreement && row.hash == x.hash
  }

  predicate OneHolder(m: System, id: nat) {
    forall a, b | 0 <= a < |m.attempts| && 0 <= b < |m.attempts| && Holds(m, a, id) && Holds(m, b, id) :: a == b
  }

  ghost predicate Exclusive(m: System, id: nat) {
    && OneHolder(m, id)
    && (forall a | 0 <= a < |m.attempts| && Holds(m, a, id) :: Intact(m, a, id))
  }

  /** The step grants row `id` to a new claimant. */
  ghost predicate Claims(m: System, event: Event, id: nat) {
    && event.Claim? && event.a < |m.attempts| && m.attempts[event.a].phase.Sending?
    && Grants(SqlStart(m.table, Inserted(m, event.a, m.attempts[event.a].phase.at)).1, id)
  }

  /** The step grants row `id` while another attempt is still at work on it. */
  ghost predicate Overtakes(m: System, event: Event, id: nat) {
    Claims(m, event, id) && exists b | 0 <= b < |m.attempts| :: Holds(m, b, id)
  }

  /** Attempt `b` holds row `id`, for the transaction `a` is about to claim, since more than five minutes before `a`. */
  predicate Precedes(m: System, b: nat, a: nat, id: nat)
    requires a < |m.attempts| && m.attempts[a].phase.Sending?
  {
    && Holds(m, b, id)
    && m.attempts[a].agreement == m.attempts[b].agreement && m.attempts[a].hash == m.attempts[b].hash
    && m.attempts[a].phase.at - m.attempts[b].phase.at > TIMEOUT
  }

  /** The step sends a claim stamped more than five minutes after the claim of an attempt at work on row `id`. */
  predicate LateClaim(m: System, event: Event, id: nat) {
    && event.Claim? && event.a < |m.attempts| && m.attempts[event.a].phase.Sending?
    && exists b | 0 <= b < |m.attempts| :: Precedes(m, b, event.a, id)
  }

  lemma OvertakingIsLate(m: System, event: Event, id: nat, b: nat)
    requires Sound(m) && Exclusive(m, id) && Claims(m, event, id) && Holds(m, b, id)
    ensures Precedes(m, b, event.a, id)
  {
    assert Intact(m, b, id);
  }

  /** The guard of the upsert: a claim overtakes exactly when it is late. */
  lemma LateClaimsOvertake(m: System, event: Event, id: nat)
    requires Sound(m) && Exclusive(m, id)
    ensures Overtakes(m, event, id) <==> LateClaim(m, event, id)
  {
    if Overtakes(m, event, id) {
      var b :| 0 <= b < |m.attempts| && Holds(m, b, id);
      OvertakingIsLate(m, event, id, b);
    }
    if LateClaim(m, event, id) {
      var b :| 0 <= b < |m.attempts| && Precedes(m, b, event.a, id);
      assert Intact(m, b, id);
      assert LeaseStore.Holds(m.table, id, m.attempts[event.a].agreement, m.attempts[event.a].hash);
      assert Conflict(m.table, m.attempts[event.a].agreement, m.attempts[event.a].hash) == Some(id);
    }
  }

  lemma ClaimKeepsExclusive(m: System, a: nat, at: int, id: nat)
    requires Sound(m) && Exclusive(m, id) && a < |m.attempts| && m.attempts[a].phase == Sending(at)
    requires !Overtakes(m, Claim(a), id)
    ensures Exclusive(Acquire(m, a, at), id)
  {
    var v := Inserted(m, a, at);
    var (t, o) := SqlStart(m.table, v);
    var after := Acquire(m, a, at);
    if Grants(o, id) {
      forall b: nat | b < |m.attempts| ensures !Holds(m, b, id) {
        if Holds(m, b, id) { assert Overtakes(m, Claim(a), id); }
      }
      assert t[id].updatedAt == at && t[id].agreement == v.agreement && t[id].hash == v.hash;
      forall b: nat | b < |m.attempts| && Holds(after, b, id) ensures b == a && Intact(after, b, id) {
        assert b != a ==> Holds(m, b, id);
      }
    } else {
      assert id in m.table ==> id in after.table && after.table[id] == m.table[id];
      forall b: nat | b < |m.attempts| && Holds(after, b, id) ensures Holds(m, b, id) && Intact(after, b, id) {
        assert Intact(m, b, id);
      }
    }
  }

  /** A step of attempt `a` that touches no row but the one it holds and leaves it if it changes it. */
  lemma StepKeepsExclusive(m: System, a: nat, phase: Phase, table: Table, id: nat)
    requires Exclusive(m, id) && a < |m.attempts|
    requires Holding(phase) ==>
               && Holding(m.attempts[a].phase) && table == m.table
               && phase.id == m.attempts[a].phase.id && phase.at == m.attempts[a].phase.at
    requires id in m.table && !Holds(m, a, id) ==> id in table && table[id] == m.table[id]
    ensures Exclusive(To(m, a, phase).(table := table), id)
  {
    var after := To(m, a, phase).(table := table);
    forall b: nat | b < |m.attempts| && Holds(after, b, id) ensures Holds(m, b, id) && Intact(after, b, id) {
      assert Intact(m, b, id);
    }
  }

  lemma RecordKeepsExclusive(m: System, a: nat, row: nat, at: int, verdict: Verdict, reportedAt: int, id: nat)
    requires Exclusive(m, id) && a < |m.attempts| && m.attempts[a].phase == Reporting(row, at, verdict, reportedAt)
    ensures Exclusive(Record(m, a, row, at, verdict, reportedAt), id)
  {
    var after := Record(m, a, row, at, verdict, reportedAt);
    StepKeepsExclusive(m, a, after.attempts[a].phase, after.table, id);
  }

  lemma LoseKeepsExclusive(m: System, a: nat, row: nat, at: int, id: nat)
    requires Exclusive(m, id) && a < |m.attempts| && m.attempts[a].phase == Losing(row, at)
    ensures Exclusive(Lose(m, a, row), id)
  {
    var after := Lose(m, a, row);
    StepKeepsExclusive(m, a, after.attempts[a].phase, after.table, id);
  }

  lemma EnterKeepsExclusive(m: System, event: Event, id: nat)
    requires Exclusive(m, id) && (event.Enter? || event.Tick?)
    ensures Exclusive(Next(m, event), id)
  {
    var after := Next(m, event);
    forall b: nat | b < |after.attempts| && Holds(after, b, id) ensures Holds(m, b, id) && Intact(after, b, id) {
      assert Intact(m, b, id);
    }
  }

  lemma NextIsExclusive(m: System, event: Event, id: nat)
    requires Sound(m) && Exclusive(m, id) && !Overtakes(m, event, id)
    ensures Exclusive(Next(m, event), id)
  {
    if event.Enter? || event.Tick? {
      EnterKeepsExclusive(m, event, id);
    } else if event.a < |m.attempts| {
      var a := event.a;
      var phase := m.attempts[a].phase;
      if event.Claim? && phase.Sending? { ClaimKeepsExclusive(m, a, phase.at, id); }
      else if event.Write? && phase.Reporting? {
        RecordKeepsExclusive(m, a, phase.id, phase.at, phase.verdict, phase.reportedAt, id);
      }
      else if event.Concede? && phase.Losing? { LoseKeepsExclusive(m, a, phase.id, phase.at, id); }
      else { StepKeepsExclusive(m, a, Next(m, event).attempts[a].phase, m.table, id); }
    }
  }

  /** After overtaking, two attempts hold the row. */
  lemma OvertakenIsShared(m: System, event: Event, id: nat)
    requires Overtakes(m, event, id)
    ensures !OneHolder(Next(m, event), id)
  {
    var b :| 0 <= b < |m.attempts| && Holds(m, b, id);
    assert Holds(Next(m, event), b, id) && Holds(Next(m, event), event.a, id);
  }

  /*** Results ***/

  /** Row `id`, once verified, is left exactly as it is. */
  ghost predicate KeepsVerified(t: Table, after: Table, id: nat) {
    id in t && t[id].status == Verified ==> id in after && after[id] == t[id]
  }

  lemma AcquireKeepsVerified(m: System, a: nat, at: int, id: nat)
    requires Sound(m) && a < |m.attempts|
    ensures KeepsVerified(m.table, Acquire(m, a, at).table, id)
  {}

  /** Only three of an attempt's steps run a statement that writes. */
  lemma TableMoves(m: System, event: Event)
    ensures var after := Next(m, event).table;
            || after == m.table
            || (!event.Enter? && !event.Tick? && event.a < |m.attempts|
                && var phase := m.attempts[event.a].phase;
                   || (phase.Sending? && after == Acquire(m, event.a, phase.at).table)
                   || (phase.Reporting?
                       && after == SqlUpdate(m.table, phase.id, ReportOf(phase.verdict, phase.reportedAt)).0)
                   || (phase.Losing?
                       && after == SqlUpdate(m.table, phase.id, Failure(REPLAY_CODE, REPLAY_MESSAGE, m.now)).0))
  {}

  lemma NextKeepsVerified(m: System, event: Event, id: nat)
    requires Sound(m) && Exclusive(m, id)
    ensures KeepsVerified(m.table, Next(m, event).table, id)
  {
    TableMoves(m, event);
    if Next(m, event).table != m.table {
      var a, phase := event.a, m.attempts[event.a].phase;
      if phase.Sending? { AcquireKeepsVerified(m, a, phase.at, id); }
      else if phase.id == id { assert Holds(m, a, id) && Intact(m, a, id); }
    }
  }

  /** Why an attempt that had a proof ended: its row is verified for good, or the transaction was taken elsewhere. */
  predicate Settled(m: System, a: nat, id: nat)
    requires a < |m.attempts|
  {
    var x := m.attempts[a];
    x.phase.Done? && x.phase.proven && x.phase.row.id == id ==>
      var row := x.phase.row;
      && row.agreement == x.agreement && row.hash == x.hash
      && if row.status == Verified
         then id in m.table && m.table[id].status == Verified && Exposed(m.table[id]) == row
         else row.status == Failed && row.code == Some(REPLAY_CODE)
  }

  ghost predicate AllSettled(m: System, id: nat) {
    forall a | 0 <= a < |m.attempts| :: Settled(m, a, id)
  }

  lemma OwnStepSettles(m: System, event: Event, id: nat)
    requires Sound(m) && Exclusive(m, id) && AllSettled(m, id)
    requires !event.Enter? && !event.Tick? && event.a < |m.attempts|
    requires KeepsVerified(m.table, Next(m, event).table, id)
    ensures var after := Next(m, event);
            && |after.attempts| == |m.attempts| && Settled(after, event.a, id)
            && after == To(m, event.a, after.attempts[event.a].phase).(table := after.table)
  {
    assert Settled(m, event.a, id);
    if Holds(m, event.a, id) { assert Intact(m, event.a, id); }
  }

  lemma NextIsSettled(m: System, event: Event, id: nat)
    requires Sound(m) && Exclusive(m, id) && AllSettled(m, id)
    ensures AllSettled(Next(m, event), id)
  {
    var after := Next(m, event);
    NextKeepsVerified(m, event, id);
    if !event.Enter? && !event.Tick? && event.a < |m.attempts| { OwnStepSettles(m, event, id); }
    forall b: nat | b < |after.attempts| ensures Settled(after, b, id) {
      if b < |m.attempts| { assert Settled(m, b, id); }
    }
  }

  /*** Runs ***/

  const START := System(map[], [], 0)

  ghost function Run(m: System, events: seq<Event>): System
    decreases events
  {
    if events == [] then m else Run(Next(m, events[0]), events[1..])
  }

  lemma {:induction false} RunInTwo(m: System, events: seq<Event>, k: nat)
    requires k <= |events|
    ensures Run(m, events) == Run(Run(m, events[..k]), events[k..])
    decreases k
  {
    if k == 0 {
      assert events[..0] == [] && events[0..] == events;
    } else {
      RunInTwo(Next(m, events[0]), events[1..], k - 1);
      assert events[..k][1..] == events[1..][..k - 1] && events[1..][k - 1..] == events[k..];
    }
  }

  lemma {:induction false} AnyRunIsSound(m: System, events: seq<Event>)
    requires Sound(m)
    ensures Sound(Run(m, events))
    decreases events
  {
    if events != [] {
      NextIsSound(m, events[0]);
      AnyRunIsSound(Next(m, events[0]), events[1..]);
    }
  }

  /** In any run at most one row is verified for a transaction, whatever the agreements. */
  lemma OneVerificationPerTransaction(events: seq<Event>, a: nat, b: nat)
    requires var t := Run(START, events).table; a in t && b in t && t[a].hash == t[b].hash
    requires var t := Run(START, events).table; t[a].status == Verified && t[b].status == Verified
    ensures a == b
  {
    AnyRunIsSound(START, events);
  }

  /** No step of the run is a late claim of row `id`. */
  ghost predicate NoLateClaims(m: System, events: seq<Event>, id: nat)
    decreases events
  {
    events != [] ==> !LateClaim(m, events[0], id) && NoLateClaims(Next(m, events[0]), events[1..], id)
  }

  ghost predicate Inv(m: System, id: nat) {
    Sound(m) && Exclusive(m, id) && AllSettled(m, id)
  }

  lemma NextKeepsInv(m: System, event: Event, id: nat)
    requires Inv(m, id) && !LateClaim(m, event, id)
    ensures Inv(Next(m, event), id) && KeepsVerified(m.table, Next(m, event).table, id)
  {
    LateClaimsOvertake(m, event, id);
    NextIsSound(m, event);
    NextIsExclusive(m, event, id);
    NextIsSettled(m, event, id);
    NextKeepsVerified(m, event, id);
  }

  lemma {:induction false} RunKeepsInv(m: System, events: seq<Event>, id: nat)
    requires Inv(m, id) && NoLateClaims(m, events, id)
    ensures Inv(Run(m, events), id)
    ensures KeepsVerified(m.table, Run(m, events).table, id)
    decreases events
  {
    if events != [] {
      NextKeepsInv(m, events[0], id);
      RunKeepsInv(Next(m, events[0]), events[1..], id);
    }
  }

  /** The first late claim of a run is granted row `id` while `b` is still at work on it. */
  lemma {:induction false} FirstLateClaim(m: System, events: seq<Event>, id: nat) returns (k: nat, b: nat)
    requires Inv(m, id) && !NoLateClaims(m, events, id)
    ensures k < |events| && IsOvertakenAt(m, events, id, k, b)
    decreases events
  {
    if LateClaim(m, events[0], id) {
      k := 0;
      LateClaimsOvertake(m, events[0], id);
      b :| b < |m.attempts| && Holds(m, b, id);
      OvertakingIsLate(m, events[0], id, b);
      assert events[..0] == [];
    } else {
      NextKeepsInv(m, events[0], id);
      k, b := FirstLateClaim(Next(m, events[0]), events[1..], id);
      k := k + 1;
      assert events[..k][1..] == events[1..][..k - 1];
    }
  }

  /** Step `k` grants row `id` on a claim stamped more than five minutes after that of `b`, which is still at work. */
  ghost predicate IsOvertakenAt(m: System, events: seq<Event>, id: nat, k: nat, b: nat)
    requires k < |events|
  {
    var n := Run(m, events[..k]);
    Claims(n, events[k], id) && Precedes(n, b, events[k].a, id)
  }

  lemma {:induction false} PrefixIsNotLate(m: System, events: seq<Event>, id: nat, k: nat)
    requires k <= |events| && NoLateClaims(m, events, id)
    ensures NoLateClaims(m, events[..k], id)
    decreases k
  {
    var prefix := events[..k];
    if k > 0 {
      var rest := events[1..];
      assert prefix[0] == events[0] && prefix[1..] == rest[..k - 1];
      PrefixIsNotLate(Next(m, events[0]), rest, id, k - 1);
    }
  }

  lemma {:induction false} SuffixIsNotLate(m: System, events: seq<Event>, id: nat, k: nat)
    requires k <= |events| && NoLateClaims(m, events, id)
    ensures NoLateClaims(Run(m, events[..k]), events[k..], id)
    decreases k
  {
    var prefix, suffix := events[..k], events[k..];
    if k == 0 {
      assert prefix == [] && suffix == events;
    } else {
      var rest := events[1..];
      assert prefix[0] == events[0] && prefix[1..] == rest[..k - 1] && rest[k - 1..] == suffix;
      SuffixIsNotLate(Next(m, events[0]), rest, id, k - 1);
    }
  }

  /**
   * Lease exclusivity, exactly and row by row: a row has at most one holder throughout a run if and only if no claim
   * of it is sent with a stamp more than five minutes after that of an attempt still at work on it.
   */
  lemma LeaseIsExclusive(events: seq<Event>, id: nat)
    ensures (forall k | 0 <= k <= |events| :: OneHolder(Run(START, events[..k]), id))
            <==> NoLateClaims(START, events, id)
  {
    if NoLateClaims(START, events, id) {
      forall k | 0 <= k <= |events| ensures OneHolder(Run(START, events[..k]), id) {
        PrefixIsNotLate(START, events, id, k);
        RunKeepsInv(START, events[..k], id);
      }
    } else {
      var k, b := FirstLateClaim(START, events, id);
      OvertakenIsShared(Run(START, events[..k]), events[k], id);
      RunOneMore(START, events, k);
    }
  }

  lemma {:induction false} RunOneMore(m: System, events: seq<Event>, k: nat)
    requires k < |events|
    ensures Run(m, events[..k + 1]) == Next(Run(m, events[..k]), events[k])
    decreases k
  {
    var one, next := events[..k], events[..k + 1];
    if k == 0 {
      assert one == [] && next[0] == events[0] && next[1..] == [];
    } else {
      var rest := events[1..];
      assert one[0] == next[0] == events[0] && one[1..] == rest[..k - 1] && next[1..] == rest[..k];
      RunOneMore(Next(m, events[0]), rest, k - 1);
    }
  }

  /** Whoever is at work on row `id` has claimed it less than five minutes ago, or exactly as long. */
  ghost predicate Timely(m: System, id: nat) {
    forall a | 0 <= a < |m.attempts| && Holds(m, a, id) :: m.now - m.attempts[a].phase.at <= TIMEOUT
  }

  ghost predicate TimelyRun(m: System, events: seq<Event>, id: nat)
    decreases events
  {
    Timely(m, id) && (events != [] ==> TimelyRun(Next(m, events[0]), events[1..], id))
  }

  /** Attempts on a row that end before it becomes reclaimable meet no late claim, whatever those on other rows do. */
  lemma {:induction false} TimelyIsEnough(m: System, events: seq<Event>, id: nat)
    requires Sound(m) && TimelyRun(m, events, id)
    ensures NoLateClaims(m, events, id)
    decreases events
  {
    if events != [] {
      NextIsSound(m, events[0]);
      TimelyIsEnough(Next(m, events[0]), events[1..], id);
    }
  }

  /**
   * In any run a verified row is final, unless at some step of it a claim of that row, stamped more than five
   * minutes after the claim of an attempt still at work on it, was granted.
   */
  lemma VerifiedChangesOnlyWhenOvertaken(events: seq<Event>, i: nat, id: nat) returns (k: nat, b: nat)
    requires i <= |events|
    requires id in Run(START, events[..i]).table && Run(START, events[..i]).table[id].status == Verified
    ensures || KeepsVerified(Run(START, events[..i]).table, Run(START, events).table, id)
            || (k < |events| && IsOvertakenAt(START, events, id, k, b))
  {
    k, b := 0, 0;
    if NoLateClaims(START, events, id) {
      PrefixIsNotLate(START, events, id, i);
      SuffixIsNotLate(START, events, id, i);
      RunKeepsInv(START, events[..i], id);
      RunKeepsInv(Run(START, events[..i]), events[i..], id);
      RunInTwo(START, events, i);
    } else {
      k, b := FirstLateClaim(START, events, id);
    }
  }

  /** The other way round: two attempts at work on one row can verify it and then undo the verification. */
  lemma SharedRowCanBeOverwritten(m: System, a: nat, b: nat, id: nat, proof: Verdict, failure: Verdict)
    returns (verified: seq<Event>, overwritten: seq<Event>)
    requires Holds(m, a, id) && Holds(m, b, id) && a != b
    requires m.attempts[a].phase.Working? && m.attempts[b].phase.Working?
    requires id in m.table && !Taken(m.table, id) && proof.Proven? && failure.NotProven?
    ensures id in Run(m, verified).table && Run(m, verified).table[id].status == Verified
    ensures var after := Run(Run(m, verified), overwritten).table; id in after && after[id].status == Failed
  {
    verified, overwritten := [Decide(b, proof), Write(b)], [Decide(a, failure), Write(a)];
    RunTwo(m, Decide(b, proof), Write(b));
    var n := Run(m, verified);
    assert n.attempts[a] == m.attempts[a];
    RunTwo(n, Decide(a, failure), Write(a));
  }

  lemma RunTwo(m: System, first: Event, second: Event)
    ensures Run(m, [first, second]) == Next(Next(m, first), second)
  {
    assert [first, second][1..] == [second] && [second][1..] == [];
    assert Run(Next(m, first), [second]) == Run(Next(Next(m, first), second), []);
  }

  lemma RunFirst(m: System, event: Event, rest: seq<Event>)
    ensures Run(m, [event] + rest) == Run(Next(m, event), rest)
  {
    assert ([event] + rest)[1..] == rest;
  }

  /** An attempt up to its claim. */
  function Attempting(a: nat, agreement: nat, submitter: nat, hash: Words, rest: seq<Event>): seq<Event> {
    [Enter(agreement, submitter, hash)] + ([Look(a)] + ([Stamp(a)] + ([Claim(a)] + rest)))
  }

  lemma AttemptClaims(m: System, agreement: nat, submitter: nat, hash: Words, rest: seq<Event>)
    requires forall k <- m.table :: m.table[k].status != Verified
    ensures var a := |m.attempts|;
            var sending := m.(attempts := m.attempts + [Attempt(agreement, submitter, hash, Sending(m.now))]);
            Run(m, Attempting(a, agreement, submitter, hash, rest)) == Run(Acquire(sending, a, m.now), rest)
  {
    var a := |m.attempts|;
    var m1 := Next(m, Enter(agreement, submitter, hash));
    var m2, sending := To(m1, a, Chosen), To(m1, a, Sending(m.now));
    RunFirst(m, Enter(agreement, submitter, hash), [Look(a)] + ([Stamp(a)] + ([Claim(a)] + rest)));
    RunFirst(m1, Look(a), [Stamp(a)] + ([Claim(a)] + rest));
    assert SqlFind(m.table, hash) == Found(None);
    assert Next(m1, Look(a)) == m2;
    RunFirst(m2, Stamp(a), [Claim(a)] + rest);
    assert Next(m2, Stamp(a)) == sending;
    RunFirst(sending, Claim(a), rest);
    assert sending.attempts == m.attempts + [Attempt(agreement, submitter, hash, Sending(m.now))];
  }

  /** Two calls for one transaction, more than five minutes apart, are enough to share a row. */
  lemma SharingIsReachable(agreement: nat, submitter: nat, hash: Words) returns (events: seq<Event>)
    ensures var m := Run(START, events);
            && Holds(m, 0, 0) && Holds(m, 1, 0) && m.attempts[0].phase.Working? && m.attempts[1].phase.Working?
            && 0 in m.table && !Taken(m.table, 0)
  {
    var second := Attempting(1, agreement, submitter, hash, []);
    var late := [Tick(TIMEOUT + 1)] + second;
    events := Attempting(0, agreement, submitter, hash, late);
    AttemptClaims(START, agreement, submitter, hash, late);
    var row := LeaseStore.Fresh(0, agreement, submitter, hash, 0, 0);
    var claimed := System(map[0 := row], [Attempt(agreement, submitter, hash, Working(0, 0))], 0);
    var sending := START.(attempts := START.attempts + [Attempt(agreement, submitter, hash, Sending(0))]);
    assert Acquire(sending, 0, 0) == claimed;
    var waited := claimed.(now := TIMEOUT + 1);
    RunFirst(claimed, Tick(TIMEOUT + 1), second);
    AttemptClaims(waited, agreement, submitter, hash, []);
    assert LeaseStore.Holds(waited.table, 0, agreement, hash);
    assert Conflict(waited.table, agreement, hash) == Some(0);
  }

  /**
   * Two agreements, one transaction, both proven, no late claim of either row: at most one attempt ends verified, and
   * then the other ends failed with `REPLAY_DETECTED`.
   */
  lemma CrossAgreementLoser(events: seq<Event>, a: nat, b: nat)
    requires var m := Run(START, events);
             && a < |m.attempts| && b < |m.attempts|
             && m.attempts[a].hash == m.attempts[b].hash && m.attempts[a].agreement != m.attempts[b].agreement
             && m.attempts[a].phase.Done? && m.attempts[a].phase.proven
             && m.attempts[b].phase.Done? && m.attempts[b].phase.proven
             && NoLateClaims(START, events, m.attempts[a].phase.row.id)
             && NoLateClaims(START, events, m.attempts[b].phase.row.id)
    ensures var m := Run(START, events);
            var won, lost := m.attempts[a].phase.row, m.attempts[b].phase.row;
            && (won.status == Verified ==> lost.status == Failed && lost.code == Some(REPLAY_CODE))
            && (won.status == Verified || (won.status == Failed && won.code == Some(REPLAY_CODE)))
  {
    var m := Run(START, events);
    var i, j := m.attempts[a].phase.row.id, m.attempts[b].phase.row.id;
    RunKeepsInv(START, events, i);
    RunKeepsInv(START, events, j);
    assert Settled(m, a, i) && Settled(m, b, j);
  }
}
