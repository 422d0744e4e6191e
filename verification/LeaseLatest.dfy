/** `latestVerification` of the two stores. */
module LeaseLatest {
  import opened Digests
  import opened Numerals
  import opened Sorting
  import opened LeaseStore
  import opened LeaseRefinement

  /** No row of the agreement was submitted after row `i`, which is one of them. */
  predicate LastSubmitted(rows: seq<Row>, i: nat, agreement: nat)
    requires i < |rows|
  {
    rows[i].agreement == agreement && NoneAfter(rows, agreement, rows[i].submittedAt)
  }

  predicate NoneAfter(rows: seq<Row>, agreement: nat, time: int) {
    forall j | 0 <= j < |rows| && rows[j].agreement == agreement :: rows[j].submittedAt <= time
  }

  /** The first of them in insertion order. */
  predicate FirstOfLast(rows: seq<Row>, i: nat, agreement: nat)
    requires i < |rows|
  {
    LastSubmitted(rows, i, agreement) && forall k | 0 <= k < i :: !LastSubmitted(rows, k, agreement)
  }

  /** The one among them with the least id. */
  predicate LeastOfLast(rows: seq<Row>, i: nat, agreement: nat)
    requires i < |rows|
  {
    && LastSubmitted(rows, i, agreement)
    && forall k | 0 <= k < |rows| && LastSubmitted(rows, k, agreement) :: rows[i].id <= rows[k].id
  }

  /** Of rows submitted last, at the same time, the one inserted first has the least id. */
  predicate TiesInsertedById(rows: seq<Row>, agreement: nat) {
    forall i | 0 <= i < |rows| && FirstOfLast(rows, i, agreement) :: LeastOfLast(rows, i, agreement)
  }

  /*** The map ***/

  lemma {:induction false} FilterIndex(rows: seq<Row>, agreement: nat, i: nat) returns (n: nat)
    requires i < |Filter(IsOf(agreement), rows)|
    ensures n < |rows| && rows[n] == Filter(IsOf(agreement), rows)[i]
    ensures forall j | 0 <= j < n && rows[j].agreement == agreement :: rows[j] in Filter(IsOf(agreement), rows)[..i]
  {
    var rest := rows[1..];
    assert forall j | 1 <= j < |rows| :: rows[j] == rest[j - 1];
    if rows[0].agreement != agreement {
      n := FilterIndex(rest, agreement, i);
      n := n + 1;
    } else if i == 0 {
      n := 0;
    } else {
      var own, tail := Filter(IsOf(agreement), rows), Filter(IsOf(agreement), rest);
      assert own == [rows[0]] + tail && own[..i] == [rows[0]] + tail[..i - 1];
      n := FilterIndex(rest, agreement, i - 1);
      n := n + 1;
    }
  }

  lemma LaterFirstIsStrict()
    ensures StrictTotal(LaterFirst())
  {}

  /** The head of the sorted selection, by its place in the selection. */
  lemma MemoryHead(rows: seq<Row>, agreement: nat) returns (k: nat)
    requires Filter(IsOf(agreement), rows) != []
    ensures var own := Filter(IsOf(agreement), rows);
            && k < |own| && MemoryLatest(rows, agreement) == Found(Some(own[k]))
            && (forall l | 0 <= l < |own| :: own[l].submittedAt <= own[k].submittedAt)
            && (forall l | 0 <= l < k :: own[l].submittedAt < own[k].submittedAt)
  {
    var own := Filter(IsOf(agreement), rows);
    LaterFirstIsStrict();
    k := SortHead(own, Submitted, LaterFirst());
    forall l | 0 <= l < |own| ensures own[l].submittedAt <= own[k].submittedAt {
      assert !LaterFirst()(Submitted(own[l]), Submitted(own[k]));
    }
    forall l | 0 <= l < k ensures own[l].submittedAt < own[k].submittedAt {
      assert LaterFirst()(Submitted(own[k]), Submitted(own[l]));
    }
  }

  /** The map answers with the first row inserted of those submitted last. */
  lemma MemoryLatestIsFirst(rows: seq<Row>, agreement: nat) returns (n: nat)
    requires Filter(IsOf(agreement), rows) != []
    ensures n < |rows| && MemoryLatest(rows, agreement) == Found(Some(rows[n])) && FirstOfLast(rows, n, agreement)
  {
    var own := Filter(IsOf(agreement), rows);
    var k := MemoryHead(rows, agreement);
    n := FilterIndex(rows, agreement, k);
    assert IsOf(agreement)(own[k]) by { assert own[k] in own; }
    forall j | 0 <= j < |rows| && rows[j].agreement == agreement ensures rows[j].submittedAt <= rows[n].submittedAt {
      assert IsOf(agreement)(rows[j]) && rows[j] in own;
    }
    forall j | 0 <= j < n ensures !LastSubmitted(rows, j, agreement) {
      if rows[j].agreement == agreement {
        assert rows[j] in own[..k];
        assert rows[j].submittedAt < rows[n].submittedAt;
      }
    }
  }

  /*** The table ***/

  lemma {:induction false} LeastExists(rows: seq<Row>, agreement: nat, n: nat, limit: nat) returns (m: nat)
    requires n < |rows| && LastSubmitted(rows, n, agreement) && limit <= |rows|
    ensures m < |rows| && LastSubmitted(rows, m, agreement) && rows[m].id <= rows[n].id
    ensures forall k | 0 <= k < limit && LastSubmitted(rows, k, agreement) :: rows[m].id <= rows[k].id
    decreases limit
  {
    m := n;
    if limit > 0 {
      m := LeastExists(rows, agreement, n, limit - 1);
      if LastSubmitted(rows, limit - 1, agreement) && rows[limit - 1].id < rows[m].id { m := limit - 1; }
    }
  }

  /** The table answers with the row of least id among those submitted last. */
  lemma SqlLatestIsLeast(rows: seq<Row>, t: Table, agreement: nat, m: nat)
    requires Same(rows, t) && Constraints(t) && m < |rows| && LeastOfLast(rows, m, agreement)
    ensures SqlLatest(t, agreement) == Found(Some(rows[m]))
  {
    forall k | k in t && t[k].agreement == agreement
      ensures t[k].submittedAt < rows[m].submittedAt || (t[k].submittedAt == rows[m].submittedAt && rows[m].id <= k) {
      SameAt(rows, t, k);
      var j := First(rows, HasId(k)).value;
      assert rows[j] == Exposed(t[k]);
      if rows[j].submittedAt >= rows[m].submittedAt { assert LastSubmitted(rows, j, agreement); }
    }
    assert rows[m] == Exposed(t[rows[m].id]);
    assert IsLatest(t, rows[m].id, agreement);
  }

  lemma NoRowsNoLatest(rows: seq<Row>, t: Table, agreement: nat)
    requires Same(rows, t) && Constraints(t) && Filter(IsOf(agreement), rows) == []
    ensures SqlLatest(t, agreement) == Found(None)
    ensures forall i | 0 <= i < |rows| :: rows[i].agreement != agreement
  {
    forall i | 0 <= i < |rows| ensures rows[i].agreement != agreement {
      assert rows[i] in rows && !IsOf(agreement)(rows[i]);
    }
    forall id | id in t ensures t[id].agreement != agreement {
      SameAt(rows, t, id);
    }
  }

  /** On equal stores both name the same latest row exactly when ties in submission time were inserted by id. */
  lemma LatestAgreesExactly(rows: seq<Row>, t: Table, agreement: nat)
    requires Same(rows, t) && Constraints(t)
    ensures MemoryLatest(rows, agreement) == SqlLatest(t, agreement) <==> TiesInsertedById(rows, agreement)
  {
    if Filter(IsOf(agreement), rows) == [] {
      NoRowsNoLatest(rows, t, agreement);
      assert Sort(Filter(IsOf(agreement), rows), Submitted, LaterFirst()) == [];
    } else {
      var n := MemoryLatestIsFirst(rows, agreement);
      var m := LeastExists(rows, agreement, n, |rows|);
      SqlLatestIsLeast(rows, t, agreement, m);
      OnlyFirst(rows, agreement, n);
      assert rows[n] == rows[m] <==> LeastOfLast(rows, n, agreement);
    }
  }

  lemma OnlyFirst(rows: seq<Row>, agreement: nat, n: nat)
    requires n < |rows| && FirstOfLast(rows, n, agreement)
    ensures TiesInsertedById(rows, agreement) <==> LeastOfLast(rows, n, agreement)
  {
    forall i: nat | i < |rows| && FirstOfLast(rows, i, agreement) ensures i == n {}
  }

  /** In particular whenever no two rows of the agreement were submitted at the same time. */
  lemma DistinctTimesAgree(rows: seq<Row>, t: Table, agreement: nat)
    requires Same(rows, t) && Constraints(t)
    requires forall i, j | 0 <= i < j < |rows| && rows[i].agreement == agreement && rows[j].agreement == agreement ::
               rows[i].submittedAt != rows[j].submittedAt
    ensures MemoryLatest(rows, agreement) == SqlLatest(t, agreement)
  {
    LatestAgreesExactly(rows, t, agreement);
    forall i: nat | i < |rows| && FirstOfLast(rows, i, agreement) ensures LeastOfLast(rows, i, agreement) {
      forall k: nat | k < |rows| && LastSubmitted(rows, k, agreement) ensures rows[i].id <= rows[k].id {
        assert rows[k].submittedAt == rows[i].submittedAt;
      }
    }
  }
}
