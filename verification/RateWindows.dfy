/** When a request is refused: the windows of a history of requests, and what each has admitted. */
module RateWindows {
  import opened Sorting
  import opened RateLimiter

  /** Whether request `i` of a history was admitted. */
  function Admits(c: Config, rs: seq<Request>, i: nat): bool
    requires i < |rs|
  {
    Allow(c, After(c, [], rs[..i]), rs[i]).1
  }

  function Init<T>(s: seq<T>): seq<T>
    requires s != []
  {
    s[..|s| - 1]
  }

  function Last<T>(s: seq<T>): T
    requires s != []
  {
    s[|s| - 1]
  }

  /** How many requests of its key were admitted from request `o` on. */
  function AdmittedSince(c: Config, rs: seq<Request>, o: nat): nat
    requires o < |rs|
    decreases |rs|
  {
    (if o < |rs| - 1 then AdmittedSince(c, Init(rs), o) else 0)
    + (if Last(rs).key == rs[o].key && Admits(c, rs, |rs| - 1) then 1 else 0)
  }

  /** How many requests of its key were made from request `o` on. */
  function RequestedSince(rs: seq<Request>, o: nat): nat
    requires o < |rs|
    decreases |rs|
  {
    (if o < |rs| - 1 then RequestedSince(Init(rs), o) else 0) + (if Last(rs).key == rs[o].key then 1 else 0)
  }

  /*** Windows, named by the request that opened them ***/

  function KeyOf(rs: seq<Request>, o: nat): string {
    if o < |rs| then rs[o].key else ""
  }

  function EndOf(c: Config, rs: seq<Request>, o: nat): int {
    if o < |rs| then rs[o].createAt + c.windowMs else 0
  }

  predicate Bounded(ws: seq<nat>, n: nat) {
    forall i | 0 <= i < |ws| :: ws[i] < n
  }

  /** The windows that have not ended. */
  function Open(c: Config, rs: seq<Request>, ws: seq<nat>, now: int): (open: seq<nat>)
    ensures forall n :: Bounded(ws, n) ==> Bounded(open, n)
    ensures forall i | 0 <= i < |open| :: EndOf(c, rs, open[i]) > now
  {
    if ws == [] then []
    else
      var rest := Open(c, rs, ws[1..], now);
      assert forall n :: Bounded(ws, n) ==> ws[0] < n && Bounded(ws[1..], n);
      if EndOf(c, rs, ws[0]) > now then [ws[0]] + rest else rest
  }

  predicate HasWindow(rs: seq<Request>, ws: seq<nat>, key: string) {
    exists i | 0 <= i < |ws| :: KeyOf(rs, ws[i]) == key
  }

  /** The last request opens a window if its key has none open; when all keys allowed have one, the oldest gives way. */
  function Opened(c: Config, rs: seq<Request>, open: seq<nat>): (ws: seq<nat>)
    requires rs != [] && Bounded(open, |rs| - 1)
    ensures Bounded(ws, |rs|)
  {
    if HasWindow(Init(rs), open, Last(rs).key) then open
    else (if |open| >= c.maxKeys && open != [] then open[1..] else open) + [|rs| - 1]
  }

  /** The windows of a history, the oldest first. */
  function Windows(c: Config, rs: seq<Request>): (ws: seq<nat>)
    ensures Bounded(ws, |rs|)
    decreases |rs|
  {
    if rs == [] then []
    else
      var before := Open(c, Init(rs), Windows(c, Init(rs)), Last(rs).pruneAt);
      assert Bounded(before, |rs| - 1);
      Opened(c, rs, before)
  }

  predicate OneWindowEach(rs: seq<Request>, ws: seq<nat>) {
    forall i, j | 0 <= i < j < |ws| :: KeyOf(rs, ws[i]) != KeyOf(rs, ws[j])
  }

  lemma {:induction false} OpenIsWithin(c: Config, rs: seq<Request>, ws: seq<nat>, now: int, i: nat) returns (k: nat)
    requires i < |Open(c, rs, ws, now)|
    ensures i <= k < |ws| && ws[k] == Open(c, rs, ws, now)[i]
  {
    if EndOf(c, rs, ws[0]) > now {
      if i == 0 { k := 0; } else { k := OpenIsWithin(c, rs, ws[1..], now, i - 1); k := k + 1; }
    } else {
      k := OpenIsWithin(c, rs, ws[1..], now, i);
      k := k + 1;
    }
  }

  lemma {:induction false} OpenKeepsDistinct(c: Config, rs: seq<Request>, ws: seq<nat>, now: int)
    requires OneWindowEach(rs, ws)
    ensures OneWindowEach(rs, Open(c, rs, ws, now))
  {
    if ws != [] {
      var rest := Open(c, rs, ws[1..], now);
      OpenKeepsDistinct(c, rs, ws[1..], now);
      forall i | 0 <= i < |rest| ensures KeyOf(rs, rest[i]) != KeyOf(rs, ws[0]) {
        var k := OpenIsWithin(c, rs, ws[1..], now, i);
        assert ws[k + 1] == rest[i];
      }
    }
  }

  lemma {:induction false} WindowsAreDistinct(c: Config, rs: seq<Request>)
    ensures OneWindowEach(rs, Windows(c, rs))
    decreases |rs|
  {
    if rs != [] {
      var init := Init(rs);
      WindowsAreDistinct(c, init);
      var before := Open(c, init, Windows(c, init), Last(rs).pruneAt);
      OpenKeepsDistinct(c, init, Windows(c, init), Last(rs).pruneAt);
      assert Bounded(before, |init|);
      NewWindowIsDistinct(rs, before);
    }
  }

  lemma NewWindowIsDistinct(rs: seq<Request>, before: seq<nat>)
    requires rs != [] && Bounded(before, |rs| - 1) && OneWindowEach(Init(rs), before)
    ensures OneWindowEach(rs, before)
    ensures !HasWindow(Init(rs), before, Last(rs).key) ==> OneWindowEach(rs, before + [|rs| - 1])
    ensures before != [] && !HasWindow(Init(rs), before, Last(rs).key) ==> OneWindowEach(rs, before[1..] + [|rs| - 1])
  {
    forall i | 0 <= i < |before| ensures KeyOf(rs, before[i]) == KeyOf(Init(rs), before[i]) {}
  }

  /*** The table holds exactly the windows ***/

  function EntryOf(c: Config, rs: seq<Request>): nat -> Entry {
    (o: nat) =>
      if o < |rs| then Entry(rs[o].key, AdmittedSince(c, rs, o), rs[o].createAt + c.windowMs)
      else Entry("", 0, 0)
  }

  lemma {:induction false} PruningCloses(c: Config, rs: seq<Request>, ws: seq<nat>, now: int)
    requires Bounded(ws, |rs|)
    ensures Pruned(Map(EntryOf(c, rs), ws), now) == Map(EntryOf(c, rs), Open(c, rs, ws, now))
  {
    if ws != [] {
      PruningCloses(c, rs, ws[1..], now);
      MapTail(ws, EntryOf(c, rs));
      var rest := Open(c, rs, ws[1..], now);
      assert Map(EntryOf(c, rs), [ws[0]] + rest) == [EntryOf(c, rs)(ws[0])] + Map(EntryOf(c, rs), rest);
    } else {
      assert Map(EntryOf(c, rs), ws) == [];
    }
  }

  lemma {:induction false} AfterLast(c: Config, entries: seq<Entry>, rs: seq<Request>)
    requires rs != []
    ensures After(c, entries, rs) == Allow(c, After(c, entries, Init(rs)), Last(rs)).0
    decreases rs
  {
    if |rs| > 1 {
      AfterLast(c, Allow(c, entries, rs[0]).0, rs[1..]);
      assert Init(rs)[1..] == Init(rs[1..]) && Last(rs[1..]) == Last(rs);
    } else {
      assert rs[1..] == [] && Init(rs) == [];
    }
  }

  lemma CountsOn(c: Config, rs: seq<Request>, o: nat)
    requires rs != [] && o < |rs| - 1
    ensures AdmittedSince(c, rs, o)
            == AdmittedSince(c, Init(rs), o) + (if Last(rs).key == rs[o].key && Admits(c, rs, |rs| - 1) then 1 else 0)
  {}

  /** After any history the table has one entry for each window, counting what it has admitted. */
  lemma {:induction false} TableIsWindows(c: Config, rs: seq<Request>)
    ensures After(c, [], rs) == Map(EntryOf(c, rs), Windows(c, rs))
    decreases |rs|
  {
    if rs == [] {
      assert Map(EntryOf(c, rs), Windows(c, rs)) == [];
    } else {
      var init, r := Init(rs), Last(rs);
      var ws := Windows(c, init);
      TableIsWindows(c, init);
      AfterLast(c, [], rs);
      PruningCloses(c, init, ws, r.pruneAt);
      WindowsAreDistinct(c, init);
      OpenKeepsDistinct(c, init, ws, r.pruneAt);
      assert Bounded(Open(c, init, ws, r.pruneAt), |init|);
      StepIsWindows(c, rs, Open(c, init, ws, r.pruneAt), After(c, [], init));
    }
  }

  /** One request, on a table of open windows. */
  lemma StepIsWindows(c: Config, rs: seq<Request>, before: seq<nat>, entries: seq<Entry>)
    requires rs != [] && Bounded(before, |rs| - 1) && OneWindowEach(Init(rs), before)
    requires Pruned(entries, Last(rs).pruneAt) == Map(EntryOf(c, Init(rs)), before)
    requires Admits(c, rs, |rs| - 1) == Allow(c, entries, Last(rs)).1
    ensures Allow(c, entries, Last(rs)).0 == Map(EntryOf(c, rs), Opened(c, rs, before))
  {
    var live := Map(EntryOf(c, Init(rs)), before);
    EntriesMove(c, rs, before, Find(live, Last(rs).key));
    WindowIsFound(c, Init(rs), before, Last(rs).key);
    if Find(live, Last(rs).key) == |live| {
      CreationOpens(c, rs, before, |rs| - 1);
    }
  }

  /** A new entry is that of the new window. */
  lemma CreationOpens(c: Config, rs: seq<Request>, before: seq<nat>, n: nat)
    requires rs != [] && n == |rs| - 1 && Bounded(before, n) && Admits(c, rs, n)
    ensures var kept := if |before| >= c.maxKeys && before != [] then before[1..] else before;
            Created(c, Map(EntryOf(c, rs), before), Last(rs)) == Map(EntryOf(c, rs), kept + [n])
  {
    assert EntryOf(c, rs)(n) == Entry(Last(rs).key, 1, Last(rs).createAt + c.windowMs);
  }

  /** The entry found for a key is that of its window. */
  lemma WindowIsFound(c: Config, rs: seq<Request>, ws: seq<nat>, key: string)
    requires Bounded(ws, |rs|)
    ensures var k := Find(Map(EntryOf(c, rs), ws), key);
            && (k < |ws| <==> HasWindow(rs, ws, key)) && (k < |ws| ==> rs[ws[k]].key == key)
  {
    var live := Map(EntryOf(c, rs), ws);
    forall i | 0 <= i < |ws| ensures live[i].key == KeyOf(rs, ws[i]) {}
  }

  /** One more request changes the entry of its own window at most. */
  lemma EntriesMove(c: Config, rs: seq<Request>, before: seq<nat>, k: nat)
    requires rs != [] && Bounded(before, |rs| - 1) && OneWindowEach(Init(rs), before)
    requires k == Find(Map(EntryOf(c, Init(rs)), before), Last(rs).key)
    ensures var live, admitted := Map(EntryOf(c, Init(rs)), before), Admits(c, rs, |rs| - 1);
            Map(EntryOf(c, rs), before)
            == if k < |live| && admitted then live[k := live[k].(count := live[k].count + 1)] else live
  {
    var init, live := Init(rs), Map(EntryOf(c, Init(rs)), before);
    var moved := Map(EntryOf(c, rs), before);
    var admitted := Admits(c, rs, |rs| - 1);
    WindowIsFound(c, init, before, Last(rs).key);
    forall i | 0 <= i < |before|
      ensures moved[i] == if admitted && i == k then live[i].(count := live[i].count + 1) else live[i] {
      CountsOn(c, rs, before[i]);
      assert KeyOf(init, before[i]) == rs[before[i]].key;
      if k < |live| && i != k { assert KeyOf(init, before[i]) != KeyOf(init, before[k]); }
    }
  }

  /**
   * A request is refused exactly when its key's window, opened by an earlier request and neither ended nor evicted
   * since, has already admitted as many requests as the limit allows.
   */
  lemma RefusalIsExact(c: Config, rs: seq<Request>, r: Request)
    ensures !Allow(c, After(c, [], rs), r).1 <==>
              exists i :: FullWindow(c, rs, Open(c, rs, Windows(c, rs), r.pruneAt), i, r.key)
  {
    var ws := Windows(c, rs);
    var open := Open(c, rs, ws, r.pruneAt);
    TableIsWindows(c, rs);
    PruningCloses(c, rs, ws, r.pruneAt);
    WindowsAreDistinct(c, rs);
    OpenKeepsDistinct(c, rs, ws, r.pruneAt);
    assert Bounded(open, |rs|);
    WindowIsFound(c, rs, open, r.key);
    OnlyWindow(c, rs, open, r.key);
  }

  lemma OnlyWindow(c: Config, rs: seq<Request>, open: seq<nat>, key: string)
    requires Bounded(open, |rs|) && OneWindowEach(rs, open)
    ensures var live := Map(EntryOf(c, rs), open);
            var k := Find(live, key);
            (k < |live| && live[k].count >= c.limit) <==> exists i :: FullWindow(c, rs, open, i, key)
  {
    var live := Map(EntryOf(c, rs), open);
    var k := Find(live, key);
    WindowIsFound(c, rs, open, key);
    if k < |live| && live[k].count >= c.limit { assert FullWindow(c, rs, open, k, key); }
    forall i: nat | FullWindow(c, rs, open, i, key) ensures i == k {
      assert KeyOf(rs, open[i]) == key;
      assert HasWindow(rs, open, key);
      assert KeyOf(rs, open[k]) == key;
    }
  }

  /** Window `i` is the key's, and has admitted `limit` requests. */
  predicate FullWindow(c: Config, rs: seq<Request>, ws: seq<nat>, i: nat, key: string) {
    i < |ws| && ws[i] < |rs| && rs[ws[i]].key == key && AdmittedSince(c, rs, ws[i]) >= c.limit
  }

  lemma {:induction false} AdmittedWereRequested(c: Config, rs: seq<Request>, o: nat)
    requires o < |rs|
    ensures AdmittedSince(c, rs, o) <= RequestedSince(rs, o)
    decreases |rs|
  {
    if o < |rs| - 1 { AdmittedWereRequested(c, Init(rs), o); }
  }

  /** So a key without an open window is admitted, and then again until its window has seen `limit` requests. */
  lemma FirstRequestsAreAdmitted(c: Config, rs: seq<Request>, r: Request)
    requires var open := Open(c, rs, Windows(c, rs), r.pruneAt);
             forall i | 0 <= i < |open| && open[i] < |rs| && rs[open[i]].key == r.key ::
               RequestedSince(rs, open[i]) < c.limit
    ensures Allow(c, After(c, [], rs), r).1
  {
    var open := Open(c, rs, Windows(c, rs), r.pruneAt);
    RefusalIsExact(c, rs, r);
    forall i: nat | i < |open| && open[i] < |rs| && rs[open[i]].key == r.key
      ensures AdmittedSince(c, rs, open[i]) < c.limit {
      AdmittedWereRequested(c, rs, open[i]);
    }
  }
}
