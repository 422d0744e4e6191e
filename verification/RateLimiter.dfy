/** `InMemoryRateLimiter`, `backend/src/agreements/agreement-http.ts`. */
module RateLimiter {

  datatype Entry = Entry(key: string, count: nat, resetAt: int)

  datatype Config = Config(limit: nat, windowMs: nat, maxKeys: nat)

  /** One call; the clock is read when pruning and again when an entry is created. */
  datatype Request = Request(key: string, pruneAt: int, createAt: int)

  /*** The table as a function of its history ***/

  /** Insertion order without the expired entries. */
  function Pruned(entries: seq<Entry>, now: int): seq<Entry> {
    if entries == [] then []
    else if entries[0].resetAt <= now then Pruned(entries[1..], now)
    else [entries[0]] + Pruned(entries[1..], now)
  }

  function Find(entries: seq<Entry>, key: string): (k: nat)
    ensures k <= |entries|
    ensures k < |entries| ==> entries[k].key == key
    ensures forall i | 0 <= i < k :: entries[i].key != key
  {
    if entries == [] || entries[0].key == key then 0 else 1 + Find(entries[1..], key)
  }

  function Bumped(entries: seq<Entry>, k: nat): seq<Entry>
    requires k < |entries|
  {
    entries[k := entries[k].(count := entries[k].count + 1)]
  }

  /** A new entry at the end; a full table first gives up its oldest. */
  function Created(c: Config, entries: seq<Entry>, r: Request): seq<Entry> {
    var kept := if |entries| >= c.maxKeys && entries != [] then entries[1..] else entries;
    kept + [Entry(r.key, 1, r.createAt + c.windowMs)]
  }

  function Allow(c: Config, entries: seq<Entry>, r: Request): (seq<Entry>, bool) {
    var live := Pruned(entries, r.pruneAt);
    var k := Find(live, r.key);
    if k == |live| then (Created(c, live, r), true)
    else if live[k].count >= c.limit then (live, false)
    else (Bumped(live, k), true)
  }

  /*** The program ***/

  class InMemoryRateLimiter {
    const config: Config
    var entries: seq<Entry>

    constructor (config: Config)
      ensures this.config == config && entries == []
    {
      this.config := config;
      entries := [];
    }

    method TryRequest(r: Request) returns (allowed: bool)
      modifies this`entries
      ensures (entries, allowed) == Allow(config, old(entries), r)
    {
      Prune(r.pruneAt);
      var current := Get(r.key);
      if current == |entries| {
        if |entries| >= config.maxKeys && entries != [] { entries := entries[1..]; }
        entries := entries + [Entry(r.key, 1, r.createAt + config.windowMs)];
        return true;
      }
      if entries[current].count >= config.limit { return false; }
      entries := entries[current := entries[current].(count := entries[current].count + 1)];
      return true;
    }

    method Get(key: string) returns (k: nat)
      ensures k == Find(entries, key)
    {
      k := 0;
      while k < |entries| && entries[k].key != key
        invariant k <= |entries|
        invariant forall i | 0 <= i < k :: entries[i].key != key
      {
        k := k + 1;
      }
    }

    method Prune(now: int)
      modifies this`entries
      ensures entries == Pruned(old(entries), now)
    {
      var i := 0;
      while i < |entries|
        invariant i <= |entries|
        invariant entries[..i] + Pruned(entries[i..], now) == Pruned(old(entries), now)
        decreases |entries| - i
      {
        var first := entries[i];
        assert entries[i..][0] == first && entries[i..][1..] == entries[i + 1..];
        if first.resetAt <= now {
          var rest := entries[i + 1..];
          entries := entries[..i] + rest;
          assert entries[i..] == rest;
        } else {
          assert entries[..i + 1] == entries[..i] + [first];
          i := i + 1;
        }
      }
      assert entries[..i] == entries;
    }
  }

  /*** What every run keeps ***/

  /**
   * Never more than `maxKeys` entries, one per key, in the order in which they expire, none beyond a window
   * from `now`.
   */
  predicate Inv(c: Config, entries: seq<Entry>, now: int) {
    && |entries| <= c.maxKeys
    && (forall i, j | 0 <= i < j < |entries| ::
          entries[i].key != entries[j].key && entries[i].resetAt <= entries[j].resetAt)
    && (forall i | 0 <= i < |entries| :: 1 <= entries[i].count <= c.limit && entries[i].resetAt <= now + c.windowMs)
  }

  lemma {:induction false} LiveStays(entries: seq<Entry>, now: int)
    requires forall i | 0 <= i < |entries| :: entries[i].resetAt > now
    ensures Pruned(entries, now) == entries
  {
    if entries != [] { LiveStays(entries[1..], now); }
  }

  lemma {:induction false} PrunedIsSuffix(c: Config, entries: seq<Entry>, last: int, now: int) returns (n: nat)
    requires Inv(c, entries, last)
    ensures n <= |entries| && Pruned(entries, now) == entries[n..]
    ensures forall i | 0 <= i < n :: entries[i].resetAt <= now
    ensures forall i | n <= i < |entries| :: entries[i].resetAt > now
  {
    n := 0;
    if entries != [] && entries[0].resetAt <= now {
      var m := PrunedIsSuffix(c, entries[1..], last, now);
      n := m + 1;
      assert entries[1..][m..] == entries[n..];
      assert forall i | 1 <= i < |entries| :: entries[i] == entries[1..][i - 1];
    } else {
      LiveStays(entries, now);
    }
  }

  lemma CreatedKeepsInv(c: Config, live: seq<Entry>, last: int, r: Request)
    requires c.limit >= 1 && c.maxKeys >= 1 && Inv(c, live, last) && last <= r.createAt && Find(live, r.key) == |live|
    ensures Inv(c, Created(c, live, r), r.createAt)
  {}

  lemma BumpedKeepsInv(c: Config, live: seq<Entry>, last: int, k: nat, now: int)
    requires Inv(c, live, last) && last <= now && k < |live| && live[k].count < c.limit
    ensures Inv(c, Bumped(live, k), now)
  {}

  lemma AllowKeepsInv(c: Config, entries: seq<Entry>, last: int, r: Request)
    requires c.limit >= 1 && c.maxKeys >= 1 && Inv(c, entries, last) && last <= r.pruneAt <= r.createAt
    ensures Inv(c, Allow(c, entries, r).0, r.createAt)
  {
    var n := PrunedIsSuffix(c, entries, last, r.pruneAt);
    var live := entries[n..];
    assert Inv(c, live, last);
    var k := Find(live, r.key);
    if k == |live| { CreatedKeepsInv(c, live, last, r); }
    else if live[k].count < c.limit { BumpedKeepsInv(c, live, last, k, r.createAt); }
  }

  /** Runs on a clock that never goes back. */
  predicate Ordered(rs: seq<Request>, from: int)
    decreases rs
  {
    rs != [] ==> from <= rs[0].pruneAt <= rs[0].createAt && Ordered(rs[1..], rs[0].createAt)
  }

  function After(c: Config, entries: seq<Entry>, rs: seq<Request>): seq<Entry>
    decreases rs
  {
    if rs == [] then entries else After(c, Allow(c, entries, rs[0]).0, rs[1..])
  }

  lemma {:induction false} RunKeepsInv(c: Config, entries: seq<Entry>, rs: seq<Request>, last: int)
    requires c.limit >= 1 && c.maxKeys >= 1 && Inv(c, entries, last) && Ordered(rs, last)
    ensures Inv(c, After(c, entries, rs), if rs == [] then last else rs[|rs| - 1].createAt)
    decreases rs
  {
    if rs != [] {
      AllowKeepsInv(c, entries, last, rs[0]);
      RunKeepsInv(c, Allow(c, entries, rs[0]).0, rs[1..], rs[0].createAt);
    }
  }

  /** The entry evicted for a new key, if the call evicts one: it expires no later than any other. */
  function Evicted(c: Config, entries: seq<Entry>, r: Request): (e: seq<Entry>)
  {
    var live := Pruned(entries, r.pruneAt);
    if Find(live, r.key) == |live| && |live| >= c.maxKeys && live != [] then [live[0]] else []
  }

  lemma EvictedIsNearestExpiry(c: Config, entries: seq<Entry>, last: int, r: Request)
    requires Inv(c, entries, last)
    ensures forall e <- Evicted(c, entries, r) ::
              forall other <- Pruned(entries, r.pruneAt) :: e.resetAt <= other.resetAt
  {
    var n := PrunedIsSuffix(c, entries, last, r.pruneAt);
  }

  /*** How much one key gets ***/

  function Admitted(c: Config, entries: seq<Entry>, rs: seq<Request>, key: string): nat
    decreases rs
  {
    if rs == [] then 0
    else
      (if rs[0].key == key && Allow(c, entries, rs[0]).1 then 1 else 0)
      + Admitted(c, Allow(c, entries, rs[0]).0, rs[1..], key)
  }

  predicate NeverEvicted(c: Config, entries: seq<Entry>, rs: seq<Request>, key: string)
    decreases rs
  {
    rs != [] ==>
      && (forall e <- Evicted(c, entries, rs[0]) :: e.key != key)
      && NeverEvicted(c, Allow(c, entries, rs[0]).0, rs[1..], key)
  }

  /** What `key` may still get before `horizon`, when no window started from now on ends before it. */
  function Allowance(c: Config, entries: seq<Entry>, key: string, horizon: int): int {
    var k := Find(entries, key);
    if k == |entries| then c.limit
    else c.limit - entries[k].count + (if entries[k].resetAt < horizon then c.limit else 0)
  }

  /** Where an entry is after pruning. */
  lemma PrunedFinds(c: Config, entries: seq<Entry>, last: int, now: int, key: string)
    requires Inv(c, entries, last)
    ensures var live, k, l := Pruned(entries, now), Find(entries, key), Find(Pruned(entries, now), key);
            if k == |entries| || entries[k].resetAt <= now then l == |live| else l < |live| && live[l] == entries[k]
  {
    var n := PrunedIsSuffix(c, entries, last, now);
  }

  /** With one entry per key, an entry is found where it is. */
  lemma FindIs(entries: seq<Entry>, key: string, k: nat)
    requires forall i, j | 0 <= i < j < |entries| :: entries[i].key != entries[j].key
    requires k <= |entries|
    requires if k == |entries| then forall i | 0 <= i < k :: entries[i].key != key else entries[k].key == key
    ensures Find(entries, key) == k
  {}

  lemma CreatedFindsOwn(c: Config, live: seq<Entry>, last: int, r: Request)
    requires c.limit >= 1 && c.maxKeys >= 1 && Inv(c, live, last) && last <= r.createAt && Find(live, r.key) == |live|
    ensures var after := Created(c, live, r);
            Find(after, r.key) == |after| - 1 && after[|after| - 1] == Entry(r.key, 1, r.createAt + c.windowMs)
  {
    CreatedKeepsInv(c, live, last, r);
    FindIs(Created(c, live, r), r.key, |Created(c, live, r)| - 1);
  }

  lemma CreatedFindsOther(c: Config, live: seq<Entry>, last: int, r: Request, key: string)
    requires c.limit >= 1 && c.maxKeys >= 1 && Inv(c, live, last) && last <= r.createAt && Find(live, r.key) == |live|
    requires (|live| >= c.maxKeys && live != [] ==> live[0].key != key) && key != r.key
    ensures var after, k, l := Created(c, live, r), Find(live, key), Find(Created(c, live, r), key);
            if k == |live| then l == |after| else l < |after| && after[l] == live[k]
  {
    CreatedKeepsInv(c, live, last, r);
    var after := Created(c, live, r);
    var k, n := Find(live, key), |live| + 1 - |after|;
    assert forall i | 0 <= i < |after| - 1 :: after[i] == live[i + n];
    FindIs(after, key, if k == |live| then |after| else k - n);
  }

  lemma CreatedSpends(c: Config, live: seq<Entry>, last: int, r: Request, key: string, horizon: int)
    requires c.limit >= 1 && c.maxKeys >= 1 && Inv(c, live, last) && last <= r.createAt && Find(live, r.key) == |live|
    requires horizon <= r.createAt + c.windowMs
    requires |live| >= c.maxKeys && live != [] ==> live[0].key != key
    ensures (if r.key == key then 1 else 0) + Allowance(c, Created(c, live, r), key, horizon)
            <= Allowance(c, live, key, horizon)
  {
    if r.key == key { CreatedFindsOwn(c, live, last, r); } else { CreatedFindsOther(c, live, last, r, key); }
  }

  lemma BumpedSpends(c: Config, live: seq<Entry>, last: int, l: nat, key: string, horizon: int)
    requires Inv(c, live, last) && l < |live| && live[l].count < c.limit
    ensures (if live[l].key == key then 1 else 0) + Allowance(c, Bumped(live, l), key, horizon)
            <= Allowance(c, live, key, horizon)
  {
    var k := Find(live, key);
    FindIs(Bumped(live, l), key, k);
  }

  lemma PruningSpendsNothing(c: Config, entries: seq<Entry>, last: int, now: int, key: string, horizon: int)
    requires Inv(c, entries, last) && now < horizon
    ensures Allowance(c, Pruned(entries, now), key, horizon) <= Allowance(c, entries, key, horizon)
  {
    PrunedFinds(c, entries, last, now, key);
  }

  lemma StepSpendsAllowance(c: Config, entries: seq<Entry>, last: int, r: Request, key: string, horizon: int)
    requires c.limit >= 1 && c.maxKeys >= 1 && Inv(c, entries, last) && last <= r.pruneAt <= r.createAt
    requires r.pruneAt < horizon <= r.createAt + c.windowMs
    requires forall e <- Evicted(c, entries, r) :: e.key != key
    ensures (if r.key == key && Allow(c, entries, r).1 then 1 else 0)
            + Allowance(c, Allow(c, entries, r).0, key, horizon) <= Allowance(c, entries, key, horizon)
  {
    var n := PrunedIsSuffix(c, entries, last, r.pruneAt);
    var live := Pruned(entries, r.pruneAt);
    assert Inv(c, live, last);
    PruningSpendsNothing(c, entries, last, r.pruneAt, key, horizon);
    var k := Find(live, r.key);
    if k == |live| {
      if |live| >= c.maxKeys && live != [] { assert live[0] in Evicted(c, entries, r); }
      CreatedSpends(c, live, last, r, key, horizon);
    } else if live[k].count < c.limit {
      BumpedSpends(c, live, last, k, key, horizon);
    }
  }

  /** Requests before `horizon` that are at most a window apart from it. */
  predicate Inside(c: Config, rs: seq<Request>, horizon: int) {
    forall r <- rs :: r.pruneAt < horizon <= r.createAt + c.windowMs
  }

  lemma {:induction false} AllowanceBoundsAdmitted(c: Config, entries: seq<Entry>, rs: seq<Request>, last: int,
      key: string, horizon: int)
    requires c.limit >= 1 && c.maxKeys >= 1 && Inv(c, entries, last) && Ordered(rs, last)
    requires Inside(c, rs, horizon) && NeverEvicted(c, entries, rs, key)
    ensures Admitted(c, entries, rs, key) <= Allowance(c, entries, key, horizon)
    ensures Allowance(c, entries, key, horizon) <= 2 * c.limit
    decreases rs
  {
    if rs != [] {
      StepSpendsAllowance(c, entries, last, rs[0], key, horizon);
      AllowKeepsInv(c, entries, last, rs[0]);
      AllowanceBoundsAdmitted(c, Allow(c, entries, rs[0]).0, rs[1..], rs[0].createAt, key, horizon);
    }
  }

  /**
   * From any reachable table, an interval of `windowMs` admits at most twice the limit for a key that is not evicted
   * in it, and once the limit if the key has no entry when it starts.
   */
  lemma WindowBound(c: Config, before: seq<Request>, rs: seq<Request>, start: int, key: string, begin: int)
    requires c.limit >= 1 && c.maxKeys >= 1 && Ordered(before, start)
    requires Ordered(rs, if before == [] then start else before[|before| - 1].createAt)
    requires Inside(c, rs, begin + c.windowMs) && NeverEvicted(c, After(c, [], before), rs, key)
    ensures Admitted(c, After(c, [], before), rs, key) <= 2 * c.limit
    ensures Find(After(c, [], before), key) == |After(c, [], before)|
        ==> Admitted(c, After(c, [], before), rs, key) <= c.limit
  {
    RunKeepsInv(c, [], before, start);
    AllowanceBoundsAdmitted(c, After(c, [], before), rs, if before == [] then start else before[|before| - 1].createAt,
                            key, begin + c.windowMs);
  }
}
