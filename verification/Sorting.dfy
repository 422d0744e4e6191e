/** Mapping, filtering, and stable sorting by a key. */
module Sorting {

  /** A strict total order, such as `localeCompare` on the strings in use. */
  ghost predicate StrictTotal<K(!new)>(less: (K, K) -> bool) {
    && (forall a, b :: less(a, b) ==> !less(b, a))
    && (forall a, b :: a != b ==> less(a, b) || less(b, a))
    && (forall a, b, c :: less(a, b) && less(b, c) ==> less(a, c))
  }

  function Insert<T, K>(x: T, s: seq<T>, key: T -> K, less: (K, K) -> bool): seq<T> {
    if s == [] then [x]
    else if less(key(s[0]), key(x)) then [s[0]] + Insert(x, s[1..], key, less)
    else [x] + s
  }

  /** `Array.prototype.sort`: elements with the same key keep their order. */
  function Sort<T, K>(s: seq<T>, key: T -> K, less: (K, K) -> bool): seq<T> {
    if s == [] then [] else Insert(s[0], Sort(s[1..], key, less), key, less)
  }

  function Map<T, U>(f: T -> U, s: seq<T>): (r: seq<U>)
    ensures |r| == |s| && forall i | 0 <= i < |s| :: r[i] == f(s[i])
  {
    seq(|s|, i requires 0 <= i < |s| => f(s[i]))
  }

  function Filter<T>(keep: T -> bool, s: seq<T>): (r: seq<T>)
    ensures forall x <- r :: x in s && keep(x)
    ensures forall x <- s :: keep(x) ==> x in r
  {
    if s == [] then []
    else if keep(s[0]) then [s[0]] + Filter(keep, s[1..])
    else Filter(keep, s[1..])
  }

  predicate Sorted<T, K>(s: seq<T>, key: T -> K, less: (K, K) -> bool) {
    forall i, j | 0 <= i < j < |s| :: !less(key(s[j]), key(s[i]))
  }

  predicate DistinctKeys<T, K(==)>(s: seq<T>, key: T -> K) {
    forall i, j | 0 <= i < j < |s| :: key(s[i]) != key(s[j])
  }

  lemma {:induction false} InsertPermutes<T, K>(x: T, s: seq<T>, key: T -> K, less: (K, K) -> bool)
    ensures multiset(Insert(x, s, key, less)) == multiset{x} + multiset(s)
  {
    if s != [] && less(key(s[0]), key(x)) {
      InsertPermutes(x, s[1..], key, less);
      assert s == [s[0]] + s[1..];
    }
  }

  lemma {:induction false} SortPermutes<T, K>(s: seq<T>, key: T -> K, less: (K, K) -> bool)
    ensures multiset(Sort(s, key, less)) == multiset(s) && |Sort(s, key, less)| == |s|
  {
    if s != [] {
      SortPermutes(s[1..], key, less);
      InsertPermutes(s[0], Sort(s[1..], key, less), key, less);
      assert s == [s[0]] + s[1..];
    }
    assert |multiset(Sort(s, key, less))| == |Sort(s, key, less)|;
    assert |multiset(s)| == |s|;
  }

  lemma {:induction false} InsertSorts<T, K(!new)>(x: T, s: seq<T>, key: T -> K, less: (K, K) -> bool)
    requires StrictTotal(less) && Sorted(s, key, less)
    ensures Sorted(Insert(x, s, key, less), key, less)
  {
    if s != [] && less(key(s[0]), key(x)) {
      var tail := Insert(x, s[1..], key, less);
      InsertSorts(x, s[1..], key, less);
      InsertPermutes(x, s[1..], key, less);
      forall j | 0 <= j < |tail| ensures !less(key(tail[j]), key(s[0])) {
        assert tail[j] in multiset(tail);
        assert tail[j] == x || tail[j] in s[1..];
      }
    }
  }

  lemma {:induction false} SortSorts<T, K(!new)>(s: seq<T>, key: T -> K, less: (K, K) -> bool)
    requires StrictTotal(less)
    ensures Sorted(Sort(s, key, less), key, less)
  {
    if s != [] {
      SortSorts(s[1..], key, less);
      InsertSorts(s[0], Sort(s[1..], key, less), key, less);
    }
  }

  /** A sorted list stays as it is. */
  lemma {:induction false} SortedIsFixed<T, K(!new)>(s: seq<T>, key: T -> K, less: (K, K) -> bool)
    requires StrictTotal(less) && Sorted(s, key, less)
    ensures Sort(s, key, less) == s
  {
    if s != [] {
      SortedIsFixed(s[1..], key, less);
      assert |s| > 1 ==> s[1..][0] == s[1];
    }
  }

  lemma {:induction false} InsertKeepsDistinct<T, K>(x: T, s: seq<T>, key: T -> K, less: (K, K) -> bool)
    requires DistinctKeys(s, key) && forall y <- s :: key(y) != key(x)
    ensures DistinctKeys(Insert(x, s, key, less), key)
  {
    if s != [] && less(key(s[0]), key(x)) {
      var tail := Insert(x, s[1..], key, less);
      InsertKeepsDistinct(x, s[1..], key, less);
      InsertPermutes(x, s[1..], key, less);
      forall y | y in tail ensures key(y) != key(s[0]) {
        assert y in multiset(tail);
      }
    }
  }

  lemma {:induction false} SortKeepsDistinct<T, K>(s: seq<T>, key: T -> K, less: (K, K) -> bool)
    requires DistinctKeys(s, key)
    ensures DistinctKeys(Sort(s, key, less), key)
  {
    if s != [] {
      var tail := Sort(s[1..], key, less);
      SortKeepsDistinct(s[1..], key, less);
      SortPermutes(s[1..], key, less);
      forall y | y in tail ensures key(y) != key(s[0]) {
        assert y in multiset(s[1..]);
      }
      InsertKeepsDistinct(s[0], tail, key, less);
    }
  }

  /*** Sorting and a view of the elements ***/

  lemma MapFirst<T, U>(x: T, s: seq<T>, f: T -> U)
    ensures Map(f, [x] + s) == [f(x)] + Map(f, s)
  {}

  lemma {:induction false} InsertMaps<T, K, U>(x: T, s: seq<T>, f: T -> U, key: T -> K, less: (K, K) -> bool)
    ensures multiset(Map(f, Insert(x, s, key, less))) == multiset{f(x)} + multiset(Map(f, s))
  {
    if s != [] && less(key(s[0]), key(x)) {
      InsertMaps(x, s[1..], f, key, less);
      MapFirst(s[0], s[1..], f);
      MapFirst(s[0], Insert(x, s[1..], key, less), f);
      assert [s[0]] + s[1..] == s;
    } else {
      MapFirst(x, s, f);
      assert [x] + s == Insert(x, s, key, less);
    }
  }

  lemma {:induction false} SortMaps<T, K, U>(s: seq<T>, f: T -> U, key: T -> K, less: (K, K) -> bool)
    ensures multiset(Map(f, Sort(s, key, less))) == multiset(Map(f, s))
  {
    if s == [] {
      assert Sort(s, key, less) == s;
    } else {
      SortMaps(s[1..], f, key, less);
      InsertMaps(s[0], Sort(s[1..], key, less), f, key, less);
      assert Map(f, s) == [f(s[0])] + Map(f, s[1..]);
    }
  }

  /** Strictly sorted lists whose views hold the same elements have the same view, if the view shows the key. */
  lemma {:induction false} SortedViewsAgree<T(!new), K(!new), U>(a: seq<T>, b: seq<T>, f: T -> U, key: T -> K,
      less: (K, K) -> bool)
    requires StrictTotal(less) && Sorted(a, key, less) && Sorted(b, key, less)
    requires DistinctKeys(a, key) && DistinctKeys(b, key)
    requires forall x, y | f(x) == f(y) :: key(x) == key(y)
    requires multiset(Map(f, a)) == multiset(Map(f, b))
    ensures Map(f, a) == Map(f, b)
  {
    assert |multiset(Map(f, a))| == |a| && |multiset(Map(f, b))| == |b|;
    if a != [] {
      SortedHeadsAgree(a, b, f, key, less);
      SortedTails(a, b, f);
      SortedViewsAgree(a[1..], b[1..], f, key, less);
      MapTail(a, f);
      MapTail(b, f);
    }
  }

  lemma SortedTails<T, U>(a: seq<T>, b: seq<T>, f: T -> U)
    requires a != [] && b != [] && f(a[0]) == f(b[0]) && multiset(Map(f, a)) == multiset(Map(f, b))
    ensures multiset(Map(f, a[1..])) == multiset(Map(f, b[1..]))
  {
    MapTail(a, f);
    MapTail(b, f);
  }

  lemma MapTail<T, U>(s: seq<T>, f: T -> U)
    requires s != []
    ensures Map(f, s) == [f(s[0])] + Map(f, s[1..])
    ensures multiset(Map(f, s[1..])) == multiset(Map(f, s)) - multiset{f(s[0])}
  {
    assert Map(f, s) == [f(s[0])] + Map(f, s[1..]);
  }

  lemma SortedHeadsAgree<T(!new), K(!new), U>(a: seq<T>, b: seq<T>, f: T -> U, key: T -> K, less: (K, K) -> bool)
    requires StrictTotal(less) && Sorted(a, key, less) && Sorted(b, key, less) && a != [] && b != []
    requires DistinctKeys(a, key) && DistinctKeys(b, key)
    requires forall x, y | f(x) == f(y) :: key(x) == key(y)
    requires multiset(Map(f, a)) == multiset(Map(f, b))
    ensures f(a[0]) == f(b[0])
  {
    assert Map(f, a)[0] in multiset(Map(f, b)) && Map(f, b)[0] in multiset(Map(f, a));
    var j :| 0 <= j < |b| && f(b[j]) == f(a[0]);
    var i :| 0 <= i < |a| && f(a[i]) == f(b[0]);
    assert key(b[j]) == key(a[0]) && key(a[i]) == key(b[0]);
    assert !less(key(a[i]), key(a[0])) && !less(key(b[j]), key(b[0]));
    assert key(a[0]) == key(b[0]);
  }

  /** Two lists with distinct keys sort to the same view exactly when their views hold the same elements. */
  lemma SortIsCanonical<T(!new), K(!new), U>(a: seq<T>, b: seq<T>, f: T -> U, key: T -> K, less: (K, K) -> bool)
    requires StrictTotal(less) && DistinctKeys(a, key) && DistinctKeys(b, key)
    requires forall x, y | f(x) == f(y) :: key(x) == key(y)
    ensures multiset(Map(f, a)) == multiset(Map(f, b)) <==> Map(f, Sort(a, key, less)) == Map(f, Sort(b, key, less))
  {
    var x, y := Sort(a, key, less), Sort(b, key, less);
    SortMaps(a, f, key, less);
    SortMaps(b, f, key, less);
    if multiset(Map(f, a)) == multiset(Map(f, b)) {
      SortSorts(a, key, less);
      SortSorts(b, key, less);
      SortKeepsDistinct(a, key, less);
      SortKeepsDistinct(b, key, less);
      SortedViewsAgree(x, y, f, key, less);
    }
  }

  /*** Where sorting puts each element ***/

  /** How many elements come before this key. */
  function Before<T, K>(s: seq<T>, at: K, key: T -> K, less: (K, K) -> bool): nat {
    if s == [] then 0 else (if less(key(s[0]), at) then 1 else 0) + Before(s[1..], at, key, less)
  }

  lemma {:induction false} InsertKeepsBefore<T, K>(x: T, s: seq<T>, at: K, key: T -> K, less: (K, K) -> bool)
    ensures Before(Insert(x, s, key, less), at, key, less)
            == (if less(key(x), at) then 1 else 0) + Before(s, at, key, less)
  {
    if s != [] && less(key(s[0]), key(x)) {
      InsertKeepsBefore(x, s[1..], at, key, less);
    }
  }

  lemma {:induction false} SortKeepsBefore<T, K>(s: seq<T>, at: K, key: T -> K, less: (K, K) -> bool)
    ensures Before(Sort(s, key, less), at, key, less) == Before(s, at, key, less)
  {
    if s != [] {
      SortKeepsBefore(s[1..], at, key, less);
      InsertKeepsBefore(s[0], Sort(s[1..], key, less), at, key, less);
    }
  }

  lemma {:induction false} BeforeAgrees<T, K, U, L>(s: seq<T>, at: K, key: T -> K, less: (K, K) -> bool,
                                                    t: seq<U>, place: L, rank: U -> L, lower: (L, L) -> bool)
    requires |s| == |t| && forall i | 0 <= i < |s| :: less(key(s[i]), at) <==> lower(rank(t[i]), place)
    ensures Before(s, at, key, less) == Before(t, place, rank, lower)
  {
    if s != [] {
      BeforeAgrees(s[1..], at, key, less, t[1..], place, rank, lower);
    }
  }

  lemma {:induction false} NoneBefore<T, K>(s: seq<T>, at: K, key: T -> K, less: (K, K) -> bool)
    requires forall x <- s :: !less(key(x), at)
    ensures Before(s, at, key, less) == 0
  {
    if s != [] { NoneBefore(s[1..], at, key, less); }
  }

  lemma {:induction false} SortedBefore<T, K(!new)>(s: seq<T>, key: T -> K, less: (K, K) -> bool, i: nat)
    requires StrictTotal(less) && Sorted(s, key, less) && DistinctKeys(s, key) && i < |s|
    ensures Before(s, key(s[i]), key, less) == i
  {
    if i == 0 {
      NoneBefore(s, key(s[0]), key, less);
    } else {
      SortedBefore(s[1..], key, less, i - 1);
      assert key(s[0]) != key(s[i]);
    }
  }

  /** With distinct keys, each element lands behind exactly those that come before it. */
  lemma SortPlaces<T, K(!new)>(s: seq<T>, x: T, key: T -> K, less: (K, K) -> bool)
    requires StrictTotal(less) && DistinctKeys(s, key) && x in s
    ensures Before(s, key(x), key, less) < |s| == |Sort(s, key, less)|
    ensures Sort(s, key, less)[Before(s, key(x), key, less)] == x
  {
    var sorted := Sort(s, key, less);
    SortSorts(s, key, less);
    SortPermutes(s, key, less);
    SortKeepsDistinct(s, key, less);
    SortKeepsBefore(s, key(x), key, less);
    assert x in multiset(sorted);
    var i :| 0 <= i < |sorted| && sorted[i] == x;
    SortedBefore(sorted, key, less, i);
  }

  /** The head of a stable sort is the first element that nothing comes before. */
  lemma {:induction false} SortHead<T, K(!new)>(s: seq<T>, key: T -> K, less: (K, K) -> bool) returns (i: nat)
    requires s != [] && StrictTotal(less)
    ensures i < |s| && Sort(s, key, less) != [] && Sort(s, key, less)[0] == s[i]
    ensures forall j | 0 <= j < |s| :: !less(key(s[j]), key(s[i]))
    ensures forall j | 0 <= j < i :: less(key(s[i]), key(s[j]))
  {
    i := 0;
    if |s| > 1 {
      var tail := s[1..];
      var k := SortHead(tail, key, less);
      if less(key(tail[k]), key(s[0])) { i := k + 1; }
      assert forall j | 1 <= j < |s| :: s[j] == tail[j - 1];
    }
  }
}
