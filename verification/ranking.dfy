/**
 * Ranking: the sort-then-truncate step every screener ends with.
 *
 * Each screener sorts its rows with Python's `list.sort`, which is stable, under a
 * key that is either a score (with `reverse=True`) or a tuple `(rank, -score)`.
 * Both shapes are a `SortKey(rank, score)` ordered by rank ascending and then by
 * score descending; a plain descending sort uses rank 0 throughout. The result is
 * then cut with the slice `rows[:top_n]`.
 */
module Ranking {

  /** A sort key: smaller `rank` first, then larger `score` first. */
  datatype SortKey = SortKey(rank: int, score: real)

  /** `a` sorts strictly before `b`. */
  predicate Before(a: SortKey, b: SortKey) {
    a.rank < b.rank || (a.rank == b.rank && a.score > b.score)
  }

  /** `a` may appear before `b` in a sorted sequence. */
  predicate NotAfter(a: SortKey, b: SortKey) {
    !Before(b, a)
  }

  /** Every element's key is not after the key of any later element. */
  predicate Sorted<T>(s: seq<T>, key: T -> SortKey) {
    forall i, j :: 0 <= i < j < |s| ==> NotAfter(key(s[i]), key(s[j]))
  }

  /** The elements of `s` whose key is `k`, in their order in `s`. */
  function WithKey<T>(s: seq<T>, key: T -> SortKey, k: SortKey): seq<T> {
    if |s| == 0 then []
    else (if key(s[0]) == k then [s[0]] else []) + WithKey(s[1..], key, k)
  }

  /** A sorted tail stays sorted under a head whose key is not after any of its keys. */
  lemma ConsSorted<T>(h: T, t: seq<T>, key: T -> SortKey)
    requires Sorted(t, key)
    requires forall j :: 0 <= j < |t| ==> NotAfter(key(h), key(t[j]))
    ensures Sorted([h] + t, key)
  {
    var r := [h] + t;
    forall i, j | 0 <= i < j < |r| ensures NotAfter(key(r[i]), key(r[j])) {
      if i == 0 {
        assert r[j] == t[j - 1];
      } else {
        assert r[i] == t[i - 1] && r[j] == t[j - 1];
      }
    }
  }

  /** Inserts `x` after every element whose key is not after `x`'s key. */
  function Insert<T>(s: seq<T>, x: T, key: T -> SortKey): (r: seq<T>)
    requires Sorted(s, key)
    ensures |r| == |s| + 1
    ensures multiset(r) == multiset(s) + multiset{x}
    ensures Sorted(r, key)
    decreases |s|
  {
    if |s| == 0 then [x]
    else if Before(key(x), key(s[0])) then
      InsertFrontSorted(s, x, key);
      [x] + s
    else
      var rest := Insert(s[1..], x, key);
      InsertTailSorted(s, x, rest, key);
      assert s == [s[0]] + s[1..];
      [s[0]] + rest
  }

  lemma InsertFrontSorted<T>(s: seq<T>, x: T, key: T -> SortKey)
    requires Sorted(s, key)
    requires |s| > 0 && Before(key(x), key(s[0]))
    ensures Sorted([x] + s, key)
  {
    forall j | 0 <= j < |s| ensures NotAfter(key(x), key(s[j])) {
      if j > 0 {
        assert NotAfter(key(s[0]), key(s[j]));
      }
    }
    ConsSorted(x, s, key);
  }

  lemma InsertTailSorted<T>(s: seq<T>, x: T, rest: seq<T>, key: T -> SortKey)
    requires Sorted(s, key)
    requires |s| > 0 && !Before(key(x), key(s[0]))
    requires Sorted(rest, key)
    requires multiset(rest) == multiset(s[1..]) + multiset{x}
    ensures Sorted([s[0]] + rest, key)
  {
    forall j | 0 <= j < |rest| ensures NotAfter(key(s[0]), key(rest[j])) {
      assert multiset(rest)[rest[j]] > 0;
      if rest[j] != x {
        assert rest[j] in multiset(s[1..]);
        var m :| 0 <= m < |s[1..]| && s[1..][m] == rest[j];
        assert s[m + 1] == rest[j];
      }
    }
    ConsSorted(s[0], rest, key);
  }

  /** Python's stable `list.sort`: insertion sort that places later equals last. */
  function StableSort<T>(s: seq<T>, key: T -> SortKey): (r: seq<T>)
    ensures |r| == |s|
    ensures multiset(r) == multiset(s)
    ensures Sorted(r, key)
  {
    if |s| == 0 then []
    else
      var init := s[..|s| - 1];
      assert s == init + [s[|s| - 1]];
      Insert(StableSort(init, key), s[|s| - 1], key)
  }

  lemma {:induction false} WithKeyConcat<T>(a: seq<T>, b: seq<T>, key: T -> SortKey, k: SortKey)
    ensures WithKey(a + b, key, k) == WithKey(a, key, k) + WithKey(b, key, k)
    decreases |a|
  {
    if |a| == 0 {
      assert a + b == b;
    } else {
      assert (a + b)[0] == a[0];
      assert (a + b)[1..] == a[1..] + b;
      WithKeyConcat(a[1..], b, key, k);
    }
  }

  lemma {:induction false} WithKeyNone<T>(s: seq<T>, key: T -> SortKey, k: SortKey)
    requires forall i :: 0 <= i < |s| ==> key(s[i]) != k
    ensures WithKey(s, key, k) == []
    decreases |s|
  {
    if |s| != 0 {
      WithKeyNone(s[1..], key, k);
    }
  }

  /** Inserting `x` appends it to the elements that share its key. */
  lemma {:induction false} InsertWithKey<T>(s: seq<T>, x: T, key: T -> SortKey, k: SortKey)
    requires Sorted(s, key)
    ensures WithKey(Insert(s, x, key), key, k) == WithKey(s, key, k) + WithKey([x], key, k)
    decreases |s|
  {
    if |s| == 0 {
      assert Insert(s, x, key) == [x];
    } else if Before(key(x), key(s[0])) {
      assert Insert(s, x, key) == [x] + s;
      InsertFrontWithKey(s, x, key, k);
    } else {
      var rest := Insert(s[1..], x, key);
      assert Insert(s, x, key) == [s[0]] + rest;
      InsertWithKey(s[1..], x, key, k);
      WithKeyConcat([s[0]], rest, key, k);
      WithKeyConcat([s[0]], s[1..], key, k);
      assert s == [s[0]] + s[1..];
    }
  }

  lemma InsertFrontWithKey<T>(s: seq<T>, x: T, key: T -> SortKey, k: SortKey)
    requires Sorted(s, key)
    requires |s| > 0 && Before(key(x), key(s[0]))
    ensures WithKey([x] + s, key, k) == WithKey(s, key, k) + WithKey([x], key, k)
  {
    WithKeyConcat([x], s, key, k);
    if key(x) == k {
      forall i | 0 <= i < |s| ensures key(s[i]) != k {
        if i > 0 {
          assert NotAfter(key(s[0]), key(s[i]));
        }
      }
      WithKeyNone(s, key, k);
    } else {
      assert WithKey([x], key, k) == [] + WithKey([x][1..], key, k);
      assert [x][1..] == [];
    }
  }

  /**
   * Stability: for every key, the elements carrying that key appear in the sorted
   * output in exactly the order they had in the input.
   */
  lemma {:induction false} StableSortKeepsTies<T>(s: seq<T>, key: T -> SortKey, k: SortKey)
    ensures WithKey(StableSort(s, key), key, k) == WithKey(s, key, k)
  {
    if |s| != 0 {
      var init := s[..|s| - 1];
      assert s == init + [s[|s| - 1]];
      StableSortKeepsTies(init, key, k);
      InsertWithKey(StableSort(init, key), s[|s| - 1], key, k);
      WithKeyConcat(init, [s[|s| - 1]], key, k);
    }
  }

  /** Python's slice `s[:n]`; a negative `n` drops `-n` elements from the end. */
  function Take<T>(s: seq<T>, n: int): (r: seq<T>)
    ensures |r| <= |s|
    ensures r == s[..|r|]
    ensures 0 <= n ==> |r| == (if n < |s| then n else |s|)
    ensures n < 0 ==> |r| == (if |s| + n > 0 then |s| + n else 0)
  {
    if n >= |s| then s
    else if n >= 0 then s[..n]
    else if |s| + n > 0 then s[..|s| + n]
    else []
  }

  /**
   * `r` is what a stable sort-then-cut may keep of `s`: no row more often than `s`
   * holds it, and for every key the rows kept are the first rows of `s` with that
   * key, in their input order. So of two rows with equal keys, one left out comes
   * later in `s` than every one kept.
   */
  ghost predicate CutOf<T>(r: seq<T>, s: seq<T>, key: T -> SortKey) {
    && multiset(r) <= multiset(s)
    && forall k :: WithKey(r, key, k) <= WithKey(s, key, k)
  }

  /** A prefix of a concatenation. */
  lemma PrefixOfConcat<T>(a: seq<T>, b: seq<T>)
    ensures a <= a + b
  {
    assert (a + b)[..|a|] == a;
  }

  /** Cutting a stable sort keeps, for each key, the first rows of the input with that key. */
  lemma SortedPrefixTies<T>(s: seq<T>, key: T -> SortKey, m: int, k: SortKey)
    requires 0 <= m <= |s|
    ensures WithKey(StableSort(s, key)[..m], key, k) <= WithKey(s, key, k)
  {
    var sorted := StableSort(s, key);
    assert sorted == sorted[..m] + sorted[m..];
    StableSortKeepsTies(s, key, k);
    WithKeyConcat(sorted[..m], sorted[m..], key, k);
    PrefixOfConcat(WithKey(sorted[..m], key, k), WithKey(sorted[m..], key, k));
  }

  /** A prefix holds no element more often than the whole sequence. */
  lemma PrefixMultiset<T>(t: seq<T>, m: int)
    requires 0 <= m <= |t|
    ensures multiset(t[..m]) <= multiset(t)
  {
    assert t == t[..m] + t[m..];
  }

  /** A stable sort cut to any length is a cut of the input in the sense of `CutOf`. */
  lemma SortedPrefixCut<T>(s: seq<T>, key: T -> SortKey, m: int)
    requires 0 <= m <= |s|
    ensures CutOf(StableSort(s, key)[..m], s, key)
  {
    PrefixMultiset(StableSort(s, key), m);
    forall k ensures WithKey(StableSort(s, key)[..m], key, k) <= WithKey(s, key, k) {
      SortedPrefixTies(s, key, m, k);
    }
  }

  /**
   * Every row of `s` whose key sorts strictly ahead of the last row of `r` is in `r`
   * as often as `s` holds it: the cut removed no copy of a better row.
   */
  ghost predicate KeepsAhead<T>(r: seq<T>, s: seq<T>, key: T -> SortKey) {
    |r| > 0 ==> forall i {:trigger AllCopies(r, s, s[i])} ::
      0 <= i < |s| && Before(key(s[i]), key(r[|r| - 1])) ==> AllCopies(r, s, s[i])
  }

  /** `r` holds `x` as often as `s` does. */
  ghost predicate AllCopies<T>(r: seq<T>, s: seq<T>, x: T) {
    multiset(r)[x] == multiset(s)[x]
  }

  /**
   * `r` is the `top_n` cut of `s` stated without the sort: as long as `s[:n]`,
   * sorted, a `CutOf` `s`, and missing no copy of a row ahead of its last row.
   */
  ghost predicate TopCut<T>(r: seq<T>, s: seq<T>, key: T -> SortKey, n: int) {
    && |r| == |Take(s, n)|
    && Sorted(r, key)
    && CutOf(r, s, key)
    && KeepsAhead(r, s, key)
  }

  /** A prefix of a sorted sequence holds every copy of a row ahead of its last row. */
  lemma SortedPrefixAhead<T>(t: seq<T>, key: T -> SortKey, m: int, x: T)
    requires Sorted(t, key)
    requires 0 < m <= |t| && Before(key(x), key(t[m - 1]))
    ensures multiset(t[..m])[x] == multiset(t)[x]
  {
    var rest := t[m..];
    assert t == t[..m] + rest;
    forall j | 0 <= j < |rest| ensures rest[j] != x {
      assert rest[j] == t[m + j];
      assert NotAfter(key(t[m - 1]), key(t[m + j]));
    }
    assert x !in rest;
  }

  /** A prefix of a sorted permutation of `s` misses no copy of a row ahead of its last row. */
  lemma PermutationPrefixKeepsAhead<T>(t: seq<T>, s: seq<T>, key: T -> SortKey, m: int)
    requires Sorted(t, key) && multiset(t) == multiset(s)
    requires 0 <= m <= |t|
    ensures KeepsAhead(t[..m], s, key)
  {
    var r := t[..m];
    if m > 0 {
      assert r[m - 1] == t[m - 1];
      forall i | 0 <= i < |s| && Before(key(s[i]), key(r[m - 1]))
        ensures AllCopies(r, s, s[i])
      {
        SortedPrefixAhead(t, key, m, s[i]);
      }
    }
  }

  /** A prefix of the stable sort misses no copy of a row ahead of its last row. */
  lemma SortedPrefixKeepsAhead<T>(s: seq<T>, key: T -> SortKey, m: int)
    requires 0 <= m <= |s|
    ensures KeepsAhead(StableSort(s, key)[..m], s, key)
  {
    PermutationPrefixKeepsAhead(StableSort(s, key), s, key, m);
  }

  /** The screeners' final step `rows.sort(key=...); return rows[:top_n]`. */
  function RankTop<T>(s: seq<T>, key: T -> SortKey, n: int): (r: seq<T>)
    ensures |r| <= |s|
    ensures 0 <= n ==> |r| == (if n < |s| then n else |s|)
    ensures forall i :: 0 <= i < |r| ==> r[i] in s
    ensures n >= |s| ==> forall x :: x in s ==> x in r
    ensures n >= |s| ==> multiset(r) == multiset(s)
    ensures Sorted(r, key)
    ensures CutOf(r, s, key)
    ensures TopCut(r, s, key, n)
  {
    TakeSortedCut(s, key, n);
    TakeSortedMembers(s, key, n);
    Take(StableSort(s, key), n)
  }

  /** A prefix of the sorted sequence is sorted and a top cut of `s`. */
  lemma TakeSortedCut<T>(s: seq<T>, key: T -> SortKey, n: int)
    ensures var r := Take(StableSort(s, key), n);
      Sorted(r, key) && CutOf(r, s, key) && TopCut(r, s, key, n)
  {
    var sorted := StableSort(s, key);
    var r := Take(sorted, n);
    assert r == sorted[..|r|];
    SortedPrefixCut(s, key, |r|);
    SortedPrefixKeepsAhead(s, key, |r|);
  }

  /** A prefix of the sorted sequence draws its elements from `s`, and the whole of it holds all of `s`. */
  lemma TakeSortedMembers<T>(s: seq<T>, key: T -> SortKey, n: int)
    ensures var r := Take(StableSort(s, key), n);
      && (forall i :: 0 <= i < |r| ==> r[i] in s)
      && (n >= |s| ==> multiset(r) == multiset(s) && forall x :: x in s ==> x in r)
  {
    var sorted := StableSort(s, key);
    var r := Take(sorted, n);
    forall i | 0 <= i < |r| ensures r[i] in s {
      assert r[i] == sorted[i];
      assert multiset(sorted)[r[i]] > 0;
    }
    if n >= |s| {
      assert r == sorted;
      forall x | x in s ensures x in r {
        assert x in multiset(s);
      }
    }
  }

  /**
   * The cut keeps the best rows: nothing left out ranks strictly ahead of the last
   * row kept, and every copy `s` holds of such a row is kept.
   */
  lemma RankTopKeepsBest<T>(s: seq<T>, key: T -> SortKey, n: int)
    ensures var r := RankTop(s, key, n);
      |r| > 0 ==> forall x :: x in s && Before(key(x), key(r[|r| - 1])) ==> x in r
    ensures var r := RankTop(s, key, n);
      |r| > 0 ==> forall x :: x in s && Before(key(x), key(r[|r| - 1])) ==> multiset(r)[x] == multiset(s)[x]
  {
    var r := RankTop(s, key, n);
    if |r| > 0 {
      forall x | x in s && Before(key(x), key(r[|r| - 1]))
        ensures multiset(r)[x] == multiset(s)[x] && x in r
      {
        var k :| 0 <= k < |s| && s[k] == x;
        assert AllCopies(r, s, s[k]);
        assert x in multiset(r);
      }
    }
  }
}
