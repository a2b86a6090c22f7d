/**
 * Why `Ranking.TopCut` is a complete description of the screeners' final step:
 * any sequence that is a `TopCut` of `s` is exactly `RankTop(s, key, n)`, the
 * stable sort of `s` sliced with `[:n]`. So a screener whose result is stated as a
 * `TopCut` of its qualifying rows has its rows, their order and their number
 * fixed by that one clause.
 *
 * The argument: two top cuts of the same length end on the same key; for every key
 * they keep equally many rows, which are then the same first rows of `s` with that
 * key; and a sorted sequence is determined by its rows per key.
 */
module RankingUnique {
  import opened Ranking

  /** The elements of `s` whose key sorts strictly before `bound`, in their order in `s`. */
  function AheadOf<T>(s: seq<T>, key: T -> SortKey, bound: SortKey): (r: seq<T>)
    ensures |r| <= |s|
  {
    if |s| == 0 then []
    else (if Before(key(s[0]), bound) then [s[0]] else []) + AheadOf(s[1..], key, bound)
  }

  /** `AheadOf` keeps `x` as often as `s` holds it when `x` is ahead of the bound, and otherwise never. */
  lemma {:induction false} AheadCount<T>(s: seq<T>, key: T -> SortKey, bound: SortKey, x: T)
    ensures multiset(AheadOf(s, key, bound))[x] == if Before(key(x), bound) then multiset(s)[x] else 0
  {
    if |s| > 0 {
      AheadCount(s[1..], key, bound, x);
      assert s == [s[0]] + s[1..];
    }
  }

  /** `WithKey` keeps `x` as often as `s` holds it when `x` has the key, and otherwise never. */
  lemma {:induction false} WithKeyCount<T>(s: seq<T>, key: T -> SortKey, k: SortKey, x: T)
    ensures multiset(WithKey(s, key, k))[x] == if key(x) == k then multiset(s)[x] else 0
  {
    if |s| > 0 {
      WithKeyCount(s[1..], key, k, x);
      assert s == [s[0]] + s[1..];
    }
  }

  /** A multiset that holds nothing more often than another is no larger. */
  lemma SubMultisetSize<T>(a: multiset<T>, b: multiset<T>)
    requires forall x :: a[x] <= b[x]
    ensures |a| <= |b|
  {
    assert b == a + (b - a);
  }

  /** When every element is ahead of the bound, `AheadOf` keeps them all. */
  lemma {:induction false} AheadAll<T>(s: seq<T>, key: T -> SortKey, bound: SortKey)
    ensures (forall i :: 0 <= i < |s| ==> Before(key(s[i]), bound)) ==> AheadOf(s, key, bound) == s
  {
    if |s| > 0 && forall i :: 0 <= i < |s| ==> Before(key(s[i]), bound) {
      assert forall i :: 0 <= i < |s[1..]| ==> s[1..][i] == s[i + 1];
      AheadAll(s[1..], key, bound);
    }
  }

  /** The last element is not ahead of its own key, so `AheadOf` at that key drops it. */
  lemma {:induction false} AheadDropsLast<T>(s: seq<T>, key: T -> SortKey)
    requires |s| > 0
    ensures |AheadOf(s, key, key(s[|s| - 1]))| < |s|
  {
    var bound := key(s[|s| - 1]);
    if |s| > 1 {
      assert s[1..][|s[1..]| - 1] == s[|s| - 1];
      AheadDropsLast(s[1..], key);
    }
  }

  /**
   * Every element of a sequence whose keys are all not after `bound` is either
   * ahead of `bound` or has key `bound`.
   */
  lemma {:induction false} SplitAtBound<T>(s: seq<T>, key: T -> SortKey, bound: SortKey)
    requires forall i :: 0 <= i < |s| ==> NotAfter(key(s[i]), bound)
    ensures |s| == |AheadOf(s, key, bound)| + |WithKey(s, key, bound)|
  {
    if |s| > 0 {
      assert forall i :: 0 <= i < |s[1..]| ==> s[1..][i] == s[i + 1];
      SplitAtBound(s[1..], key, bound);
      assert !Before(key(s[0]), bound) ==> key(s[0]) == SortKey(bound.rank, bound.score);
    }
  }

  /** A sorted sequence's keys are all not after its last key. */
  lemma LastBounds<T>(r: seq<T>, key: T -> SortKey)
    requires Sorted(r, key) && |r| > 0
    ensures forall i :: 0 <= i < |r| ==> NotAfter(key(r[i]), key(r[|r| - 1]))
  {
    forall i | 0 <= i < |r| ensures NotAfter(key(r[i]), key(r[|r| - 1])) {
      if i < |r| - 1 {
        assert NotAfter(key(r[i]), key(r[|r| - 1]));
      }
    }
  }

  /** A cut holds no more elements ahead of a bound than its input does. */
  lemma AheadBounded<T>(r: seq<T>, s: seq<T>, key: T -> SortKey, bound: SortKey)
    requires multiset(r) <= multiset(s)
    ensures |AheadOf(r, key, bound)| <= |AheadOf(s, key, bound)|
  {
    var a, b := multiset(AheadOf(r, key, bound)), multiset(AheadOf(s, key, bound));
    forall x ensures a[x] <= b[x] {
      AheadCount(r, key, bound, x);
      AheadCount(s, key, bound, x);
    }
    SubMultisetSize(a, b);
  }

  /** A cut that keeps every copy of what is ahead of its last key holds all of `s` ahead of that key. */
  lemma AheadKept<T>(r: seq<T>, s: seq<T>, key: T -> SortKey)
    requires |r| > 0 && multiset(r) <= multiset(s) && KeepsAhead(r, s, key)
    ensures |AheadOf(r, key, key(r[|r| - 1]))| == |AheadOf(s, key, key(r[|r| - 1]))|
  {
    var bound := key(r[|r| - 1]);
    var a, b := multiset(AheadOf(r, key, bound)), multiset(AheadOf(s, key, bound));
    forall x ensures a[x] == b[x] {
      AheadCount(r, key, bound, x);
      AheadCount(s, key, bound, x);
      if Before(key(x), bound) && x in s {
        var i :| 0 <= i < |s| && s[i] == x;
        assert AllCopies(r, s, s[i]);
      }
    }
    SubMultisetSize(a, b);
    SubMultisetSize(b, a);
  }

  /** Of two top cuts of `s` of the same length, the first does not end strictly ahead of the second. */
  lemma LastNotAhead<T>(r1: seq<T>, r2: seq<T>, s: seq<T>, key: T -> SortKey, n: int)
    requires TopCut(r1, s, key, n) && TopCut(r2, s, key, n) && |r1| > 0
    ensures !Before(key(r1[|r1| - 1]), key(r2[|r2| - 1]))
  {
    var bound := key(r2[|r2| - 1]);
    AheadDropsLast(r2, key);
    AheadKept(r2, s, key);
    AheadBounded(r1, s, key, bound);
    AheadAll(r1, key, bound);
    LastBounds(r1, key);
    var i :| 0 <= i < |r1| && !Before(key(r1[i]), bound);
    assert NotAfter(key(r1[i]), key(r1[|r1| - 1]));
  }

  /** A top cut holds, for every key, as many rows as any other top cut of `s` of the same length. */
  lemma SameCountPerKey<T>(r1: seq<T>, r2: seq<T>, s: seq<T>, key: T -> SortKey, n: int, k: SortKey)
    requires TopCut(r1, s, key, n) && TopCut(r2, s, key, n) && |r1| > 0
    requires key(r1[|r1| - 1]) == key(r2[|r2| - 1])
    ensures |WithKey(r1, key, k)| == |WithKey(r2, key, k)|
  {
    var bound := key(r1[|r1| - 1]);
    LastBounds(r1, key);
    LastBounds(r2, key);
    if Before(k, bound) {
      AllKept(r1, s, key, k);
      AllKept(r2, s, key, k);
    } else if Before(bound, k) {
      WithKeyNone(r1, key, k);
      WithKeyNone(r2, key, k);
    } else {
      assert k == SortKey(bound.rank, bound.score);
      SplitAtBound(r1, key, bound);
      SplitAtBound(r2, key, bound);
      AheadKept(r1, s, key);
      AheadKept(r2, s, key);
    }
  }

  /** A top cut keeps every row of `s` whose key is ahead of its last key. */
  lemma AllKept<T>(r: seq<T>, s: seq<T>, key: T -> SortKey, k: SortKey)
    requires |r| > 0 && multiset(r) <= multiset(s) && KeepsAhead(r, s, key)
    requires Before(k, key(r[|r| - 1]))
    ensures |WithKey(r, key, k)| == |WithKey(s, key, k)|
  {
    var a, b := multiset(WithKey(r, key, k)), multiset(WithKey(s, key, k));
    forall x ensures a[x] == b[x] {
      WithKeyCount(r, key, k, x);
      WithKeyCount(s, key, k, x);
      if key(x) == k && x in s {
        var i :| 0 <= i < |s| && s[i] == x;
        assert AllCopies(r, s, s[i]);
      }
    }
    SubMultisetSize(a, b);
    SubMultisetSize(b, a);
  }

  /** Dropping the head keeps a sequence sorted. */
  lemma SortedTail<T>(r: seq<T>, key: T -> SortKey)
    requires Sorted(r, key) && |r| > 0
    ensures Sorted(r[1..], key)
  {
    forall i, j | 0 <= i < j < |r[1..]| ensures NotAfter(key(r[1..][i]), key(r[1..][j])) {
      assert r[1..][i] == r[i + 1] && r[1..][j] == r[j + 1];
    }
  }

  /** Two sorted sequences with the same rows for every key are equal. */
  lemma {:induction false} SortedByKeys<T>(r1: seq<T>, r2: seq<T>, key: T -> SortKey)
    requires Sorted(r1, key) && Sorted(r2, key) && |r1| == |r2|
    requires forall k :: WithKey(r1, key, k) == WithKey(r2, key, k)
    ensures r1 == r2
  {
    if |r1| > 0 {
      var k1, k2 := key(r1[0]), key(r2[0]);
      assert WithKey(r1, key, k1) == [r1[0]] + WithKey(r1[1..], key, k1);
      assert WithKey(r2, key, k2) == [r2[0]] + WithKey(r2[1..], key, k2);
      if forall i :: 0 <= i < |r2| ==> key(r2[i]) != k1 {
        WithKeyNone(r2, key, k1);
      }
      var j :| 0 <= j < |r2| && key(r2[j]) == k1;
      assert NotAfter(k2, k1) by {
        if j > 0 {
          assert NotAfter(key(r2[0]), key(r2[j]));
        }
      }
      if forall i :: 0 <= i < |r1| ==> key(r1[i]) != k2 {
        WithKeyNone(r1, key, k2);
      }
      var i :| 0 <= i < |r1| && key(r1[i]) == k2;
      assert NotAfter(k1, k2) by {
        if i > 0 {
          assert NotAfter(key(r1[0]), key(r1[i]));
        }
      }
      assert k1 == k2;
      assert r1[0] == WithKey(r1, key, k1)[0] == WithKey(r2, key, k1)[0] == r2[0];
      forall k ensures WithKey(r1[1..], key, k) == WithKey(r2[1..], key, k) {
        if key(r1[0]) == k {
          assert WithKey(r1, key, k) == [r1[0]] + WithKey(r1[1..], key, k);
          assert WithKey(r2, key, k) == [r2[0]] + WithKey(r2[1..], key, k);
          assert WithKey(r1[1..], key, k) == WithKey(r1, key, k)[1..];
          assert WithKey(r2[1..], key, k) == WithKey(r2, key, k)[1..];
        } else {
          assert WithKey(r1, key, k) == WithKey(r1[1..], key, k);
          assert WithKey(r2, key, k) == WithKey(r2[1..], key, k);
        }
      }
      SortedTail(r1, key);
      SortedTail(r2, key);
      SortedByKeys(r1[1..], r2[1..], key);
      assert r1 == [r1[0]] + r1[1..] && r2 == [r2[0]] + r2[1..];
    }
  }

  /** Two top cuts of the same input with the same `top_n` are the same sequence. */
  lemma TopCutUnique<T>(r1: seq<T>, r2: seq<T>, s: seq<T>, key: T -> SortKey, n: int)
    requires TopCut(r1, s, key, n) && TopCut(r2, s, key, n)
    ensures r1 == r2
  {
    if |r1| > 0 {
      LastNotAhead(r1, r2, s, key, n);
      LastNotAhead(r2, r1, s, key, n);
      var a, b := key(r1[|r1| - 1]), key(r2[|r2| - 1]);
      assert a == SortKey(b.rank, b.score);
      forall k ensures WithKey(r1, key, k) == WithKey(r2, key, k) {
        SameCountPerKey(r1, r2, s, key, n, k);
        assert WithKey(r1, key, k) == WithKey(s, key, k)[..|WithKey(r1, key, k)|];
        assert WithKey(r2, key, k) == WithKey(s, key, k)[..|WithKey(r2, key, k)|];
      }
      SortedByKeys(r1, r2, key);
    }
  }

  /**
   * `TopCut` pins the sort-then-slice result: whatever satisfies it for `s`, `key`
   * and `n` is `RankTop(s, key, n)`.
   */
  lemma TopCutIsRankTop<T>(r: seq<T>, s: seq<T>, key: T -> SortKey, n: int)
    requires TopCut(r, s, key, n)
    ensures r == RankTop(s, key, n)
  {
    TopCutUnique(r, RankTop(s, key, n), s, key, n);
  }
}
