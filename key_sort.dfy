/**
 * Stable sorting by a small integer key, the way `Array.prototype.sort`
 * orders a list when its comparator returns `key(a) - key(b)`: the list is
 * ordered by key, and elements with equal keys keep their relative order.
 * For keys in lo .. hi the stable result is unique, and it is the
 * concatenation of the buckets lo, lo + 1, ..., hi.
 */
module KeySort {

  /** The elements of s whose key is k, in their order in s. */
  function Bucket<T>(s: seq<T>, key: T -> int, k: int): (b: seq<T>)
    ensures forall i :: 0 <= i < |b| ==> key(b[i]) == k
    ensures |b| <= |s|
  {
    if |s| == 0 then []
    else
      var x := s[|s| - 1];
      Bucket(s[..|s| - 1], key, k) + if key(x) == k then [x] else []
  }

  /** The stable sort of s by key, for keys lo .. hi. */
  function SortByKey<T>(s: seq<T>, key: T -> int, lo: int, hi: int): seq<T>
    decreases hi + 1 - lo
  {
    if lo > hi then [] else Bucket(s, key, lo) + SortByKey(s, key, lo + 1, hi)
  }

  lemma {:induction false} BucketConcat<T>(a: seq<T>, b: seq<T>, key: T -> int, k: int)
    ensures Bucket(a + b, key, k) == Bucket(a, key, k) + Bucket(b, key, k)
  {
    if |b| == 0 {
      assert a + b == a;
    } else {
      var init := b[..|b| - 1];
      assert (a + b)[..|a + b| - 1] == a + init;
      assert (a + b)[|a + b| - 1] == b[|b| - 1];
      BucketConcat(a, init, key, k);
    }
  }

  /** A sequence without key k has an empty bucket k. */
  lemma {:induction false} BucketNone<T>(s: seq<T>, key: T -> int, k: int)
    requires forall i :: 0 <= i < |s| ==> key(s[i]) != k
    ensures Bucket(s, key, k) == []
  {
    if |s| > 0 {
      BucketNone(s[..|s| - 1], key, k);
    }
  }

  /** A sequence whose keys are all k is its own bucket k. */
  lemma {:induction false} BucketAll<T>(s: seq<T>, key: T -> int, k: int)
    requires forall i :: 0 <= i < |s| ==> key(s[i]) == k
    ensures Bucket(s, key, k) == s
  {
    if |s| > 0 {
      BucketAll(s[..|s| - 1], key, k);
    }
  }

  /** Every element of the sort has a key in lo .. hi. */
  lemma {:induction false} SortByKeyKeys<T>(s: seq<T>, key: T -> int, lo: int, hi: int)
    ensures forall i :: 0 <= i < |SortByKey(s, key, lo, hi)| ==> lo <= key(SortByKey(s, key, lo, hi)[i]) <= hi
    decreases hi + 1 - lo
  {
    if lo <= hi {
      SortByKeyKeys(s, key, lo + 1, hi);
      var b, rest := Bucket(s, key, lo), SortByKey(s, key, lo + 1, hi);
      assert SortByKey(s, key, lo, hi) == b + rest;
      forall i | 0 <= i < |b + rest| ensures lo <= key((b + rest)[i]) <= hi {
        if i >= |b| {
          assert (b + rest)[i] == rest[i - |b|];
        }
      }
    }
  }

  /** The sort is ordered by key. */
  lemma {:induction false} SortByKeySorted<T>(s: seq<T>, key: T -> int, lo: int, hi: int)
    ensures forall i, j :: 0 <= i < j < |SortByKey(s, key, lo, hi)| ==>
      key(SortByKey(s, key, lo, hi)[i]) <= key(SortByKey(s, key, lo, hi)[j])
    decreases hi + 1 - lo
  {
    if lo <= hi {
      SortByKeySorted(s, key, lo + 1, hi);
      SortByKeyKeys(s, key, lo + 1, hi);
      var b, rest := Bucket(s, key, lo), SortByKey(s, key, lo + 1, hi);
      var r := b + rest;
      assert SortByKey(s, key, lo, hi) == r;
      forall i, j | 0 <= i < j < |r| ensures key(r[i]) <= key(r[j]) {
        if j < |b| {
          assert r[i] == b[i] && r[j] == b[j];
        } else if i < |b| {
          assert r[i] == b[i] && r[j] == rest[j - |b|];
        } else {
          assert r[i] == rest[i - |b|] && r[j] == rest[j - |b|];
        }
      }
    }
  }

  /**
   * Stability: for every key in lo .. hi, the elements with that key appear
   * in the sort in the same order as in s.
   */
  lemma {:induction false} SortByKeyStable<T>(s: seq<T>, key: T -> int, lo: int, hi: int, k: int)
    requires lo <= k <= hi
    ensures Bucket(SortByKey(s, key, lo, hi), key, k) == Bucket(s, key, k)
    decreases hi + 1 - lo
  {
    var b, rest := Bucket(s, key, lo), SortByKey(s, key, lo + 1, hi);
    assert SortByKey(s, key, lo, hi) == b + rest;
    BucketConcat(b, rest, key, k);
    if k == lo {
      BucketAll(b, key, k);
      SortByKeyKeys(s, key, lo + 1, hi);
      BucketNone(rest, key, k);
    } else {
      BucketNone(b, key, k);
      SortByKeyStable(s, key, lo + 1, hi, k);
    }
  }

  /** One more element enters the sort exactly when its key is in lo .. hi. */
  lemma {:induction false} SortByKeySnoc<T>(s: seq<T>, x: T, key: T -> int, lo: int, hi: int)
    ensures multiset(SortByKey(s + [x], key, lo, hi)) ==
      multiset(SortByKey(s, key, lo, hi)) + if lo <= key(x) <= hi then multiset{x} else multiset{}
    decreases hi + 1 - lo
  {
    if lo <= hi {
      SortByKeySnoc(s, x, key, lo + 1, hi);
      assert (s + [x])[..|s + [x]| - 1] == s;
      var extra := if key(x) == lo then [x] else [];
      assert Bucket(s + [x], key, lo) == Bucket(s, key, lo) + extra;
      assert multiset(Bucket(s + [x], key, lo)) == multiset(Bucket(s, key, lo)) + multiset(extra);
      assert multiset(SortByKey(s + [x], key, lo, hi))
        == multiset(Bucket(s + [x], key, lo)) + multiset(SortByKey(s + [x], key, lo + 1, hi));
      assert multiset(SortByKey(s, key, lo, hi))
        == multiset(Bucket(s, key, lo)) + multiset(SortByKey(s, key, lo + 1, hi));
    }
  }

  /** When every key is in lo .. hi, the sort is a permutation of s. */
  lemma {:induction false} SortByKeyPermutation<T>(s: seq<T>, key: T -> int, lo: int, hi: int)
    requires forall i :: 0 <= i < |s| ==> lo <= key(s[i]) <= hi
    ensures multiset(SortByKey(s, key, lo, hi)) == multiset(s)
  {
    if |s| == 0 {
      SortByKeyEmpty(s, key, lo, hi);
    } else {
      var init, x := s[..|s| - 1], s[|s| - 1];
      assert s == init + [x];
      SortByKeyPermutation(init, key, lo, hi);
      SortByKeySnoc(init, x, key, lo, hi);
    }
  }

  /** Nothing to sort gives nothing. */
  lemma {:induction false} SortByKeyEmpty<T>(s: seq<T>, key: T -> int, lo: int, hi: int)
    requires |s| == 0
    ensures SortByKey(s, key, lo, hi) == []
    decreases hi + 1 - lo
  {
    if lo <= hi {
      SortByKeyEmpty(s, key, lo + 1, hi);
    }
  }
}
