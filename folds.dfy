/** Small Option type shared by the modules of this project. */
module Wrappers {
  datatype Option<+T> = None | Some(value: T)
}

/**
 * Generic facts about sums over sequences, duplicate-free sequences and
 * first-appearance order. Both programs modelled here accumulate numbers
 * into dictionaries keyed by identifiers; these are the shared tools for
 * proving that such accumulations do not depend on the order of the input.
 */
module Folds {

  /** Sum of f over s, added left to right (the order the source's loops use). */
  function Sum<T>(s: seq<T>, f: T -> real): real
  {
    if |s| == 0 then 0.0 else Sum(s[..|s| - 1], f) + f(s[|s| - 1])
  }

  lemma {:induction false} SumConcat<T>(a: seq<T>, b: seq<T>, f: T -> real)
    ensures Sum(a + b, f) == Sum(a, f) + Sum(b, f)
  {
    if |b| == 0 {
      assert a + b == a;
    } else {
      assert (a + b)[..|a + b| - 1] == a + b[..|b| - 1];
      SumConcat(a, b[..|b| - 1], f);
    }
  }

  /** Removing one element from a sum subtracts exactly its term. */
  lemma {:induction false} SumRemove<T>(s: seq<T>, j: nat, f: T -> real)
    requires j < |s|
    ensures Sum(s, f) == Sum(s[..j] + s[j + 1..], f) + f(s[j])
  {
    var before, after := s[..j], s[j + 1..];
    assert s == (before + [s[j]]) + after;
    SumConcat(before + [s[j]], after, f);
    SumConcat(before, [s[j]], f);
    SumConcat(before, after, f);
    assert Sum([s[j]], f) == f(s[j]) by {
      assert [s[j]][..0] == [];
    }
  }

  /** Locates the last element of a in its permutation b; what remains are permutations too. */
  lemma {:induction false} MatchLast<T>(a: seq<T>, b: seq<T>) returns (j: nat)
    requires multiset(a) == multiset(b) && |a| > 0
    ensures j < |b| && b[j] == a[|a| - 1]
    ensures multiset(a[..|a| - 1]) == multiset(b[..j] + b[j + 1..])
  {
    var x, rest := a[|a| - 1], a[..|a| - 1];
    assert a == rest + [x];
    assert multiset(a) == multiset(rest) + multiset{x};
    assert x in multiset(b);
    j :| 0 <= j < |b| && b[j] == x;
    var before, after := b[..j], b[j + 1..];
    assert b == before + [x] + after;
    assert multiset(b) == multiset(before) + multiset{x} + multiset(after);
    assert multiset(before + after) == multiset(before) + multiset(after);
    forall y ensures multiset(rest)[y] == multiset(before + after)[y] {
      assert multiset(a)[y] == multiset(rest)[y] + multiset{x}[y];
      assert multiset(b)[y] == multiset(before)[y] + multiset{x}[y] + multiset(after)[y];
    }
  }

  /** A sum of reals does not depend on the order of its terms. */
  lemma {:induction false} SumPermutation<T>(a: seq<T>, b: seq<T>, f: T -> real)
    requires multiset(a) == multiset(b)
    ensures Sum(a, f) == Sum(b, f)
  {
    if |a| == 0 {
      assert |multiset(b)| == 0;
      assert b == [];
    } else {
      var x := a[|a| - 1];
      var a' := a[..|a| - 1];
      assert a == a' + [x];
      var j := MatchLast(a, b);
      var b' := b[..j] + b[j + 1..];
      assert b == b[..j] + [x] + b[j + 1..];
      SumPermutation(a', b', f);
      SumRemove(b, j, f);
    }
  }

  /** No element occurs twice. */
  predicate Distinct<T(==)>(s: seq<T>)
  {
    forall i, j :: 0 <= i < j < |s| ==> s[i] != s[j]
  }

  /** The distinct elements of s, each at the place it first occurs. */
  function FirstAppearance<T(==)>(s: seq<T>): (r: seq<T>)
    ensures Distinct(r)
    ensures forall i :: 0 <= i < |r| ==> r[i] in s
    ensures forall i :: 0 <= i < |s| ==> s[i] in r
  {
    if |s| == 0 then []
    else
      var prefix := FirstAppearance(s[..|s| - 1]);
      if s[|s| - 1] in s[..|s| - 1] then prefix else prefix + [s[|s| - 1]]
  }

  /** One more element joins the first-appearance order only when it is new. */
  lemma FirstAppearanceSnoc<T>(s: seq<T>, x: T)
    ensures FirstAppearance(s + [x]) == if x in s then FirstAppearance(s) else FirstAppearance(s) + [x]
  {
    assert (s + [x])[..|s|] == s;
  }

  /** The first-appearance order holds exactly the elements of s. */
  lemma FirstAppearanceHas<T>(s: seq<T>, x: T)
    ensures x in FirstAppearance(s) <==> x in s
  {
    if x in s {
      var i :| 0 <= i < |s| && s[i] == x;
    }
  }

  /** In a duplicate-free sequence every element occurs exactly once. */
  lemma {:induction false} DistinctMultiplicity<T>(s: seq<T>, x: T)
    requires Distinct(s)
    ensures multiset(s)[x] == if x in s then 1 else 0
  {
    if |s| > 0 {
      var p := s[..|s| - 1];
      assert s == p + [s[|s| - 1]];
      DistinctMultiplicity(p, x);
    }
  }

  /** Two duplicate-free sequences with the same elements are permutations of each other. */
  lemma DistinctSameElements<T>(a: seq<T>, b: seq<T>)
    requires Distinct(a) && Distinct(b)
    requires forall x :: x in a <==> x in b
    ensures multiset(a) == multiset(b)
  {
    forall x | true
      ensures multiset(a)[x] == multiset(b)[x]
    {
      DistinctMultiplicity(a, x);
      DistinctMultiplicity(b, x);
    }
  }

  /** The number of true entries (`np.sum` of a boolean column). */
  function CountTrue(b: seq<bool>): nat
  {
    if |b| == 0 then 0 else CountTrue(b[..|b| - 1]) + if b[|b| - 1] then 1 else 0
  }

  /** The positions holding true. */
  function TrueAt(b: seq<bool>): set<nat>
  {
    set i: nat | i < |b| && b[i]
  }

  /** The count of true entries is the number of positions holding true. */
  lemma {:induction false} CountTrueCard(b: seq<bool>)
    ensures CountTrue(b) == |TrueAt(b)|
  {
    if |b| == 0 {
      assert TrueAt(b) == {};
    } else {
      var n := |b| - 1;
      var prefix := b[..n];
      CountTrueCard(prefix);
      assert n !in TrueAt(prefix);
      if b[n] {
        assert TrueAt(b) == TrueAt(prefix) + {n};
      } else {
        assert TrueAt(b) == TrueAt(prefix);
      }
    }
  }

  /** Applies f to every element. */
  function MapSeq<T, U>(s: seq<T>, f: T -> U): (r: seq<U>)
    ensures |r| == |s|
    ensures forall i :: 0 <= i < |s| ==> r[i] == f(s[i])
  {
    seq(|s|, i requires 0 <= i < |s| => f(s[i]))
  }

  lemma MapSeqConcat<T, U>(a: seq<T>, b: seq<T>, f: T -> U)
    ensures MapSeq(a + b, f) == MapSeq(a, f) + MapSeq(b, f)
  {
  }

  /** Mapping a permutation gives a permutation. */
  lemma {:induction false} MapSeqPermutation<T, U>(a: seq<T>, b: seq<T>, f: T -> U)
    requires multiset(a) == multiset(b)
    ensures multiset(MapSeq(a, f)) == multiset(MapSeq(b, f))
  {
    if |a| == 0 {
      assert |multiset(b)| == 0;
      assert b == [];
    } else {
      var x := a[|a| - 1];
      var a' := a[..|a| - 1];
      assert a == a' + [x];
      var j := MatchLast(a, b);
      var b' := b[..j] + b[j + 1..];
      assert b == b[..j] + [x] + b[j + 1..];
      MapSeqPermutation(a', b', f);
      MapSeqConcat(a', [x], f);
      MapSeqConcat(b[..j] + [x], b[j + 1..], f);
      MapSeqConcat(b[..j], [x], f);
      MapSeqConcat(b[..j], b[j + 1..], f);
    }
  }

  /** Concatenation of f's results over s, in order. */
  function FlatMap<T, U>(s: seq<T>, f: T -> seq<U>): seq<U>
  {
    if |s| == 0 then [] else FlatMap(s[..|s| - 1], f) + f(s[|s| - 1])
  }

  lemma {:induction false} FlatMapConcat<T, U>(a: seq<T>, b: seq<T>, f: T -> seq<U>)
    ensures FlatMap(a + b, f) == FlatMap(a, f) + FlatMap(b, f)
  {
    if |b| == 0 {
      assert a + b == a;
    } else {
      assert (a + b)[..|a + b| - 1] == a + b[..|b| - 1];
      FlatMapConcat(a, b[..|b| - 1], f);
    }
  }

  /** Flattening with two functions that agree on every element gives the same result. */
  lemma {:induction false} FlatMapPointwise<T, U>(s: seq<T>, f: T -> seq<U>, g: T -> seq<U>)
    requires forall i :: 0 <= i < |s| ==> f(s[i]) == g(s[i])
    ensures FlatMap(s, f) == FlatMap(s, g)
  {
    if |s| > 0 {
      FlatMapPointwise(s[..|s| - 1], f, g);
    }
  }

  /** Flattening a permutation yields the same multiset of elements. */
  lemma {:induction false} FlatMapPermutation<T, U>(a: seq<T>, b: seq<T>, f: T -> seq<U>)
    requires multiset(a) == multiset(b)
    ensures multiset(FlatMap(a, f)) == multiset(FlatMap(b, f))
  {
    if |a| == 0 {
      assert |multiset(b)| == 0;
      assert b == [];
    } else {
      var x := a[|a| - 1];
      var a' := a[..|a| - 1];
      assert a == a' + [x];
      var j := MatchLast(a, b);
      var b' := b[..j] + b[j + 1..];
      assert b == (b[..j] + [x]) + b[j + 1..];
      FlatMapPermutation(a', b', f);
      FlatMapConcat(b[..j] + [x], b[j + 1..], f);
      FlatMapConcat(b[..j], [x], f);
      FlatMapConcat(b[..j], b[j + 1..], f);
      assert FlatMap([x], f) == f(x) by {
        assert [x][..0] == [];
      }
    }
  }
}

/**
 * An insertion-ordered dictionary of running totals: the shape of a Python
 * `defaultdict(float)` or a JavaScript `Map<K, number>` that a loop updates
 * with `totals[k] = (totals[k] or 0) + amount`. `order` lists the keys in
 * the order they were first set, which is the order both languages iterate in.
 */
module Tallies {
  import opened Folds

  /** One amount to be added under one key. */
  datatype Entry<K> = Entry(key: K, amount: real)

  datatype Tally<K> = Tally(order: seq<K>, totals: map<K, real>)

  /** The order lists every key of the totals exactly once. */
  ghost predicate ValidTally<K>(t: Tally<K>)
  {
    && Distinct(t.order)
    && (forall i :: 0 <= i < |t.order| ==> t.order[i] in t.totals)
    && (forall k :: k in t.totals ==> k in t.order)
  }

  /** The total under k, or 0 for a key never set (default-zero access). */
  function Get<K>(t: Tally<K>, k: K): real
  {
    if k in t.totals then t.totals[k] else 0.0
  }

  /** One `totals[k] += amount` step; a new key goes to the end of the order. */
  function Add<K>(t: Tally<K>, k: K, amount: real): Tally<K>
  {
    Tally(if k in t.totals then t.order else t.order + [k], t.totals[k := Get(t, k) + amount])
  }

  /** Adds the entries one after the other, as the source's loops do. */
  function AddAll<K>(t: Tally<K>, entries: seq<Entry<K>>): Tally<K>
  {
    if |entries| == 0 then t
    else
      var last := entries[|entries| - 1];
      Add(AddAll(t, entries[..|entries| - 1]), last.key, last.amount)
  }

  lemma {:induction false} AddAllConcat<K>(t: Tally<K>, a: seq<Entry<K>>, b: seq<Entry<K>>)
    ensures AddAll(t, a + b) == AddAll(AddAll(t, a), b)
  {
    if |b| == 0 {
      assert a + b == a;
    } else {
      assert (a + b)[..|a + b| - 1] == a + b[..|b| - 1];
      assert (a + b)[|a + b| - 1] == b[|b| - 1];
      AddAllConcat(t, a, b[..|b| - 1]);
    }
  }

  /** Adding never removes a key. */
  lemma {:induction false} AddAllKeepsKeys<K>(t: Tally<K>, entries: seq<Entry<K>>)
    ensures t.totals.Keys <= AddAll(t, entries).totals.Keys
  {
    if |entries| > 0 {
      AddAllKeepsKeys(t, entries[..|entries| - 1]);
    }
  }

  /** The keys of the entries, in input order. */
  function Keys<K>(entries: seq<Entry<K>>): seq<K>
  {
    MapSeq(entries, KeyOf)
  }

  function KeyOf<K>(e: Entry<K>): K
  {
    e.key
  }

  /** The amount an entry contributes to the total under k. */
  function AmountFor<K(==)>(k: K): Entry<K> -> real
  {
    (e: Entry<K>) => if e.key == k then e.amount else 0.0
  }

  /** The tally of a list of entries, starting from nothing. */
  function TallyOf<K>(entries: seq<Entry<K>>): Tally<K>
  {
    AddAll(Tally([], map[]), entries)
  }

  /** The keys a tally holds are exactly the keys of its entries. */
  lemma {:induction false} TallyKeys<K>(entries: seq<Entry<K>>)
    ensures forall k :: k in TallyOf(entries).totals <==> k in Keys(entries)
  {
    if |entries| > 0 {
      var prefix := entries[..|entries| - 1];
      TallyKeys(prefix);
      assert Keys(entries) == Keys(prefix) + [entries[|entries| - 1].key];
    }
  }

  /** A tally lists its keys in order of first appearance. */
  lemma {:induction false} TallyOrder<K>(entries: seq<Entry<K>>)
    ensures TallyOf(entries).order == FirstAppearance(Keys(entries))
  {
    if |entries| > 0 {
      var prefix := entries[..|entries| - 1];
      var last := entries[|entries| - 1];
      TallyOrder(prefix);
      TallyKeys(prefix);
      var ks := Keys(entries);
      assert ks[..|ks| - 1] == Keys(prefix);
      assert ks[|ks| - 1] == last.key;
      assert last.key in TallyOf(prefix).totals <==> last.key in Keys(prefix);
    }
  }

  /** Under each key, a tally holds the sum of that key's amounts. */
  lemma {:induction false} TallyTotals<K>(entries: seq<Entry<K>>)
    ensures forall k :: k in TallyOf(entries).totals ==> TallyOf(entries).totals[k] == Sum(entries, AmountFor(k))
  {
    if |entries| > 0 {
      var prefix := entries[..|entries| - 1];
      var last := entries[|entries| - 1];
      TallyTotals(prefix);
      TallyKeys(prefix);
      forall k | k in TallyOf(entries).totals
        ensures TallyOf(entries).totals[k] == Sum(entries, AmountFor(k))
      {
        assert Sum(entries, AmountFor(k)) == Sum(prefix, AmountFor(k)) + AmountFor(k)(last);
        if k == last.key && k !in TallyOf(prefix).totals {
          SumAbsentKey(prefix, k);
        }
      }
    }
  }

  /**
   * Accumulating entries one by one yields: the keys in order of first
   * appearance, each once, and under each key the sum of that key's amounts.
   */
  lemma TallyOfSpec<K>(entries: seq<Entry<K>>)
    ensures ValidTally(TallyOf(entries))
    ensures TallyOf(entries).order == FirstAppearance(Keys(entries))
    ensures forall k :: k in TallyOf(entries).totals <==> k in Keys(entries)
    ensures forall k :: k in TallyOf(entries).totals ==> TallyOf(entries).totals[k] == Sum(entries, AmountFor(k))
  {
    TallyKeys(entries);
    TallyOrder(entries);
    TallyTotals(entries);
    forall k | k in TallyOf(entries).totals
      ensures k in TallyOf(entries).order
    {
      KeyListed(entries, k);
    }
  }

  lemma KeyListed<K>(entries: seq<Entry<K>>, k: K)
    requires k in TallyOf(entries).totals
    ensures k in TallyOf(entries).order
  {
    TallyKeys(entries);
    TallyOrder(entries);
    var ks := Keys(entries);
    assert k in ks;
    var i :| 0 <= i < |ks| && ks[i] == k;
  }

  /** A key that never occurs sums to zero. */
  lemma {:induction false} SumAbsentKey<K>(entries: seq<Entry<K>>, k: K)
    requires k !in Keys(entries)
    ensures Sum(entries, AmountFor(k)) == 0.0
  {
    if |entries| > 0 {
      var prefix := entries[..|entries| - 1];
      assert Keys(prefix) == Keys(entries)[..|entries| - 1];
      SumAbsentKey(prefix, k);
    }
  }

  /**
   * Reordering the entries does not change the tally's totals, nor the set
   * of keys its order lists: accumulation of reals is order-independent.
   */
  lemma {:induction false} TallyPermutation<K>(a: seq<Entry<K>>, b: seq<Entry<K>>)
    requires multiset(a) == multiset(b)
    ensures TallyOf(a).totals == TallyOf(b).totals
    ensures multiset(TallyOf(a).order) == multiset(TallyOf(b).order)
  {
    TallyKeysPermutation(a, b);
    TallyTotals(a);
    TallyTotals(b);
    forall k | k in TallyOf(a).totals
      ensures TallyOf(a).totals[k] == TallyOf(b).totals[k]
    {
      SumPermutation(a, b, AmountFor(k));
    }
    TallyOfSpec(a);
    TallyOfSpec(b);
    DistinctSameElements(TallyOf(a).order, TallyOf(b).order);
  }

  lemma {:induction false} TallyKeysPermutation<K>(a: seq<Entry<K>>, b: seq<Entry<K>>)
    requires multiset(a) == multiset(b)
    ensures TallyOf(a).totals.Keys == TallyOf(b).totals.Keys
  {
    var ka, kb := TallyOf(a).totals.Keys, TallyOf(b).totals.Keys;
    forall k | k in ka ensures k in kb {
      KeyMoves(a, b, k);
    }
    forall k | k in kb ensures k in ka {
      KeyMoves(b, a, k);
    }
  }

  lemma KeyMoves<K>(a: seq<Entry<K>>, b: seq<Entry<K>>, k: K)
    requires multiset(a) == multiset(b)
    requires k in TallyOf(a).totals
    ensures k in TallyOf(b).totals
  {
    TallyKeys(a);
    TallyKeys(b);
    MapSeqPermutation(a, b, KeyOf);
    assert k in multiset(Keys(a));
  }
}
