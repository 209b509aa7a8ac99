/**
 Counting dictionaries as the source builds them, by adding one to a key's
 count (absent keys counting as 0): an insertion-ordered list of (key, count)
 entries.
 */
module Tally {

  datatype Entry<K> = Entry(key: K, count: nat)

  type Counter<K> = seq<Entry<K>>

  /** The count of `k`, or 0 when `k` is not a key. */
  function Get<K(==)>(t: Counter<K>, k: K): nat
  {
    if |t| == 0 then 0
    else if t[0].key == k then t[0].count
    else Get(t[1..], k)
  }

  /** The keys present in the counter. */
  function Keys<K>(t: Counter<K>): set<K>
  {
    if |t| == 0 then {} else {t[0].key} + Keys(t[1..])
  }

  /** No key appears in two entries, and every count is positive. */
  predicate Valid<K(==)>(t: Counter<K>)
  {
    |t| == 0 || (t[0].count > 0 && t[0].key !in Keys(t[1..]) && Valid(t[1..]))
  }

  /** In a valid counter the entries hold pairwise distinct keys. */
  lemma {:induction false} ValidDistinct<K>(t: Counter<K>)
    requires Valid(t)
    ensures forall i, j :: 0 <= i < j < |t| ==> t[i].key != t[j].key
    decreases |t|
  {
    if |t| > 0 {
      ValidDistinct(t[1..]);
      forall j | 0 < j < |t| ensures t[0].key != t[j].key {
        KeysHolds(t[1..], j - 1);
      }
    }
  }

  /** Every entry's key is among the keys. */
  lemma {:induction false} KeysHolds<K>(t: Counter<K>, i: nat)
    requires i < |t|
    ensures t[i].key in Keys(t)
    decreases i
  {
    if i > 0 {
      KeysHolds(t[1..], i - 1);
    }
  }

  /** The sum of all counts. */
  function Total<K>(t: Counter<K>): nat
  {
    if |t| == 0 then 0 else t[0].count + Total(t[1..])
  }

  /**
   Adds one to the count of `k`: an existing entry is incremented in place, a
   new key is appended at the end with count 1.
   */
  function Bump<K(==)>(t: Counter<K>, k: K): Counter<K>
  {
    if |t| == 0 then [Entry(k, 1)]
    else if t[0].key == k then [Entry(k, t[0].count + 1)] + t[1..]
    else [t[0]] + Bump(t[1..], k)
  }

  /** Incrementing `k` raises its count by one and leaves every other count alone. */
  lemma {:induction false} BumpGet<K>(t: Counter<K>, k: K, j: K)
    ensures Get(Bump(t, k), j) == Get(t, j) + (if j == k then 1 else 0)
    decreases |t|
  {
    if |t| > 0 && t[0].key != k {
      BumpGet(t[1..], k, j);
      assert Bump(t, k)[1..] == Bump(t[1..], k);
    }
  }

  /** Incrementing raises the total by exactly one. */
  lemma {:induction false} BumpTotal<K>(t: Counter<K>, k: K)
    ensures Total(Bump(t, k)) == Total(t) + 1
    decreases |t|
  {
    if |t| > 0 {
      if t[0].key == k {
        assert Bump(t, k)[1..] == t[1..];
      } else {
        BumpTotal(t[1..], k);
        assert Bump(t, k)[1..] == Bump(t[1..], k);
      }
    }
  }

  /** Incrementing adds `k` to the keys and keeps the counter valid. */
  lemma {:induction false} BumpKeys<K>(t: Counter<K>, k: K)
    requires Valid(t)
    ensures Keys(Bump(t, k)) == Keys(t) + {k}
    ensures Valid(Bump(t, k))
    decreases |t|
  {
    if |t| > 0 {
      if t[0].key == k {
        assert Bump(t, k)[1..] == t[1..];
      } else {
        BumpKeys(t[1..], k);
        assert Bump(t, k)[1..] == Bump(t[1..], k);
      }
    }
  }

  /** The counter of a sequence of keys, built left to right. */
  function Count<K(==)>(keys: seq<K>): Counter<K>
    decreases |keys|
  {
    if |keys| == 0 then []
    else Bump(Count(keys[..|keys| - 1]), keys[|keys| - 1])
  }

  /** The counts of a counter built from `keys` add up to the number of keys. */
  lemma {:induction false} CountTotal<K>(keys: seq<K>)
    ensures Total(Count(keys)) == |keys|
    decreases |keys|
  {
    if |keys| > 0 {
      CountTotal(keys[..|keys| - 1]);
      BumpTotal(Count(keys[..|keys| - 1]), keys[|keys| - 1]);
    }
  }

  /** Each key's count is its number of occurrences in `keys`. */
  lemma {:induction false} CountGet<K>(keys: seq<K>, k: K)
    ensures Get(Count(keys), k) == multiset(keys)[k]
    decreases |keys|
  {
    if |keys| > 0 {
      var init := keys[..|keys| - 1];
      CountGet(init, k);
      BumpGet(Count(init), keys[|keys| - 1], k);
      assert keys == init + [keys[|keys| - 1]];
    }
  }

  /** The counter holds each distinct key of `keys` exactly once, with a positive count. */
  lemma {:induction false} CountKeys<K>(keys: seq<K>)
    ensures Valid(Count(keys))
    ensures forall x :: x in Keys(Count(keys)) <==> x in keys
    decreases |keys|
  {
    if |keys| > 0 {
      var init := keys[..|keys| - 1];
      CountKeys(init);
      BumpKeys(Count(init), keys[|keys| - 1]);
      assert keys == init + [keys[|keys| - 1]];
    }
  }

  /** `n` copies of one key count as a single entry holding `n`. */
  lemma {:induction false} CountConstant<K>(k: K, n: nat)
    requires n > 0
    ensures Count(seq(n, _ => k)) == [Entry(k, n)]
    decreases n
  {
    if n > 1 {
      var keys := seq(n, _ => k);
      assert keys[..n - 1] == seq(n - 1, _ => k);
      CountConstant(k, n - 1);
    }
  }
}
