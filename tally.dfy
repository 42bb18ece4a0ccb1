/** The `acc[key] = (acc[key] || 0) + 1` accumulator of the report page,
    as a list of (key, count) pairs in the order the keys first appeared
    (the enumeration order of a JavaScript object with string keys). */
module Tally {

  /** Keys of a tally, in order. */
  function KeysOf<K>(t: seq<(K, nat)>): (r: seq<K>)
    ensures |r| == |t|
    ensures forall i :: 0 <= i < |t| ==> r[i] == t[i].0
  {
    if t == [] then [] else [t[0].0] + KeysOf(t[1..])
  }

  /** No key appears twice. */
  predicate DistinctKeys<K(==)>(t: seq<(K, nat)>) {
    forall i, j :: 0 <= i < j < |t| ==> t[i].0 != t[j].0
  }

  /** The count stored for `key`, 0 when absent. */
  function CountOf<K(==)>(t: seq<(K, nat)>, key: K): nat {
    if t == [] then 0 else if t[0].0 == key then t[0].1 else CountOf(t[1..], key)
  }

  /** The sum of all counts. */
  function Total<K>(t: seq<(K, nat)>): nat {
    if t == [] then 0 else t[0].1 + Total(t[1..])
  }

  /** One step of the reduce: increments the entry of `key` in place, or
      appends a new entry with count 1. */
  function Bump<K(==)>(t: seq<(K, nat)>, key: K): seq<(K, nat)> {
    if t == [] then [(key, 1)]
    else if t[0].0 == key then [(key, t[0].1 + 1)] + t[1..]
    else [t[0]] + Bump(t[1..], key)
  }

  /** `keys.reduce(bump, {})` */
  function TallyOf<K(==)>(keys: seq<K>): seq<(K, nat)> {
    if keys == [] then [] else Bump(TallyOf(keys[..|keys| - 1]), keys[|keys| - 1])
  }

  lemma {:induction false} BumpKeys<K>(t: seq<(K, nat)>, key: K, k: K)
    ensures k in KeysOf(Bump(t, key)) <==> k in KeysOf(t) || k == key
  {
    if t != [] && t[0].0 != key {
      BumpKeys(t[1..], key, k);
    }
  }

  lemma {:induction false} BumpDistinct<K>(t: seq<(K, nat)>, key: K)
    requires DistinctKeys(t)
    ensures DistinctKeys(Bump(t, key))
  {
    if t != [] && t[0].0 != key {
      BumpDistinct(t[1..], key);
      var b := Bump(t, key);
      forall j | 1 <= j < |b| ensures b[0].0 != b[j].0 {
        BumpKeys(t[1..], key, t[0].0);
        assert b[j].0 == KeysOf(Bump(t[1..], key))[j - 1];
        assert t[0].0 !in KeysOf(t[1..]);
      }
    }
  }

  lemma {:induction false} BumpCount<K>(t: seq<(K, nat)>, key: K, k: K)
    requires DistinctKeys(t)
    ensures CountOf(Bump(t, key), k) == CountOf(t, k) + (if k == key then 1 else 0)
  {
    if t != [] && t[0].0 != key {
      BumpCount(t[1..], key, k);
    }
  }

  lemma {:induction false} BumpTotal<K>(t: seq<(K, nat)>, key: K)
    ensures Total(Bump(t, key)) == Total(t) + 1
  {
    if t != [] && t[0].0 != key {
      BumpTotal(t[1..], key);
    }
  }

  lemma {:induction false} BumpPositive<K>(t: seq<(K, nat)>, key: K)
    requires forall i :: 0 <= i < |t| ==> t[i].1 >= 1
    ensures forall i :: 0 <= i < |Bump(t, key)| ==> Bump(t, key)[i].1 >= 1
  {
    if t != [] && t[0].0 != key {
      BumpPositive(t[1..], key);
    }
  }

  /** The tally of a sequence of keys: keys are distinct and exactly those
      present, each count is the number of occurrences and at least 1, and
      the counts add up to the length of the input. */
  lemma {:induction false} TallyOfSpec<K>(keys: seq<K>)
    ensures DistinctKeys(TallyOf(keys))
    ensures forall k :: k in KeysOf(TallyOf(keys)) <==> k in keys
    ensures forall k :: CountOf(TallyOf(keys), k) == multiset(keys)[k]
    ensures forall i :: 0 <= i < |TallyOf(keys)| ==> TallyOf(keys)[i].1 >= 1
    ensures Total(TallyOf(keys)) == |keys|
  {
    if keys != [] {
      var prefix, last := keys[..|keys| - 1], keys[|keys| - 1];
      assert keys == prefix + [last];
      TallyOfSpec(prefix);
      var t := TallyOf(prefix);
      BumpDistinct(t, last);
      BumpTotal(t, last);
      BumpPositive(t, last);
      forall k ensures k in KeysOf(TallyOf(keys)) <==> k in keys {
        BumpKeys(t, last, k);
      }
      forall k ensures CountOf(TallyOf(keys), k) == multiset(keys)[k] {
        BumpCount(t, last, k);
      }
    }
  }

  /** In a tally with distinct keys, the count looked up for an entry's key
      is that entry's count. */
  lemma {:induction false} CountOfEntry<K>(t: seq<(K, nat)>, i: nat)
    requires DistinctKeys(t) && i < |t|
    ensures CountOf(t, t[i].0) == t[i].1
  {
    if i > 0 {
      CountOfEntry(t[1..], i - 1);
    }
  }

  /** A non-empty tally with positive counts has a positive total. */
  lemma NonEmptyTallyHasPositiveTotal<K>(t: seq<(K, nat)>)
    requires t != [] && forall i :: 0 <= i < |t| ==> t[i].1 >= 1
    ensures Total(t) >= 1
  {}

  /** No single count exceeds the total. */
  lemma {:induction false} TallyEntryBound<K>(t: seq<(K, nat)>, i: nat)
    requires i < |t|
    ensures t[i].1 <= Total(t)
  {
    if i > 0 {
      TallyEntryBound(t[1..], i - 1);
    }
  }
}
