/** `Array.prototype.sort` with a comparator `(a, b) => count(b) - count(a)`:
    a stable sort, greatest count first. */
module Ranking {

  /** Every element's count is at least that of every later element. */
  ghost predicate Descending<T>(s: seq<T>, count: T -> nat) {
    forall i, j :: 0 <= i < j < |s| ==> count(s[i]) >= count(s[j])
  }

  /** Keys strictly increase along `s`. */
  ghost predicate KeyAscending<T>(s: seq<T>, key: T -> int) {
    forall i, j :: 0 <= i < j < |s| ==> key(s[i]) < key(s[j])
  }

  /** `a` is listed before `b`: a greater count, or an equal count and a
      smaller key. */
  predicate Before<T>(a: T, b: T, count: T -> nat, key: T -> int) {
    count(a) > count(b) || (count(a) == count(b) && key(a) < key(b))
  }

  ghost predicate Ranked<T>(s: seq<T>, count: T -> nat, key: T -> int) {
    forall i, j :: 0 <= i < j < |s| ==> Before(s[i], s[j], count, key)
  }

  /** Places `x`, which came before every element of `t` in the input, ahead
      of the first element whose count does not exceed its own. */
  function InsertDesc<T>(x: T, t: seq<T>, count: T -> nat): (r: seq<T>)
    ensures |r| == |t| + 1
  {
    if t == [] || count(x) >= count(t[0]) then [x] + t
    else [t[0]] + InsertDesc(x, t[1..], count)
  }

  function SortDesc<T>(s: seq<T>, count: T -> nat): (r: seq<T>)
    ensures |r| == |s|
  {
    if s == [] then [] else InsertDesc(s[0], SortDesc(s[1..], count), count)
  }

  lemma InsertDescSpec<T>(x: T, t: seq<T>, count: T -> nat)
    ensures multiset(InsertDesc(x, t, count)) == multiset(t) + multiset{x}
    ensures Descending(t, count) ==> Descending(InsertDesc(x, t, count), count)
  {
    InsertDescMultiset(x, t, count);
    if Descending(t, count) {
      InsertDescDescending(x, t, count);
    }
  }

  lemma {:induction false} InsertDescMultiset<T>(x: T, t: seq<T>, count: T -> nat)
    ensures multiset(InsertDesc(x, t, count)) == multiset(t) + multiset{x}
  {
    if t != [] && count(x) < count(t[0]) {
      InsertDescMultiset(x, t[1..], count);
      assert t == [t[0]] + t[1..];
    }
  }

  lemma {:induction false} InsertDescDescending<T>(x: T, t: seq<T>, count: T -> nat)
    requires Descending(t, count)
    ensures Descending(InsertDesc(x, t, count), count)
  {
    if t != [] && count(x) < count(t[0]) {
      var rest := InsertDesc(x, t[1..], count);
      var r := [t[0]] + rest;
      InsertDescDescending(x, t[1..], count);
      forall k | 0 <= k < |t[1..]| ensures count(t[1..][k]) <= count(t[0]) {
        assert t[1..][k] == t[k + 1];
      }
      InsertDescBelow(x, t[1..], count, count(t[0]));
      forall i, j | 0 <= i < j < |r| ensures count(r[i]) >= count(r[j]) {
        assert r[j] == rest[j - 1];
        if i > 0 {
          assert r[i] == rest[i - 1];
        }
      }
    }
  }

  /** Inserting below a bound that every element is below keeps every count
      below it. */
  lemma {:induction false} InsertDescBelow<T>(x: T, t: seq<T>, count: T -> nat, b: nat)
    requires count(x) <= b && forall k :: 0 <= k < |t| ==> count(t[k]) <= b
    ensures forall k :: 0 <= k < |InsertDesc(x, t, count)| ==> count(InsertDesc(x, t, count)[k]) <= b
  {
    var r := InsertDesc(x, t, count);
    if t == [] || count(x) >= count(t[0]) {
      forall k | 0 < k < |r| ensures count(r[k]) <= b {
        assert r[k] == t[k - 1];
      }
    } else {
      forall k | 0 <= k < |t[1..]| ensures count(t[1..][k]) <= b {
        assert t[1..][k] == t[k + 1];
      }
      InsertDescBelow(x, t[1..], count, b);
      forall k | 0 < k < |r| ensures count(r[k]) <= b {
        assert r[k] == InsertDesc(x, t[1..], count)[k - 1];
      }
    }
  }

  /** The sort keeps every element and orders them by count, greatest first. */
  lemma {:induction false} SortDescSpec<T>(s: seq<T>, count: T -> nat)
    ensures multiset(SortDesc(s, count)) == multiset(s)
    ensures Descending(SortDesc(s, count), count)
  {
    if s != [] {
      SortDescSpec(s[1..], count);
      InsertDescSpec(s[0], SortDesc(s[1..], count), count);
      assert s == [s[0]] + s[1..];
    }
  }

  lemma {:induction false} InsertDescRanked<T>(x: T, t: seq<T>, count: T -> nat, key: T -> int)
    requires Ranked(t, count, key)
    requires forall i :: 0 <= i < |t| ==> key(x) < key(t[i])
    ensures Ranked(InsertDesc(x, t, count), count, key)
  {
    var r := InsertDesc(x, t, count);
    if t == [] || count(x) >= count(t[0]) {
      forall i, j | 0 <= i < j < |r| ensures Before(r[i], r[j], count, key) {
        if i == 0 && j > 1 {
          assert Before(t[0], t[j - 1], count, key);
        }
      }
    } else {
      var rest := InsertDesc(x, t[1..], count);
      InsertDescRanked(x, t[1..], count, key);
      InsertDescSpec(x, t[1..], count);
      forall i, j | 0 <= i < j < |r| ensures Before(r[i], r[j], count, key) {
        if i == 0 {
          assert r[j] in multiset(rest);
          if r[j] != x {
            assert r[j] in multiset(t[1..]);
            var k :| 0 <= k < |t[1..]| && t[1..][k] == r[j];
            assert t[k + 1] == r[j];
          }
        }
      }
    }
  }

  /** Stability: when the input lists keys in increasing order, entries with
      equal counts keep that order in the result. */
  lemma {:induction false} SortDescStable<T>(s: seq<T>, count: T -> nat, key: T -> int)
    requires KeyAscending(s, key)
    ensures Ranked(SortDesc(s, count), count, key)
  {
    if s != [] {
      var t := SortDesc(s[1..], count);
      SortDescStable(s[1..], count, key);
      SortDescSpec(s[1..], count);
      forall i | 0 <= i < |t| ensures key(s[0]) < key(t[i]) {
        assert t[i] in multiset(s[1..]);
        var k :| 0 <= k < |s[1..]| && s[1..][k] == t[i];
        assert s[k + 1] == t[i];
      }
      InsertDescRanked(s[0], t, count, key);
    }
  }
}
