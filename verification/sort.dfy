/** A stable sort by a natural-number key, highest key first: what `Array.prototype.sort`
    computes with a comparator `key(q) - key(p)`, since that sort is stable. */
module StableSort {

  /** Highest key first. */
  predicate Descending<T>(key: T -> nat, s: seq<T>) {
    forall i, j :: 0 <= i < j < |s| ==> key(s[i]) >= key(s[j])
  }

  /** The elements with key `m`, in their original order. */
  function WithKey<T>(key: T -> nat, s: seq<T>, m: nat): (r: seq<T>)
    ensures forall i :: 0 <= i < |r| ==> key(r[i]) == m
    ensures |r| <= |s|
    decreases |s|
  {
    if |s| == 0 then []
    else (if key(s[0]) == m then [s[0]] else []) + WithKey(key, s[1..], m)
  }

  /** Puts `x` in front of the first element whose key is not higher than its own. */
  function Insert<T>(key: T -> nat, x: T, s: seq<T>): (r: seq<T>)
    ensures multiset(r) == multiset(s) + multiset{x}
    decreases |s|
  {
    if |s| == 0 || key(s[0]) <= key(x) then [x] + s
    else
      assert s == [s[0]] + s[1..];
      [s[0]] + Insert(key, x, s[1..])
  }

  /** Inserting an element no higher than a bound into elements no higher than it gives
      elements no higher than it. */
  lemma {:induction false} InsertBounded<T>(key: T -> nat, x: T, s: seq<T>, k: nat)
    requires key(x) <= k
    requires forall i :: 0 <= i < |s| ==> key(s[i]) <= k
    ensures forall i :: 0 <= i < |Insert(key, x, s)| ==> key(Insert(key, x, s)[i]) <= k
    decreases |s|
  {
    if |s| > 0 && key(s[0]) > key(x) {
      InsertBounded(key, x, s[1..], k);
    }
  }

  /** Inserting into a sorted sequence keeps it sorted. */
  lemma {:induction false} InsertDescending<T>(key: T -> nat, x: T, s: seq<T>)
    requires Descending(key, s)
    ensures Descending(key, Insert(key, x, s))
    decreases |s|
  {
    if |s| > 0 && key(s[0]) > key(x) {
      var s' := s[1..];
      var t := Insert(key, x, s');
      InsertDescending(key, x, s');
      InsertBounded(key, x, s', key(s[0]));
      var r := [s[0]] + t;
      assert forall j :: 0 < j < |r| ==> r[j] == t[j - 1];
    }
  }

  /** The sort: a permutation of its input, highest key first. */
  function SortBy<T>(key: T -> nat, s: seq<T>): (r: seq<T>)
    ensures multiset(r) == multiset(s)
    ensures Descending(key, r)
    decreases |s|
  {
    if |s| == 0 then []
    else
      assert s == [s[0]] + s[1..];
      InsertDescending(key, s[0], SortBy(key, s[1..]));
      Insert(key, s[0], SortBy(key, s[1..]))
  }

  /** Inserting `x` puts it first among the elements of its own key and moves no other key's elements. */
  lemma {:induction false} InsertWithKey<T>(key: T -> nat, x: T, s: seq<T>, m: nat)
    requires Descending(key, s)
    ensures WithKey(key, Insert(key, x, s), m) == (if key(x) == m then [x] else []) + WithKey(key, s, m)
    decreases |s|
  {
    if |s| > 0 && key(s[0]) > key(x) {
      var s' := s[1..];
      assert Descending(key, s');
      InsertWithKey(key, x, s', m);
      var r := [s[0]] + Insert(key, x, s');
      assert r[1..] == Insert(key, x, s');
      if key(x) == m {
        assert key(s[0]) != m;
      }
    } else {
      assert ([x] + s)[1..] == s;
    }
  }

  /** The sort is stable: for every key, the elements with that key keep their order. */
  lemma {:induction false} SortByStable<T>(key: T -> nat, s: seq<T>, m: nat)
    ensures WithKey(key, SortBy(key, s), m) == WithKey(key, s, m)
    decreases |s|
  {
    if |s| > 0 {
      SortByStable(key, s[1..], m);
      InsertWithKey(key, s[0], SortBy(key, s[1..]), m);
    }
  }
}
