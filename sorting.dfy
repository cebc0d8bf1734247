/** Array.prototype.sort with a comparator of the form `(a, b) => key(a) - key(b)`.
    ECMAScript 2019 onwards requires the sort to be stable (section 23.1.3.30 of
    ECMA-262, 2023 edition), so the result is fully determined: ascending by key,
    and elements with equal keys keep their input order. A descending sort
    `(a, b) => key(b) - key(a)` is the ascending sort by the negated key. */
module Sorting {

  predicate SortedBy<T>(s: seq<T>, key: T -> real)
  {
    forall i, j :: 0 <= i < j < |s| ==> key(s[i]) <= key(s[j])
  }

  /** The elements of `s` whose key is exactly `k`, in their order in `s`. */
  function WithKey<T>(s: seq<T>, key: T -> real, k: real): seq<T>
  {
    if s == [] then [] else (if key(s[0]) == k then [s[0]] else []) + WithKey(s[1..], key, k)
  }

  /** Places `x` before the first element whose key is not smaller. */
  function Insert<T>(x: T, s: seq<T>, key: T -> real): (r: seq<T>)
    requires SortedBy(s, key)
    ensures SortedBy(r, key)
    ensures multiset(r) == multiset(s) + multiset{x}
    ensures |r| == |s| + 1
    ensures r[0] == x || (|s| > 0 && r[0] == s[0])
  {
    if s == [] || key(x) <= key(s[0]) then [x] + s
    else
      var rest := Insert(x, s[1..], key);
      assert key(s[0]) <= key(rest[0]);
      assert s == [s[0]] + s[1..];
      [s[0]] + rest
  }

  /** Stable insertion sort, ascending by `key`. */
  function SortBy<T>(s: seq<T>, key: T -> real): (r: seq<T>)
    ensures SortedBy(r, key)
    ensures multiset(r) == multiset(s)
    ensures |r| == |s|
  {
    if s == [] then []
    else
      assert s == [s[0]] + s[1..];
      Insert(s[0], SortBy(s[1..], key), key)
  }

  lemma {:induction false} WithKeyAppend<T>(a: seq<T>, b: seq<T>, key: T -> real, k: real)
    ensures WithKey(a + b, key, k) == WithKey(a, key, k) + WithKey(b, key, k)
  {
    if a == [] {
      assert a + b == b;
    } else {
      var head := if key(a[0]) == k then [a[0]] else [];
      assert a + b == [a[0]] + (a[1..] + b);
      WithKeyCons(a[0], a[1..] + b, key, k);
      WithKeyAppend(a[1..], b, key, k);
      assert head + (WithKey(a[1..], key, k) + WithKey(b, key, k))
          == (head + WithKey(a[1..], key, k)) + WithKey(b, key, k);
    }
  }

  lemma {:induction false} InsertStable<T>(x: T, s: seq<T>, key: T -> real, k: real)
    requires SortedBy(s, key)
    ensures WithKey(Insert(x, s, key), key, k) == WithKey([x] + s, key, k)
  {
    if s == [] || key(x) <= key(s[0]) {
    } else {
      var rest := Insert(x, s[1..], key);
      InsertStable(x, s[1..], key, k);
      WithKeyAppend([s[0]], rest, key, k);
      WithKeyAppend([x], s[1..], key, k);
      WithKeyAppend([x], s, key, k);
      assert s == [s[0]] + s[1..];
      WithKeyAppend([s[0]], s[1..], key, k);
    }
  }

  lemma WithKeyCons<T>(x: T, s: seq<T>, key: T -> real, k: real)
    ensures WithKey([x] + s, key, k) == (if key(x) == k then [x] else []) + WithKey(s, key, k)
  {
    assert ([x] + s)[1..] == s;
  }

  /** Stability: among elements with equal keys the sorted order is the input order. */
  lemma {:induction false} SortByStable<T>(s: seq<T>, key: T -> real, k: real)
    ensures WithKey(SortBy(s, key), key, k) == WithKey(s, key, k)
  {
    if s != [] {
      var tail := SortBy(s[1..], key);
      var head := if key(s[0]) == k then [s[0]] else [];
      calc {
        WithKey(SortBy(s, key), key, k);
        WithKey(Insert(s[0], tail, key), key, k);
        { InsertStable(s[0], tail, key, k); }
        WithKey([s[0]] + tail, key, k);
        { WithKeyCons(s[0], tail, key, k); }
        head + WithKey(tail, key, k);
        { SortByStable(s[1..], key, k); }
        head + WithKey(s[1..], key, k);
        WithKey(s, key, k);
      }
    }
  }

  lemma SortedPrefix<T>(s: seq<T>, key: T -> real, m: nat)
    requires SortedBy(s, key) && m <= |s|
    ensures SortedBy(s[..m], key)
  {
    forall i, j | 0 <= i < j < m
      ensures key(s[..m][i]) <= key(s[..m][j])
    {
      assert s[..m][i] == s[i] && s[..m][j] == s[j];
    }
  }

  lemma SortedSuffix<T>(s: seq<T>, key: T -> real, m: nat)
    requires SortedBy(s, key) && m <= |s|
    ensures SortedBy(s[m..], key)
  {
    forall i, j | 0 <= i < j < |s| - m
      ensures key(s[m..][i]) <= key(s[m..][j])
    {
      assert s[m..][i] == s[m + i] && s[m..][j] == s[m + j];
    }
  }

  /** After sorting, every element of a prefix has a key no larger than every
      element of the input that is not in that prefix. */
  lemma PrefixBelowRest<T>(s: seq<T>, key: T -> real, n: nat, x: T, y: T)
    requires SortedBy(s, key) && n <= |s|
    requires x in s[..n] && y in multiset(s) - multiset(s[..n])
    ensures key(x) <= key(y)
  {
    assert s == s[..n] + s[n..];
    assert multiset(s) - multiset(s[..n]) == multiset(s[n..]);
    var i :| 0 <= i < n && s[..n][i] == x;
    var j :| 0 <= j < |s[n..]| && s[n..][j] == y;
    assert s[i] == x && s[n + j] == y;
  }
}
