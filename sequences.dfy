/** Array.prototype.filter and Array.prototype.slice over Dafny sequences. */
module Sequences {

  /** The elements of `s` that satisfy `p`, in their original order. */
  function Filter<T>(s: seq<T>, p: T -> bool): (r: seq<T>)
    ensures |r| <= |s|
    ensures forall i :: 0 <= i < |r| ==> r[i] in s && p(r[i])
    ensures forall i :: 0 <= i < |s| && p(s[i]) ==> s[i] in r
  {
    if s == [] then [] else (if p(s[0]) then [s[0]] else []) + Filter(s[1..], p)
  }

  lemma {:induction false} FilterAppend<T>(a: seq<T>, b: seq<T>, p: T -> bool)
    ensures Filter(a + b, p) == Filter(a, p) + Filter(b, p)
  {
    if a == [] {
      assert a + b == b;
    } else {
      var head := if p(a[0]) then [a[0]] else [];
      assert a + b == [a[0]] + (a[1..] + b);
      FilterCons(a[0], a[1..] + b, p);
      FilterAppend(a[1..], b, p);
      assert head + (Filter(a[1..], p) + Filter(b, p)) == (head + Filter(a[1..], p)) + Filter(b, p);
    }
  }

  lemma {:induction false} FilterMultiset<T>(s: seq<T>, p: T -> bool)
    ensures multiset(Filter(s, p)) <= multiset(s)
  {
    if s != [] {
      var head := if p(s[0]) then [s[0]] else [];
      FilterMultiset(s[1..], p);
      assert s == [s[0]] + s[1..];
      assert multiset(Filter(s, p)) == multiset(head) + multiset(Filter(s[1..], p));
      assert multiset(s) == multiset{s[0]} + multiset(s[1..]);
    }
  }

  lemma FilterSatisfies<T>(s: seq<T>, p: T -> bool, x: T)
    requires x in multiset(Filter(s, p))
    ensures p(x) && x in s
  {
    var r := Filter(s, p);
    assert x in r;
    var i :| 0 <= i < |r| && r[i] == x;
  }

  lemma {:induction false} FilterEmpty<T>(s: seq<T>, p: T -> bool)
    ensures Filter(s, p) == [] <==> forall i :: 0 <= i < |s| ==> !p(s[i])
  {
    if s != [] {
      FilterEmpty(s[1..], p);
      assert forall i :: 1 <= i < |s| ==> s[i] == s[1..][i - 1];
    }
  }

  lemma {:induction false} FilterAll<T>(s: seq<T>, p: T -> bool)
    requires forall i :: 0 <= i < |s| ==> p(s[i])
    ensures Filter(s, p) == s
  {
    if s != [] {
      FilterAll(s[1..], p);
    }
  }

  /** The first `k` elements that pass a filter are exactly the elements
      that pass it within some prefix of the input. */
  lemma FilterTake<T>(s: seq<T>, p: T -> bool, k: nat)
    requires k <= |Filter(s, p)|
    ensures exists n :: 0 <= n <= |s| && Filter(s, p)[..k] == Filter(s[..n], p)
  {
    var n := FilterTakeLength(s, p, k);
  }

  lemma {:induction false} FilterTakeLength<T>(s: seq<T>, p: T -> bool, k: nat) returns (n: nat)
    requires k <= |Filter(s, p)|
    ensures n <= |s| && Filter(s, p)[..k] == Filter(s[..n], p)
  {
    if k == 0 {
      n := 0;
      assert s[..0] == [];
    } else {
      var head := if p(s[0]) then [s[0]] else [];
      var t := Filter(s[1..], p);
      var m: nat := if p(s[0]) then k - 1 else k;
      var n' := FilterTakeLength(s[1..], p, m);
      n := n' + 1;
      assert s[..n] == [s[0]] + s[1..][..n'];
      FilterCons(s[0], s[1..][..n'], p);
      assert Filter(s, p) == head + t;
      assert (head + t)[..k] == head + t[..m];
    }
  }

  lemma FilterCons<T>(x: T, s: seq<T>, p: T -> bool)
    ensures Filter([x] + s, p) == (if p(x) then [x] else []) + Filter(s, p)
  {
    assert ([x] + s)[1..] == s;
  }

  /** Where `slice` stops for an `end` argument on a sequence of length `len`;
      a negative `end` counts back from the end. */
  function SliceEnd(len: nat, end: int): (k: nat)
    ensures k <= len
    ensures end >= 0 ==> k == if end < len then end else len
    ensures end < 0 ==> k == if len + end > 0 then len + end else 0
  {
    if end < 0 then (if len + end > 0 then len + end else 0)
    else if end < len then end else len
  }

  /** `s.slice(0, end)` */
  function SliceTo<T>(s: seq<T>, end: int): (r: seq<T>)
    ensures r == s[..SliceEnd(|s|, end)]
  {
    s[..SliceEnd(|s|, end)]
  }

  lemma SliceToMultiset<T>(s: seq<T>, end: int)
    ensures multiset(SliceTo(s, end)) <= multiset(s)
  {
    var k := SliceEnd(|s|, end);
    assert s == s[..k] + s[k..];
  }

  /** `s.slice(-n)` for n > 0: the last n elements, or all of them. */
  function LastN<T>(s: seq<T>, n: nat): (r: seq<T>)
    requires n > 0
    ensures |r| == if n < |s| then n else |s|
    ensures s == s[..|s| - |r|] + r
  {
    if n < |s| then s[|s| - n..] else s
  }

  function Reverse<T>(s: seq<T>): (r: seq<T>)
    ensures |r| == |s|
    ensures forall i :: 0 <= i < |s| ==> r[i] == s[|s| - 1 - i]
    ensures multiset(r) == multiset(s)
  {
    if s == [] then []
    else
      assert s == [s[0]] + s[1..];
      Reverse(s[1..]) + [s[0]]
  }
}
