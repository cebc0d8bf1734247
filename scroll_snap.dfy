/** The global scroll snap of the GSAP dashboard (app/src/App.tsx): a one-time
    snapshot of the pinned ScrollTriggers, normalised to scroll progress, and
    the `snapTo` callback that pulls a settle point inside a pinned band to the
    nearest pinned centre while leaving the flowing sections free. */
module ScrollSnap {
  import opened Wrappers
  import Sequences
  import Sorting

  /** The part of a GSAP ScrollTrigger the snap reads: its start and end in
      pixels of scroll and whether it pins its section. */
  datatype ScrollTrigger = ScrollTrigger(start: real, end: Option<real>, pin: bool)

  /** A pinned trigger's extent and centre as fractions of the maximum scroll. */
  datatype PinnedRange = PinnedRange(start: real, end: real, center: real)

  /** How far outside a pinned range a settle point still counts as inside it. */
  const SnapBuffer: real := 0.02

  /** `st.end ?? st.start` */
  function EndOrStart(st: ScrollTrigger): real
  {
    match st.end
    case Some(e) => e
    case None => st.start
  }

  function Dist(a: real, b: real): (d: real)
    ensures d >= 0.0 && (d == a - b || d == b - a)
  {
    if a >= b then a - b else b - a
  }

  predicate IsPinned(st: ScrollTrigger) { st.pin }

  function StartOf(st: ScrollTrigger): real { st.start }

  /** The pinned triggers ordered by start: `filter(st => st.vars.pin)` then a
      stable `sort((a, b) => a.start - b.start)`. */
  function SortedPinned(triggers: seq<ScrollTrigger>): (ps: seq<ScrollTrigger>)
    ensures multiset(ps) == multiset(Sequences.Filter(triggers, IsPinned))
    ensures forall i :: 0 <= i < |ps| ==> ps[i].pin
    ensures forall i, j :: 0 <= i < j < |ps| ==> ps[i].start <= ps[j].start
    ensures forall k :: Sorting.WithKey(ps, StartOf, k) == Sorting.WithKey(Sequences.Filter(triggers, IsPinned), StartOf, k)
  {
    var pinned := Sequences.Filter(triggers, IsPinned);
    var ps := Sorting.SortBy(pinned, StartOf);
    forall k ensures Sorting.WithKey(ps, StartOf, k) == Sorting.WithKey(pinned, StartOf, k) {
      Sorting.SortByStable(pinned, StartOf, k);
    }
    forall i | 0 <= i < |ps| ensures ps[i].pin {
      assert ps[i] in multiset(ps);
      Sequences.FilterSatisfies(triggers, IsPinned, ps[i]);
    }
    ps
  }

  /** One range of `pinnedRanges`: start, end and centre divided by `maxScroll`. */
  function Normalize(st: ScrollTrigger, maxScroll: real): (r: PinnedRange)
    requires maxScroll != 0.0
    ensures r.start * maxScroll == st.start && r.end * maxScroll == EndOrStart(st)
    ensures r.center == (r.start + r.end) / 2.0
    ensures st.end.None? ==> r.end == r.start && r.center == r.start
  {
    var e := EndOrStart(st);
    PinnedRange(st.start / maxScroll, e / maxScroll, (st.start + (e - st.start) * 0.5) / maxScroll)
  }

  /** `SortedPinned` is empty exactly when no trigger pins. */
  lemma NoPinnedIff(triggers: seq<ScrollTrigger>)
    ensures |SortedPinned(triggers)| == 0 <==> forall i :: 0 <= i < |triggers| ==> !triggers[i].pin
  {
    var pinned := Sequences.Filter(triggers, IsPinned);
    Sequences.FilterEmpty(triggers, IsPinned);
    assert |multiset(SortedPinned(triggers))| == |pinned|;
  }

  /** Every pinned trigger normalised by the same `maxScroll`. */
  function NormalizeAll(ps: seq<ScrollTrigger>, maxScroll: real): (rs: seq<PinnedRange>)
    requires maxScroll != 0.0
    ensures |rs| == |ps|
    ensures forall i :: 0 <= i < |ps| ==> rs[i] == Normalize(ps[i], maxScroll)
  {
    seq(|ps|, i requires 0 <= i < |ps| => Normalize(ps[i], maxScroll))
  }

  /** Dividing by a positive `maxScroll` keeps the order of the starts. */
  lemma NormalizeAllSorted(ps: seq<ScrollTrigger>, maxScroll: real)
    requires maxScroll != 0.0
    requires forall i, j :: 0 <= i < j < |ps| ==> ps[i].start <= ps[j].start
    ensures var rs := NormalizeAll(ps, maxScroll);
      maxScroll > 0.0 ==> forall i, j :: 0 <= i < j < |rs| ==> rs[i].start <= rs[j].start
  {
    var rs := NormalizeAll(ps, maxScroll);
    if maxScroll > 0.0 {
      forall i, j | 0 <= i < j < |rs|
        ensures rs[i].start <= rs[j].start
      {
        DivMonotone(ps[i].start, ps[j].start, maxScroll);
      }
    }
  }

  /** The ranges the snap is built from, or None when no snap is registered:
      `maxScroll` is zero or no trigger pins. */
  function BuildRanges(triggers: seq<ScrollTrigger>, maxScroll: real): (r: Option<seq<PinnedRange>>)
    ensures r.None? <==> maxScroll == 0.0 || forall i :: 0 <= i < |triggers| ==> !triggers[i].pin
    ensures r.Some? ==> |r.value| == |SortedPinned(triggers)| > 0
    ensures r.Some? ==> forall i :: 0 <= i < |r.value| ==>
              r.value[i] == Normalize(SortedPinned(triggers)[i], maxScroll)
    ensures r.Some? && maxScroll > 0.0 ==>
              forall i, j :: 0 <= i < j < |r.value| ==> r.value[i].start <= r.value[j].start
  {
    var ps := SortedPinned(triggers);
    NoPinnedIff(triggers);
    if maxScroll == 0.0 || |ps| == 0 then None
    else
      NormalizeAllSorted(ps, maxScroll);
      Some(NormalizeAll(ps, maxScroll))
  }

  lemma DivMonotone(a: real, b: real, m: real)
    requires a <= b && m > 0.0
    ensures a / m <= b / m
  {
  }

  /** The band test of `pinnedRanges.some(...)`. */
  predicate InBand(r: PinnedRange, value: real)
  {
    r.start - SnapBuffer <= value <= r.end + SnapBuffer
  }

  predicate InPinned(ranges: seq<PinnedRange>, value: real)
  {
    exists i :: 0 <= i < |ranges| && InBand(ranges[i], value)
  }

  /** The `reduce` over all ranges: a centre replaces the running one only when
      it is strictly closer to `value`. */
  function Closest(ranges: seq<PinnedRange>, value: real, closest: real): (r: real)
    ensures Dist(r, value) <= Dist(closest, value)
    ensures forall j :: 0 <= j < |ranges| ==> Dist(r, value) <= Dist(ranges[j].center, value)
    ensures r == closest || exists k :: 0 <= k < |ranges| && r == ranges[k].center
  {
    if ranges == [] then closest
    else
      var next := if Dist(ranges[0].center, value) < Dist(closest, value) then ranges[0].center else closest;
      Closest(ranges[1..], value, next)
  }

  /** `k` is the first range whose centre is at minimal distance from `value`. */
  predicate FirstNearest(ranges: seq<PinnedRange>, value: real, k: int)
  {
    && 0 <= k < |ranges|
    && (forall j :: 0 <= j < |ranges| ==> Dist(ranges[k].center, value) <= Dist(ranges[j].center, value))
    && (forall j :: 0 <= j < k ==> Dist(ranges[j].center, value) > Dist(ranges[k].center, value))
  }

  /** No centre of `ranges` is strictly closer to `value` than `c`. */
  predicate NoneCloser(ranges: seq<PinnedRange>, value: real, c: real)
  {
    forall j :: 0 <= j < |ranges| ==> Dist(ranges[j].center, value) >= Dist(c, value)
  }

  /** What the fold computes: either no centre beats the initial value, or the
      result is the first centre at minimal distance and it beats the initial one. */
  lemma {:induction false} ClosestFold(ranges: seq<PinnedRange>, value: real, closest: real)
    ensures var r := Closest(ranges, value, closest);
      || (r == closest && NoneCloser(ranges, value, closest))
      || (exists k :: FirstNearest(ranges, value, k) && r == ranges[k].center && Dist(r, value) < Dist(closest, value))
  {
    if ranges != [] {
      var c0 := ranges[0].center;
      var tail := ranges[1..];
      var next := if Dist(c0, value) < Dist(closest, value) then c0 else closest;
      ClosestFold(tail, value, next);
      var r := Closest(tail, value, next);
      assert Closest(ranges, value, closest) == r;
      if r == next && NoneCloser(tail, value, next) {
        if Dist(c0, value) < Dist(closest, value) {
          HeadIsFirstNearest(ranges, value);
        } else {
          NoneCloserCons(ranges, value, closest);
        }
      } else {
        var k :| FirstNearest(tail, value, k) && r == tail[k].center && Dist(r, value) < Dist(next, value);
        FirstNearestShift(ranges, value, k);
      }
    }
  }

  lemma HeadIsFirstNearest(ranges: seq<PinnedRange>, value: real)
    requires ranges != [] && NoneCloser(ranges[1..], value, ranges[0].center)
    ensures FirstNearest(ranges, value, 0)
  {
    forall j | 0 <= j < |ranges|
      ensures Dist(ranges[0].center, value) <= Dist(ranges[j].center, value)
    {
      if j > 0 { assert ranges[j] == ranges[1..][j - 1]; }
    }
  }

  lemma NoneCloserCons(ranges: seq<PinnedRange>, value: real, c: real)
    requires ranges != [] && Dist(ranges[0].center, value) >= Dist(c, value)
    requires NoneCloser(ranges[1..], value, c)
    ensures NoneCloser(ranges, value, c)
  {
    forall j | 0 <= j < |ranges|
      ensures Dist(ranges[j].center, value) >= Dist(c, value)
    {
      if j > 0 { assert ranges[j] == ranges[1..][j - 1]; }
    }
  }

  /** A first nearest centre of the tail that is strictly closer than the
      head is the first nearest of the whole list. */
  lemma FirstNearestShift(ranges: seq<PinnedRange>, value: real, k: int)
    requires ranges != [] && FirstNearest(ranges[1..], value, k)
    requires Dist(ranges[1..][k].center, value) < Dist(ranges[0].center, value)
    ensures FirstNearest(ranges, value, k + 1)
  {
    var tail := ranges[1..];
    forall j | 0 <= j < |ranges|
      ensures Dist(ranges[k + 1].center, value) <= Dist(ranges[j].center, value)
    {
      if j > 0 { assert ranges[j] == tail[j - 1]; }
    }
    forall j | 0 <= j < k + 1
      ensures Dist(ranges[j].center, value) > Dist(ranges[k + 1].center, value)
    {
      if j > 0 { assert ranges[j] == tail[j - 1]; }
    }
  }

  /** The `snapTo` callback. */
  function SnapTo(ranges: seq<PinnedRange>, value: real): (r: real)
    ensures !InPinned(ranges, value) ==> r == value
    ensures InPinned(ranges, value) ==> exists k :: FirstNearest(ranges, value, k) && r == ranges[k].center
  {
    if !InPinned(ranges, value) then value
    else
      var first := if |ranges| > 0 then ranges[0].center else 0.0;
      ClosestFold(ranges, value, first);
      assert |ranges| > 0;
      var r := Closest(ranges, value, first);
      assert r == first && NoneCloser(ranges, value, first) ==> FirstNearest(ranges, value, 0);
      r
  }

  /** Ties go to the earlier range: the snap lands on the centre of the first
      range at minimal distance, so of two ranges whose centres are equally far
      from `value`, the one with the smaller start (the earlier one after the
      sort) wins. */
  lemma SnapTieKeepsEarlier(ranges: seq<PinnedRange>, value: real, i: nat)
    requires InPinned(ranges, value)
    requires FirstNearest(ranges, value, i)
    ensures SnapTo(ranges, value) == ranges[i].center
  {
    var k :| FirstNearest(ranges, value, k) && SnapTo(ranges, value) == ranges[k].center;
    assert FirstNearest(ranges, value, k);
  }

  /** Two pinned sections A = [0, 0.2] and B = [0.5, 0.7] of the scroll range:
      0.45 lies in neither band and is left alone, 0.19 snaps to A's centre and
      0.49, inside B's band, snaps to B's centre. */
  lemma WorkedExample()
    ensures var rs := [PinnedRange(0.0, 0.2, 0.1), PinnedRange(0.5, 0.7, 0.6)];
      SnapTo(rs, 0.45) == 0.45 && SnapTo(rs, 0.19) == 0.1 && SnapTo(rs, 0.49) == 0.6
  {
    var rs := [PinnedRange(0.0, 0.2, 0.1), PinnedRange(0.5, 0.7, 0.6)];
    assert InBand(rs[0], 0.19) && InBand(rs[1], 0.49);
    SnapTieKeepsEarlier(rs, 0.19, 0);
    SnapTieKeepsEarlier(rs, 0.49, 1);
  }

  /** The nearest centre is sought among all ranges, not only those whose band
      contains the value: 0.5 lies only in the band of [0, 0.5] yet snaps to
      the centre of [0.53, 0.54]. */
  lemma SnapSearchesAllRanges()
    ensures var rs := [PinnedRange(0.0, 0.5, 0.25), PinnedRange(0.53, 0.54, 0.535)];
      InBand(rs[0], 0.5) && !InBand(rs[1], 0.5) && SnapTo(rs, 0.5) == 0.535
  {
    var rs := [PinnedRange(0.0, 0.5, 0.25), PinnedRange(0.53, 0.54, 0.535)];
    assert InBand(rs[0], 0.5);
    SnapTieKeepsEarlier(rs, 0.5, 1);
  }

  /** With nothing pinned, or nothing to scroll, no snap is registered. */
  lemma NoSnapWithoutPinnedRanges(triggers: seq<ScrollTrigger>, maxScroll: real)
    requires maxScroll == 0.0 || forall i :: 0 <= i < |triggers| ==> !triggers[i].pin
    ensures BuildRanges(triggers, maxScroll) == None
  {
  }

  /** Of three triggers registered as pinned, unpinned, pinned, where the
      last starts first, the snap keeps the two pinned ones in start order. */
  lemma PinnedOrderOfThree(a: ScrollTrigger, b: ScrollTrigger, c: ScrollTrigger)
    requires a.pin && !b.pin && c.pin && c.start < a.start
    ensures SortedPinned([a, b, c]) == [c, a]
  {
    PinnedOfThree(a, b, c);
    var ac := [a, c];
    assert ac[1..] == [c];
    assert Sorting.SortBy([c], StartOf) == [c] by {
      assert [c][1..] == [];
    }
    assert Sorting.Insert(a, [c], StartOf) == [c, a] by {
      assert [c][1..] == [];
    }
  }

  lemma PinnedOfThree(a: ScrollTrigger, b: ScrollTrigger, c: ScrollTrigger)
    requires a.pin && !b.pin && c.pin
    ensures Sequences.Filter([a, b, c], IsPinned) == [a, c]
  {
    assert [a, b, c] == [a] + [b, c] && [b, c] == [b] + [c] && [c] == [c] + [];
    Sequences.FilterCons(c, [], IsPinned);
    Sequences.FilterCons(b, [c], IsPinned);
    Sequences.FilterCons(a, [b, c], IsPinned);
  }

  lemma RangesOfThree(a: ScrollTrigger, b: ScrollTrigger, c: ScrollTrigger, maxScroll: real)
    requires a.pin && !b.pin && c.pin && c.start < a.start && maxScroll != 0.0
    ensures BuildRanges([a, b, c], maxScroll) == Some([Normalize(c, maxScroll), Normalize(a, maxScroll)])
  {
    PinnedOrderOfThree(a, b, c);
    var rs := NormalizeAll([c, a], maxScroll);
    assert BuildRanges([a, b, c], maxScroll) == Some(rs);
    assert rs[0] == Normalize(c, maxScroll) && rs[1] == Normalize(a, maxScroll);
    assert rs == [Normalize(c, maxScroll), Normalize(a, maxScroll)];
  }

  /** Example: pixel triggers registered out of document order, with one
      unpinned trigger, over 1000 pixels of scroll. */
  const ExampleTriggers: seq<ScrollTrigger> :=
    [ScrollTrigger(500.0, Some(700.0), true),
     ScrollTrigger(200.0, Some(500.0), false),
     ScrollTrigger(0.0, Some(200.0), true)]

  lemma BuildRangesExample()
    ensures BuildRanges(ExampleTriggers, 1000.0) == Some([PinnedRange(0.0, 0.2, 0.1), PinnedRange(0.5, 0.7, 0.6)])
  {
    var ts := ExampleTriggers;
    RangesOfThree(ts[0], ts[1], ts[2], 1000.0);
    assert [ts[0], ts[1], ts[2]] == ts;
    assert Normalize(ts[2], 1000.0) == PinnedRange(0.0, 0.2, 0.1);
    assert Normalize(ts[0], 1000.0) == PinnedRange(0.5, 0.7, 0.6);
  }
}
