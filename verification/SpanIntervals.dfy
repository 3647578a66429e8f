/**
The sorted interval list of one trace line and its two-neighbour overlap test
(`SpanLayoutContainer` of scripts/convert_otel_2_perfetto.py).
 */
module SpanIntervals {
  datatype Interval = Interval(start: int, end: int)

  /** Python's order on (start, end) pairs. */
  predicate Less(a: Interval, b: Interval) {
    a.start < b.start || (a.start == b.start && a.end < b.end)
  }

  ghost predicate Sorted(xs: seq<Interval>) {
    forall i, j :: 0 <= i < j < |xs| ==> !Less(xs[j], xs[i])
  }

  predicate Overlap(a: Interval, start: int, end: int) {
    a.start < end && start < a.end
  }

  /** The reference test: some stored interval overlaps [start, end). */
  ghost predicate OverlapsAny(xs: seq<Interval>, start: int, end: int) {
    exists i :: 0 <= i < |xs| && Overlap(xs[i], start, end)
  }

  /** `bisect_left(xs, (start, -inf))` on a sorted list. */
  function BisectStart(xs: seq<Interval>, start: int, from: nat := 0): (k: nat)
    requires Sorted(xs) && from <= |xs|
    requires from > 0 ==> xs[from - 1].start < start
    ensures k <= |xs|
    ensures forall i :: 0 <= i < k ==> xs[i].start < start
    ensures forall i :: k <= i < |xs| ==> start <= xs[i].start
    decreases |xs| - from
  {
    assert forall i :: 0 <= i < from - 1 ==> !Less(xs[from - 1], xs[i]);
    if from == |xs| then from
    else if start <= xs[from].start then
      assert forall i :: from < i < |xs| ==> !Less(xs[i], xs[from]);
      from
    else BisectStart(xs, start, from + 1)
  }

  /** `bisect_left(xs, x)` on a sorted list. */
  function BisectLeft(xs: seq<Interval>, x: Interval, from: nat := 0): (k: nat)
    requires Sorted(xs) && from <= |xs|
    requires from > 0 ==> Less(xs[from - 1], x)
    ensures k <= |xs|
    ensures forall i :: 0 <= i < k ==> Less(xs[i], x)
    ensures forall i :: k <= i < |xs| ==> !Less(xs[i], x)
    decreases |xs| - from
  {
    assert forall i :: 0 <= i < from - 1 ==> !Less(xs[from - 1], xs[i]);
    if from == |xs| then from
    else if !Less(xs[from], x) then
      assert forall i :: from < i < |xs| ==> !Less(xs[i], xs[from]);
      from
    else BisectLeft(xs, x, from + 1)
  }

  /** The test as written: only the neighbours of the insertion point are looked at. */
  predicate NeighbourTest(xs: seq<Interval>, start: int, end: int)
    requires Sorted(xs)
  {
    var k := BisectStart(xs, start);
    (k > 0 && xs[k - 1].end > start) || (k < |xs| && xs[k].start < end)
  }

  function Insort(xs: seq<Interval>, x: Interval): (r: seq<Interval>)
    requires Sorted(xs)
    ensures multiset(r) == multiset(xs) + multiset{x}
  {
    var k := BisectLeft(xs, x);
    assert xs == xs[..k] + xs[k..];
    xs[..k] + [x] + xs[k..]
  }

  lemma InsortIsSorted(xs: seq<Interval>, x: Interval)
    requires Sorted(xs)
    ensures Sorted(Insort(xs, x))
  {
    var k, r := BisectLeft(xs, x), Insort(xs, x);
    forall i, j | 0 <= i < j < |r| ensures !Less(r[j], r[i]) {
      if i == k {
        assert r[j] == xs[j - 1];
      } else if j == k {
        assert r[i] == xs[i];
      } else {
        assert r[i] == xs[if i < k then i else i - 1] && r[j] == xs[if j < k then j else j - 1];
      }
    }
  }

  // ---- When the two tests agree ----

  /** Every interval of no length lies inside a longer one. */
  ghost predicate EmptyOnesCovered(xs: seq<Interval>) {
    forall i :: 0 <= i < |xs| && xs[i].end <= xs[i].start ==>
      exists j :: 0 <= j < |xs| && xs[j].start <= xs[i].start < xs[j].end
  }

  function Max(a: int, b: int): int { if a < b then b else a }

  /** The first instant after interval `j` at which `j` no longer reports an overlap. */
  function FreeAfter(x: Interval): int { Max(x.start + 1, x.end) }

  /** No earlier interval outlasts a later one into the gap that follows it. */
  ghost predicate NoneHidden(xs: seq<Interval>) {
    forall i, j :: 0 <= i < j < |xs| ==>
      xs[i].end <= FreeAfter(xs[j]) || NextStartsBy(xs, j, FreeAfter(xs[j]))
  }

  ghost predicate NextStartsBy(xs: seq<Interval>, j: nat, t: int) {
    j + 1 < |xs| && xs[j + 1].start <= t
  }

  ghost predicate TestsAgree(xs: seq<Interval>)
    requires Sorted(xs)
  {
    forall s, e :: s < e ==> (NeighbourTest(xs, s, e) <==> OverlapsAny(xs, s, e))
  }

  /** The neighbour test is exact for every query if and only if nothing stored is hidden or uncovered. */
  lemma NeighbourTestExact(xs: seq<Interval>)
    requires Sorted(xs)
    ensures TestsAgree(xs) <==> EmptyOnesCovered(xs) && NoneHidden(xs)
  {
    if EmptyOnesCovered(xs) && NoneHidden(xs) {
      forall s, e | s < e ensures NeighbourTest(xs, s, e) <==> OverlapsAny(xs, s, e) {
        ExactOnQuery(xs, s, e);
      }
    }
    if TestsAgree(xs) {
      forall i | 0 <= i < |xs| && xs[i].end <= xs[i].start
        ensures exists j :: 0 <= j < |xs| && xs[j].start <= xs[i].start < xs[j].end
      {
        AgreementCovers(xs, i);
      }
      forall i, j | 0 <= i < j < |xs|
        ensures xs[i].end <= FreeAfter(xs[j]) || NextStartsBy(xs, j, FreeAfter(xs[j]))
      {
        AgreementHidesNone(xs, i, j);
      }
    }
  }

  lemma ExactOnQuery(xs: seq<Interval>, s: int, e: int)
    requires Sorted(xs) && EmptyOnesCovered(xs) && NoneHidden(xs) && s < e
    ensures NeighbourTest(xs, s, e) <==> OverlapsAny(xs, s, e)
  {
    var k := BisectStart(xs, s);
    if k > 0 && xs[k - 1].end > s {
      assert Overlap(xs[k - 1], s, e);
    } else if k < |xs| && xs[k].start < e {
      NextOverlaps(xs, s, e, k);
    } else {
      EarlierHaveEnded(xs, k, s);
      forall i: nat | i < |xs| ensures !Overlap(xs[i], s, e) { NothingMissed(xs, s, e, k, i); }
    }
  }

  lemma EarlierHaveEnded(xs: seq<Interval>, k: nat, s: int)
    requires NoneHidden(xs) && k <= |xs| && (k < |xs| ==> s < xs[k].start)
    requires k > 0 ==> xs[k - 1].start < s && xs[k - 1].end <= s
    ensures forall i :: 0 <= i < k ==> xs[i].end <= s
  {
    forall i: nat | i + 1 < k ensures xs[i].end <= s { EarlierHasEnded(xs, i, k - 1, s); }
  }

  lemma NextOverlaps(xs: seq<Interval>, s: int, e: int, k: nat)
    requires EmptyOnesCovered(xs) && k < |xs| && s <= xs[k].start < e
    ensures OverlapsAny(xs, s, e)
  {
    if xs[k].end <= xs[k].start {
      var j :| 0 <= j < |xs| && xs[j].start <= xs[k].start < xs[j].end;
      assert Overlap(xs[j], s, e);
    } else {
      assert Overlap(xs[k], s, e);
    }
  }

  lemma NothingMissed(xs: seq<Interval>, s: int, e: int, k: nat, i: nat)
    requires Sorted(xs) && i < |xs| && k <= |xs|
    requires i < k ==> xs[i].end <= s
    requires k < |xs| ==> e <= xs[k].start
    ensures !Overlap(xs[i], s, e)
  {
    if i >= k { LaterStartsLater(xs, k, i); }
  }

  lemma LaterStartsLater(xs: seq<Interval>, k: nat, i: nat)
    requires Sorted(xs) && k <= i < |xs|
    ensures xs[k].start <= xs[i].start
  {
    if k < i { assert !Less(xs[i], xs[k]); }
  }

  lemma EarlierHasEnded(xs: seq<Interval>, i: nat, j: nat, s: int)
    requires NoneHidden(xs) && i < j < |xs|
    requires FreeAfter(xs[j]) <= s && !NextStartsBy(xs, j, s)
    ensures xs[i].end <= s
  {
    assert !NextStartsBy(xs, j, FreeAfter(xs[j]));
  }

  lemma AgreementCovers(xs: seq<Interval>, i: nat)
    requires Sorted(xs) && TestsAgree(xs) && i < |xs| && xs[i].end <= xs[i].start
    ensures exists j :: 0 <= j < |xs| && xs[j].start <= xs[i].start < xs[j].end
  {
    var a := xs[i].start;
    var k := BisectStart(xs, a);
    assert k <= i && xs[k].start == a by { assert k < i ==> !Less(xs[i], xs[k]); }
    assert NeighbourTest(xs, a, a + 1);
    var j :| 0 <= j < |xs| && Overlap(xs[j], a, a + 1);
  }

  lemma AgreementHidesNone(xs: seq<Interval>, i: nat, j: nat)
    requires Sorted(xs) && TestsAgree(xs) && i < j < |xs|
    ensures xs[i].end <= FreeAfter(xs[j]) || NextStartsBy(xs, j, FreeAfter(xs[j]))
  {
    var m := FreeAfter(xs[j]);
    if !NextStartsBy(xs, j, m) {
      var k := BisectStart(xs, m);
      assert k == j + 1 by { GapAfter(xs, j, m); }
      assert !NeighbourTest(xs, m, m + 1);
      assert !Overlap(xs[i], m, m + 1);
      assert !Less(xs[j], xs[i]);
    }
  }

  lemma GapAfter(xs: seq<Interval>, j: nat, m: int)
    requires Sorted(xs) && j < |xs| && xs[j].start < m && !NextStartsBy(xs, j, m)
    ensures BisectStart(xs, m) == j + 1
  {
    var k := BisectStart(xs, m);
    assert j < k;
    assert !(j + 1 < k);
  }

  /**
  What the neighbours do not show: they leave the query free, and an interval
  further to the left has not ended when the query starts.
   */
  ghost predicate HiddenOverlap(xs: seq<Interval>, start: int, end: int)
    requires Sorted(xs)
  {
    var k := BisectStart(xs, start);
    && (k > 0 ==> xs[k - 1].end <= start)
    && (k < |xs| ==> end <= xs[k].start)
    && exists i :: 0 <= i < k - 1 && start < xs[i].end
  }

  /** One query: the test misses an overlap exactly in that situation. */
  lemma MissesIff(xs: seq<Interval>, start: int, end: int)
    requires Sorted(xs) && start < end
    ensures !NeighbourTest(xs, start, end) && OverlapsAny(xs, start, end) <==> HiddenOverlap(xs, start, end)
  {
    var k := BisectStart(xs, start);
    if HiddenOverlap(xs, start, end) {
      var i :| 0 <= i < k - 1 && start < xs[i].end;
      assert Overlap(xs[i], start, end);
    }
    if !NeighbourTest(xs, start, end) && OverlapsAny(xs, start, end) {
      var i :| 0 <= i < |xs| && Overlap(xs[i], start, end);
      assert i > k ==> !Less(xs[i], xs[k]);
      assert i < k - 1;
    }
  }

  // ---- Lists on which each interval ends before the next one starts ----

  /** The lists that the layout builds when every span is tested; an interval may end before its own start. */
  ghost predicate Chained(xs: seq<Interval>) {
    forall i, j :: 0 <= i < j < |xs| ==> xs[i].end <= xs[j].start
  }

  /** On such a list nothing is hidden: a query that passes the test overlaps nothing, whatever its length. */
  lemma ChainedHidesNone(xs: seq<Interval>, start: int, end: int)
    requires Sorted(xs) && Chained(xs) && !NeighbourTest(xs, start, end)
    ensures !OverlapsAny(xs, start, end)
  {
    var k := BisectStart(xs, start);
    forall i | 0 <= i < |xs| ensures !Overlap(xs[i], start, end) {
      if i < k - 1 {
        assert xs[i].end <= xs[k - 1].start;
      } else if k < i {
        assert !Less(xs[i], xs[k]);
      }
    }
  }

  /** An interval that passes the test can be inserted, whatever its length. */
  lemma InsortKeepsChained(xs: seq<Interval>, x: Interval)
    requires Sorted(xs) && Chained(xs) && !NeighbourTest(xs, x.start, x.end)
    ensures Chained(Insort(xs, x))
  {
    var k, at := BisectLeft(xs, x), BisectStart(xs, x.start);
    forall i | 0 <= i < |xs| ensures if i < k then xs[i].end <= x.start else x.end <= xs[i].start {
      if i < at - 1 {
        assert xs[i].end <= xs[at - 1].start;
      } else if at < i {
        assert !Less(xs[i], xs[at]);
      }
    }
    var r := Insort(xs, x);
    assert forall i :: 0 <= i < |r| ==> r[i] == if i < k then xs[i] else if i == k then x else xs[i - 1];
  }

  ghost predicate Disjoint(xs: seq<Interval>) {
    (forall i :: 0 <= i < |xs| ==> xs[i].start < xs[i].end) && Chained(xs)
  }

  /** If all intervals have positive length as well, the fast test is the naive one. */
  lemma DisjointIsExact(xs: seq<Interval>)
    requires Disjoint(xs)
    ensures Sorted(xs) && TestsAgree(xs)
  {
    NeighbourTestExact(xs);
  }

  /** A span of no length hides the long interval before it from the neighbour test. */
  lemma EmptySpanHidesOverlap()
    ensures var xs := [Interval(0, 10), Interval(3, 3)];
            Sorted(xs) && !NeighbourTest(xs, 5, 6) && OverlapsAny(xs, 5, 6)
  {
    var xs := [Interval(0, 10), Interval(3, 3)];
    assert Overlap(xs[0], 5, 6);
    assert BisectStart(xs, 5, 1) == 2;
  }
}
