/**
Layouts with spans whose start and end are equal after the trim of a microsecond. Such
a span stays on the sticky line without a test; it can hide a long one from the overlap
test, and then two spans share a line while both are live
(scripts/convert_otel_2_perfetto.py).
 */
module TraceHiding {
  import opened Sorting
  import opened SpanIntervals
  import opened TraceLayout
  import opened TraceOptimality
  import opened TraceOrder

  // ---- One placement ----

  lemma PlaceTracked(b: Board, s: Span)
    requires Tracked(b)
    ensures Tracked(Place(b, s))
  {
    forall p, l ensures Records(Place(b, s).placed, p, l, Lane(Place(b, s), p, l)) {
      PlaceRecordsLane(b, s, p, l);
    }
  }

  /** The line chosen for `s` hides a span that has not ended. */
  ghost predicate Hidden(b: Board, s: Span)
    requires Valid(b)
  {
    HiddenOverlap(Lane(b, s.pid, ChosenLine(b, s)), s.start, s.end)
  }

  /** The new span overlaps one of positive length on its line. */
  ghost predicate Collides(b: Board, s: Span)
    requires Valid(b)
  {
    exists i :: 0 <= i < |b.placed| && Positive(b.placed[i].span) && Clash(b.placed[i], Placed(s, ChosenLine(b, s)))
  }

  /**
  Placing a span of positive length creates an overlap exactly when the chosen line
  hides one. This holds for every board a run can reach, whatever was placed before.
   */
  lemma PlaceCollidesIff(b: Board, s: Span)
    requires Tracked(b) && Positive(s)
    ensures Collides(b, s) <==> Hidden(b, s)
    ensures (exists i :: 0 <= i < |b.placed| && Clash(b.placed[i], Placed(s, ChosenLine(b, s)))) <==> Hidden(b, s)
  {
    var l := ChosenLine(b, s);
    var xs := Lane(b, s.pid, l);
    assert Records(b.placed, s.pid, l, xs);
    ChosenLinePasses(b, s);
    MissesIff(xs, s.start, s.end);
    if Hidden(b, s) {
      var k :| 0 <= k < BisectStart(xs, s.start) - 1 && s.start < xs[k].end;
      assert xs[k] in xs;
      var i :| 0 <= i < |b.placed| && b.placed[i] == Placed(Span(s.pid, xs[k].start, xs[k].end), l);
      assert Clash(b.placed[i], Placed(s, l)) && Positive(b.placed[i].span);
    }
    forall i | 0 <= i < |b.placed| && Clash(b.placed[i], Placed(s, l)) ensures OverlapsAny(xs, s.start, s.end) {
      var q := b.placed[i].span;
      assert b.placed[i] == Placed(Span(s.pid, q.start, q.end), l) && b.placed[i] in b.placed;
      assert Interval(q.start, q.end) in xs;
      var k :| 0 <= k < |xs| && xs[k] == Interval(q.start, q.end);
      assert Overlap(xs[k], s.start, s.end);
    }
  }

  // ---- Whole runs ----

  /** No two spans of positive length overlap on a line. */
  ghost predicate Apart(placed: seq<Placed>) {
    forall i, j :: 0 <= i < j < |placed| && Positive(placed[i].span) && Positive(placed[j].span) ==>
      !Clash(placed[i], placed[j])
  }

  lemma ApartAppend(placed: seq<Placed>, q: Placed)
    ensures Apart(placed + [q]) <==>
      Apart(placed) && (Positive(q.span) ==>
        forall i :: 0 <= i < |placed| && Positive(placed[i].span) ==> !Clash(placed[i], q))
  {
    var r := placed + [q];
    assert forall i :: 0 <= i < |placed| ==> r[i] == placed[i];
    assert r[|placed|] == q;
  }

  lemma PlaceApartIff(b: Board, s: Span)
    requires Tracked(b)
    ensures Apart(Place(b, s).placed) <==> Apart(b.placed) && (Positive(s) ==> !Hidden(b, s))
  {
    PlaceRecords(b, s);
    ApartAppend(b.placed, Placed(s, ChosenLine(b, s)));
    if Positive(s) { PlaceCollidesIff(b, s); }
  }

  /** Along the placements, no line chosen for a span of positive length hides one. */
  ghost predicate Exposed(b: Board, spans: seq<Span>)
    requires Valid(b)
    decreases |spans|
  {
    spans == [] ||
    var front, s := PlaceAll(b, spans[..|spans| - 1]), spans[|spans| - 1];
    Exposed(b, spans[..|spans| - 1]) && (Positive(s) ==> !Hidden(front, s))
  }

  lemma {:induction false} PlaceAllApartIff(b: Board, spans: seq<Span>)
    requires Tracked(b)
    ensures Tracked(PlaceAll(b, spans))
    ensures Apart(PlaceAll(b, spans).placed) <==> Apart(b.placed) && Exposed(b, spans)
    decreases |spans|
  {
    if spans != [] {
      var n := |spans| - 1;
      PlaceAllApartIff(b, spans[..n]);
      PlaceTracked(PlaceAll(b, spans[..n]), spans[n]);
      PlaceApartIff(PlaceAll(b, spans[..n]), spans[n]);
    }
  }

  ghost predicate AllExposed(b: Board, requests: seq<seq<Span>>)
    requires Valid(b)
    decreases |requests|
  {
    requests == [] ||
    var n := |requests| - 1;
    AllExposed(b, requests[..n]) && Exposed(NewRequest(PlaceRequests(b, requests[..n])), requests[n])
  }

  lemma NewRequestTracked(b: Board)
    requires Tracked(b)
    ensures Tracked(NewRequest(b))
  {
    forall p, l ensures Lane(NewRequest(b), p, l) == Lane(b, p, l) {}
  }

  lemma {:induction false} PlaceRequestsApartIff(b: Board, requests: seq<seq<Span>>)
    requires Tracked(b)
    ensures Tracked(PlaceRequests(b, requests))
    ensures Apart(PlaceRequests(b, requests).placed) <==> Apart(b.placed) && AllExposed(b, requests)
    decreases |requests|
  {
    if requests != [] {
      var n := |requests| - 1;
      PlaceRequestsApartIff(b, requests[..n]);
      NewRequestTracked(PlaceRequests(b, requests[..n]));
      PlaceAllApartIff(NewRequest(PlaceRequests(b, requests[..n])), requests[n]);
    }
  }

  /**
  The whole layout, for spans of every length: no two spans of positive length
  overlap on a line if and only if no placement met a hidden span.
   */
  lemma LayoutIsApartIff(engine: seq<seq<Span>>, smg: seq<Span>)
    requires Generate(engine, smg).Success?
    ensures Valid(EMPTY)
    ensures Apart(Generate(engine, smg).value.placed)
       <==> AllExposed(EMPTY, Ordered(engine))
            && Exposed(NewRequest(PlaceRequests(EMPTY, Ordered(engine))), SortBy((s: Span) => s.start, smg))
  {
    EmptyIsSafe();
    PlaceRequestsApartIff(EMPTY, Ordered(engine));
    NewRequestTracked(PlaceRequests(EMPTY, Ordered(engine)));
    PlaceAllApartIff(NewRequest(PlaceRequests(EMPTY, Ordered(engine))), SortBy((s: Span) => s.start, smg));
  }

  // ---- A layout with an overlap ----

  /** The process is on its first line, which holds `xs`, and these are the records. */
  ghost predicate OnFirst(b: Board, p: Pid, xs: seq<Interval>, placed: seq<Placed>) {
    Valid(b) && p in b.status && b.status[p] == 1 && Lane(b, p, 1) == xs && b.placed == placed
  }

  /** A board at the start of a run. */
  ghost predicate Untouched(b: Board) { Valid(b) && b.graph == map[] && b.status == map[] && b.placed == [] }

  lemma OpensFirst(b: Board, spans: seq<Span>)
    requires Untouched(b) && |spans| == 1
    ensures OnFirst(PlaceAll(b, spans), spans[0].pid, [Interval(spans[0].start, spans[0].end)], [Placed(spans[0], 1)])
  {
    PlaceOne(b, spans);
    PlaceRecords(b, spans[0]);
    PlaceChangesOneLane(b, spans[0], spans[0].pid, 1);
  }

  lemma StaysFirst(b: Board, s: Span, xs: seq<Interval>, placed: seq<Placed>)
    requires OnFirst(b, s.pid, xs, placed) && (s.start == s.end || !NeighbourTest(xs, s.start, s.end))
    ensures Sorted(xs) && OnFirst(Place(b, s), s.pid, Insort(xs, Interval(s.start, s.end)), placed + [Placed(s, 1)])
  {
    PlaceRecords(b, s);
    PlaceChangesOneLane(b, s, s.pid, 1);
  }

  lemma EmptyStays(b: Board, long: Span, empty: Span)
    requires OnFirst(b, long.pid, [Interval(long.start, long.end)], [Placed(long, 1)])
    requires empty.pid == long.pid && long.start < empty.start == empty.end
    ensures OnFirst(Place(b, empty), long.pid, [Interval(long.start, long.end), Interval(empty.start, empty.end)],
                    [Placed(long, 1), Placed(empty, 1)])
  {
    StaysFirst(b, empty, [Interval(long.start, long.end)], [Placed(long, 1)]);
    assert BisectLeft([Interval(long.start, long.end)], Interval(empty.start, empty.end)) == 1;
  }

  lemma LastStays(b: Board, long: Span, empty: Span, last: Span)
    requires OnFirst(b, long.pid, [Interval(long.start, long.end), Interval(empty.start, empty.end)],
                     [Placed(long, 1), Placed(empty, 1)])
    requires last.pid == long.pid && long.start < empty.start == empty.end < last.start
    ensures Place(b, last).placed == [Placed(long, 1), Placed(empty, 1), Placed(last, 1)]
  {
    var xs := [Interval(long.start, long.end), Interval(empty.start, empty.end)];
    assert BisectStart(xs, last.start) == 2;
    StaysFirst(b, last, xs, [Placed(long, 1), Placed(empty, 1)]);
  }

  /** A long span, one without length inside it, and a later one. */
  ghost predicate Hiding(spans: seq<Span>) {
    && |spans| == 3 && spans[0].pid == spans[1].pid == spans[2].pid
    && spans[0].start < spans[1].start == spans[1].end < spans[2].start < spans[2].end
    && spans[2].start < spans[0].end
  }

  lemma PlaceEmpty(b: Board, spans: seq<Span>)
    requires Untouched(b) && Hiding(spans)
    ensures OnFirst(PlaceAll(b, spans[..2]), spans[0].pid,
                    [Interval(spans[0].start, spans[0].end), Interval(spans[1].start, spans[1].end)],
                    [Placed(spans[0], 1), Placed(spans[1], 1)])
  {
    OpensFirst(b, spans[..1]);
    EmptyStays(PlaceAll(b, spans[..1]), spans[0], spans[1]);
    PlaceNext(b, spans, 1);
  }

  lemma PlaceHiding(b: Board, spans: seq<Span>)
    requires Untouched(b) && Hiding(spans)
    ensures PlaceAll(b, spans[..3]).placed == [Placed(spans[0], 1), Placed(spans[1], 1), Placed(spans[2], 1)]
  {
    PlaceEmpty(b, spans);
    LastStays(PlaceAll(b, spans[..2]), spans[0], spans[1], spans[2]);
    PlaceNext(b, spans, 2);
  }

  lemma HidingIsLaidOut(spans: seq<Span>)
    requires Hiding(spans)
    ensures Generate([spans], []).Success?
    ensures Generate([spans], []).value.placed == [Placed(spans[0], 1), Placed(spans[1], 1), Placed(spans[2], 1)]
  {
    GenerateSingle(spans);
    PlaceHiding(NewRequest(EMPTY), spans);
    WholeRequest(NewRequest(EMPTY), spans, 3);
  }

  /**
  A span without length inside a longer one hides it from the next span: the first and
  the last of the three share a line although both are live, whatever their lengths.
   */
  lemma EmptySpanHidesClash(spans: seq<Span>)
    requires Hiding(spans)
    ensures Generate([spans], []).Success?
    ensures var placed := Generate([spans], []).value.placed;
            SpansOf(placed) == spans && Clash(placed[0], placed[2]) && !Apart(placed)
  {
    HidingIsLaidOut(spans);
    ThreeClash(Generate([spans], []).value.placed, spans);
  }

  lemma ThreeClash(placed: seq<Placed>, spans: seq<Span>)
    requires Hiding(spans) && placed == [Placed(spans[0], 1), Placed(spans[1], 1), Placed(spans[2], 1)]
    ensures SpansOf(placed) == spans && Clash(placed[0], placed[2]) && !Apart(placed)
  {
  }

  lemma GenerateSingle(request: seq<Span>)
    requires |request| > 0 && SortedBy((s: Span) => s.start, request)
    ensures Valid(EMPTY) && Generate([request], []).Success?
    ensures Generate([request], []).value.placed == PlaceAll(NewRequest(EMPTY), request).placed
  {
    GenerateOrdered([request]);
    PlaceSingle(EMPTY, [request]);
  }

  lemma PlaceSingle(b: Board, requests: seq<seq<Span>>)
    requires Valid(b) && |requests| == 1
    ensures PlaceRequests(b, requests) == PlaceAll(NewRequest(b), requests[0])
  {
    assert PlaceRequests(b, requests[..0]) == b;
  }
}
