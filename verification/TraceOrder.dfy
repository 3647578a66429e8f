/**
Why the number of lines is optimal only for spans that arrive in start order: the
layout goes request by request, and requests of one process can interleave.
 */
module TraceOrder {
  import opened Sorting
  import opened SpanIntervals
  import opened TraceLayout
  import opened TraceOptimality

  /** A span that clashes with a recorded span on every line opens a new one. */
  lemma MustOpen(b: Board, s: Span, busy: seq<nat>)
    requires Solid(b, s.pid) && Positive(s) && |busy| == |LinesOf(b, s.pid)|
    requires forall k :: 0 <= k < |busy| ==> busy[k] < |b.placed| && Clash(b.placed[busy[k]], Placed(s, k + 1))
    ensures ChosenLine(b, s) == |busy| + 1
  {
    var l := ChosenLine(b, s);
    PlaceRecords(b, s);
    if l <= |busy| {
      NewSpanIsApart(b, s, busy[l - 1]);
      assert false;
    }
  }

  /** A span opens a line if and only if it clashes with a recorded span on every line there is. */
  lemma OpensIff(b: Board, s: Span)
    requires Solid(b, s.pid) && Positive(s)
    ensures ChosenLine(b, s) !in LinesOf(b, s.pid) <==>
      forall l :: 1 <= l <= |LinesOf(b, s.pid)| ==> ClashesOn(b, s, l)
  {
    var n, chosen := |LinesOf(b, s.pid)|, ChosenLine(b, s);
    if s.pid in b.graph { assert LinesOk(b.graph[s.pid]); }
    if chosen !in LinesOf(b, s.pid) {
      forall l | 1 <= l <= n ensures ClashesOn(b, s, l) { BusyLineClashes(b, s, l); }
    } else {
      forall i | 0 <= i < |b.placed| ensures !Clash(b.placed[i], Placed(s, chosen)) { NewSpanIsApart(b, s, i); }
      assert !ClashesOn(b, s, chosen);
    }
  }

  ghost predicate ClashesOn(b: Board, s: Span, l: int) {
    exists i :: 0 <= i < |b.placed| && Clash(b.placed[i], Placed(s, l))
  }

  lemma BusyLineClashes(b: Board, s: Span, l: int)
    requires Solid(b, s.pid) && Positive(s) && ChosenLine(b, s) !in LinesOf(b, s.pid)
    requires 1 <= l <= |LinesOf(b, s.pid)|
    ensures ClashesOn(b, s, l)
  {
    var xs := Lane(b, s.pid, l);
    SolidIsDisjoint(b, s.pid, l);
    DisjointIsExact(xs);
    assert NeighbourTest(xs, s.start, s.end);
    var k :| 0 <= k < |xs| && Overlap(xs[k], s.start, s.end);
    assert xs[k] in xs && Records(b.placed, s.pid, l, xs);
    var i :| 0 <= i < |b.placed| && b.placed[i] == Placed(Span(s.pid, xs[k].start, xs[k].end), l);
    assert Clash(b.placed[i], Placed(s, l));
  }

  lemma NewLineIsUnknown(b: Board, p: Pid)
    requires Valid(b)
    ensures |LinesOf(b, p)| + 1 !in LinesOf(b, p)
  {
    if p in b.graph { assert LinesOk(b.graph[p]); }
  }

  lemma Opens(b: Board, s: Span, busy: seq<nat>)
    requires Solid(b, s.pid) && Positive(s) && |busy| == |LinesOf(b, s.pid)|
    requires forall k :: 0 <= k < |busy| ==> busy[k] < |b.placed| && Clash(b.placed[busy[k]], Placed(s, k + 1))
    ensures Solid(Place(b, s), s.pid) && Place(b, s).placed == b.placed + [Placed(s, |busy| + 1)]
    ensures |LinesOf(Place(b, s), s.pid)| == |busy| + 1
  {
    MustOpen(b, s, busy);
    NewLineIsUnknown(b, s.pid);
    PlaceRecords(b, s);
    PlaceSolid(b, s, s.pid);
    LinesAfterPlace(b, s, s.pid);
  }

  lemma FreeOnOne(b: Board, s: Span)
    requires Solid(b, s.pid) && Positive(s) && |LinesOf(b, s.pid)| == 1
    requires forall i :: 0 <= i < |b.placed| ==> !Clash(b.placed[i], Placed(s, 1))
    ensures !NeighbourTest(Lane(b, s.pid, 1), s.start, s.end)
  {
    var xs := Lane(b, s.pid, 1);
    SolidIsDisjoint(b, s.pid, 1);
    DisjointIsExact(xs);
    assert Records(b.placed, s.pid, 1, xs);
    forall x | x in xs ensures !(x.start < s.end && s.start < x.end) {
      var i :| 0 <= i < |b.placed| && b.placed[i] == Placed(Span(s.pid, x.start, x.end), 1);
    }
  }

  /** A span that clashes with nothing on the only line stays there. */
  lemma Stays(b: Board, s: Span)
    requires Solid(b, s.pid) && Positive(s) && |LinesOf(b, s.pid)| == 1
    requires forall i :: 0 <= i < |b.placed| ==> !Clash(b.placed[i], Placed(s, 1))
    ensures Solid(Place(b, s), s.pid) && Place(b, s).placed == b.placed + [Placed(s, 1)]
    ensures |LinesOf(Place(b, s), s.pid)| == 1
  {
    FreeOnOne(b, s);
    assert LinesOk(b.graph[s.pid]);
    assert ChosenLine(b, s) == 1;
    PlaceRecords(b, s);
    PlaceSolid(b, s, s.pid);
    LinesAfterPlace(b, s, s.pid);
  }

  function Task(start: int, end: int): Span { Span(Process(0), start, end) }

  /** A board with `n` lines of the process and these records. */
  ghost predicate Holds(b: Board, n: nat, placed: seq<Placed>) {
    Solid(b, Process(0)) && |LinesOf(b, Process(0))| == n && b.placed == placed
  }

  lemma FirstSpan(b: Board)
    requires Holds(b, 0, [])
    ensures Holds(Place(b, Task(0, 2)), 1, [Placed(Task(0, 2), 1)])
  {
    Opens(b, Task(0, 2), []);
  }

  lemma SecondSpan(b: Board)
    requires Holds(b, 1, [Placed(Task(0, 2), 1)])
    ensures Holds(Place(b, Task(5, 7)), 1, [Placed(Task(0, 2), 1), Placed(Task(5, 7), 1)])
  {
    Stays(b, Task(5, 7));
  }

  lemma ThirdSpan(b: Board)
    requires Holds(b, 1, [Placed(Task(0, 2), 1), Placed(Task(5, 7), 1)])
    ensures Holds(Place(b, Task(1, 4)), 2, [Placed(Task(0, 2), 1), Placed(Task(5, 7), 1), Placed(Task(1, 4), 2)])
  {
    assert Clash(b.placed[0], Placed(Task(1, 4), 1));
    Opens(b, Task(1, 4), [0]);
  }

  lemma FourthSpan(b: Board)
    requires Holds(b, 2, [Placed(Task(0, 2), 1), Placed(Task(5, 7), 1), Placed(Task(1, 4), 2)])
    ensures |LinesOf(Place(b, Task(3, 6)), Process(0))| == 3
  {
    Opens(b, Task(3, 6), [1, 2]);
  }

  lemma PlaceAllLast(b: Board, spans: seq<Span>, t: Span)
    requires Valid(b)
    ensures PlaceAll(b, spans + [t]) == Place(PlaceAll(b, spans), t)
  {
    assert (spans + [t])[..|spans|] == spans;
  }

  lemma PlaceOne(b: Board, spans: seq<Span>)
    requires Valid(b) && |spans| == 1
    ensures PlaceAll(b, spans) == Place(b, spans[0])
  {
    PlaceAllLast(b, spans[..0], spans[0]);
    assert spans == spans[..0] + [spans[0]];
  }

  lemma PlaceNext(b: Board, spans: seq<Span>, k: nat)
    requires Valid(b) && k < |spans|
    ensures PlaceAll(b, spans[..k + 1]) == Place(PlaceAll(b, spans[..k]), spans[k])
  {
    assert spans[..k + 1][..k] == spans[..k];
  }

  lemma WholeRequest(b: Board, spans: seq<Span>, n: nat)
    requires Valid(b) && n == |spans|
    ensures PlaceAll(b, spans) == PlaceAll(b, spans[..n])
  {
    assert spans[..n] == spans;
  }

  lemma PlaceTwo(b: Board, spans: seq<Span>)
    requires Valid(b) && |spans| == 2
    ensures PlaceAll(b, spans) == Place(Place(b, spans[0]), spans[1])
  {
    PlaceOne(b, spans[..1]);
    PlaceNext(b, spans, 1);
    WholeRequest(b, spans, 2);
  }

  lemma FirstRequest(b: Board)
    requires Holds(b, 0, [])
    ensures Holds(PlaceAll(b, [Task(0, 2), Task(5, 7)]), 1, [Placed(Task(0, 2), 1), Placed(Task(5, 7), 1)])
  {
    FirstSpan(b);
    SecondSpan(Place(b, Task(0, 2)));
    PlaceTwo(b, [Task(0, 2), Task(5, 7)]);
  }

  lemma SecondRequest(b: Board)
    requires Holds(b, 1, [Placed(Task(0, 2), 1), Placed(Task(5, 7), 1)])
    ensures |LinesOf(PlaceAll(b, [Task(1, 4), Task(3, 6)]), Process(0))| == 3
  {
    ThirdSpan(b);
    FourthSpan(Place(b, Task(1, 4)));
    PlaceTwo(b, [Task(1, 4), Task(3, 6)]);
  }

  const INTERLEAVED := [[Task(0, 2), Task(5, 7)], [Task(1, 4), Task(3, 6)]]

  lemma InterleavedLines()
    ensures Valid(EMPTY) && |LinesOf(PlaceRequests(EMPTY, INTERLEAVED), Process(0))| == 3
  {
    EmptyIsSafe();
    NewRequestSafe(EMPTY, Process(0));
    FirstRequest(NewRequest(EMPTY));
    var b := PlaceAll(NewRequest(EMPTY), INTERLEAVED[0]);
    NewRequestSafe(b, Process(0));
    SecondRequest(NewRequest(b));
    PlaceRequestPair(EMPTY, INTERLEAVED[0], INTERLEAVED[1]);
  }

  lemma InterleavedIsLive(t: int)
    ensures LiveCount(Concat(INTERLEAVED), Process(0), t) <= 2
  {
    LiveInPair(INTERLEAVED[0], INTERLEAVED[1], t);
    LiveOfTwo(Task(0, 2), Task(5, 7), t);
    LiveOfTwo(Task(1, 4), Task(3, 6), t);
  }

  /** Two interleaved requests get three lines, although never more than two spans are live. */
  lemma StartOrderIsNeeded()
    ensures Generate(INTERLEAVED, []).Success?
    ensures |LinesOf(Generate(INTERLEAVED, []).value, Process(0))| == 3
    ensures forall t :: LiveCount(Concat(INTERLEAVED), Process(0), t) <= 2
  {
    GenerateOrdered(INTERLEAVED);
    InterleavedLines();
    forall t ensures LiveCount(Concat(INTERLEAVED), Process(0), t) <= 2 { InterleavedIsLive(t); }
  }

  /** Requests in order and no gateway spans: the run is the placement of the requests. */
  lemma GenerateOrdered(engine: seq<seq<Span>>)
    requires forall r :: r in engine ==> |r| > 0 && SortedBy((s: Span) => s.start, r)
    requires SortedBy(FirstStart, engine)
    ensures Generate(engine, []).Success? && Valid(EMPTY)
    ensures Generate(engine, []).value == NewRequest(PlaceRequests(EMPTY, engine))
  {
    EmptyIsSafe();
    OrderedIsSame(engine);
  }

  lemma PlaceRequestPair(b: Board, r: seq<Span>, s: seq<Span>)
    requires Valid(b)
    ensures PlaceRequests(b, [r, s]) == PlaceAll(NewRequest(PlaceAll(NewRequest(b), r)), s)
  {
    assert [r, s][..1] == [r];
    assert PlaceRequests(b, [r][..0]) == b;
  }

  lemma LiveInPair(r: seq<Span>, s: seq<Span>, t: int)
    ensures LiveCount(Concat([r, s]), Process(0), t) == LiveCount(r, Process(0), t) + LiveCount(s, Process(0), t)
  {
    assert [r, s][..1] == [r];
    assert Concat([r][..0]) == [];
    assert Concat([r, s]) == r + s;
    LiveCountConcat(r, s, Process(0), t);
  }

  lemma LiveOfTwo(a: Span, b: Span, t: int)
    ensures LiveCount([a, b], Process(0), t)
         == (if LiveAt(a, Process(0), t) then 1 else 0) + if LiveAt(b, Process(0), t) then 1 else 0
  {
    assert [a, b][..1] == [a] && [a][..0] == [];
    assert LiveCount([a], Process(0), t) == if LiveAt(a, Process(0), t) then 1 else 0;
  }

  // ---- Which line a span gets ----

  /** Span `k` is the last one of process `p`. */
  ghost predicate LastOf(spans: seq<Span>, p: Pid, k: int) {
    0 <= k < |spans| && spans[k].pid == p && forall i :: k < i < |spans| ==> spans[i].pid != p
  }

  lemma StatusAfterPlace(b: Board, s: Span, p: Pid)
    requires Valid(b)
    ensures if p == s.pid then p in Place(b, s).status && Place(b, s).status[p] == ChosenLine(b, s)
            else (p in Place(b, s).status <==> p in b.status) && (p in b.status ==> Place(b, s).status[p] == b.status[p])
  {
  }

  /** Within a request a process is on the line of its last span; at the start of a request it is on none. */
  lemma {:induction false} StatusIsLast(b: Board, spans: seq<Span>, p: Pid)
    requires Valid(b)
    ensures var v := PlaceAll(NewRequest(b), spans);
            && |v.placed| == |b.placed| + |spans|
            && (p in v.status ==> exists k :: LastOf(spans, p, k))
            && (forall k :: LastOf(spans, p, k) ==> p in v.status && v.status[p] == v.placed[|b.placed| + k].line)
    decreases |spans|
  {
    if spans != [] {
      var n := |spans| - 1;
      var front := PlaceAll(NewRequest(b), spans[..n]);
      StatusIsLast(b, spans[..n], p);
      StatusAfterPlace(front, spans[n], p);
      PlaceRecords(front, spans[n]);
      LastOfFront(spans, p);
    }
  }

  lemma LastOfFront(spans: seq<Span>, p: Pid)
    requires spans != []
    ensures var n := |spans| - 1;
            if spans[n].pid == p then LastOf(spans, p, n) && forall k :: LastOf(spans, p, k) ==> k == n
            else forall k :: LastOf(spans, p, k) <==> LastOf(spans[..n], p, k)
  {
    var n := |spans| - 1;
    if spans[n].pid != p {
      forall k ensures LastOf(spans, p, k) <==> LastOf(spans[..n], p, k) {
        assert forall i :: 0 <= i < n ==> spans[..n][i] == spans[i];
      }
    }
  }

  /** Line `l` takes the span without an objection of the overlap test. */
  ghost predicate Takes(b: Board, s: Span, l: int)
    requires Valid(b)
  {
    !NeighbourTest(Lane(b, s.pid, l), s.start, s.end)
  }

  /**
  The line of span `k` of a request: that of the last span of its process in the same request,
  if there is one and either the span has start and end equal or that line takes it; otherwise
  the first line that takes it, or a new one if none does.
   */
  lemma LineIs(b: Board, spans: seq<Span>, k: nat)
    requires Valid(b) && k < |spans|
    ensures var v, s := PlaceAll(NewRequest(b), spans[..k]), spans[k];
            var line, n := ChosenLine(v, s), |LinesOf(v, s.pid)|;
            && PlaceAll(NewRequest(b), spans[..k + 1]).placed == v.placed + [Placed(s, line)]
            && |v.placed| == |b.placed| + k
            && (forall j :: LastOf(spans[..k], s.pid, j) ==>
                  var l := v.placed[|b.placed| + j].line;
                  if s.start == s.end || Takes(v, s, l) then line == l
                  else 1 <= line <= n + 1 && (line <= n ==> Takes(v, s, line)) && forall m :: 1 <= m < line ==> !Takes(v, s, m))
            && ((forall j :: !LastOf(spans[..k], s.pid, j)) ==>
                  1 <= line <= n + 1 && (line <= n ==> Takes(v, s, line)) && forall m :: 1 <= m < line ==> !Takes(v, s, m))
  {
    var v, s := PlaceAll(NewRequest(b), spans[..k]), spans[k];
    PlaceNext(NewRequest(b), spans, k);
    PlaceRecords(v, s);
    StatusIsLast(b, spans[..k], s.pid);
    if s.pid in v.graph { assert LinesOk(v.graph[s.pid]); }
    FirstTaking(v, s);
  }

  lemma FirstTaking(b: Board, s: Span)
    requires Valid(b)
    ensures var line, n := ChosenLine(b, s), |LinesOf(b, s.pid)|;
            if Sticks(b, s) then line == b.status[s.pid]
            else 1 <= line <= n + 1 && (line <= n ==> Takes(b, s, line)) && forall m :: 1 <= m < line ==> !Takes(b, s, m)
  {
    if s.pid in b.graph { assert LinesOk(b.graph[s.pid]); }
  }
}
