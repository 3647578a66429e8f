/**
The line allocator of the trace converter: a sticky first-fit chooser over
sorted interval lists, shared by all requests
(scripts/convert_otel_2_perfetto.py).
 */
module TraceLayout {
  import opened Indices
  import opened SpanIntervals

  datatype Pid = Process(id: int) | Smg

  datatype Span = Span(pid: Pid, start: int, end: int)

  /** A span and the line (`tid`) it was given. */
  datatype Placed = Placed(span: Span, line: int)

  /** The lines of one process; the keys are inserted in the order 1, 2, 3, ... */
  type Lines = map<int, seq<Interval>>

  datatype Board = Board(
    graph: map<Pid, Lines>, status: map<Pid, int>, slots: seq<(Pid, int)>, placed: seq<Placed>)

  // ---- What holds for every run, whatever the spans ----

  ghost predicate LinesOk(lines: Lines) {
    && |lines| >= 1
    && (forall l :: l in lines <==> 1 <= l <= |lines|)
    && (forall l :: l in lines ==> Sorted(lines[l]))
  }

  /** The slots are those of the lines, one each. */
  ghost predicate SlotsOk(graph: map<Pid, Lines>, slots: seq<(Pid, int)>) {
    (forall p, l :: (p, l) in slots <==> p in graph && l in graph[p]) && NoRepeats(slots)
  }

  /** Lines are numbered 1..n, each with exactly one slot record. */
  ghost predicate Valid(b: Board) {
    && (forall p :: p in b.graph ==> LinesOk(b.graph[p]))
    && (forall p :: p in b.status ==> p in b.graph && b.status[p] in b.graph[p])
    && SlotsOk(b.graph, b.slots)
  }

  /** The first line, in insertion order, that reports no overlap; one past the last if there is none. */
  function FirstFree(lines: Lines, start: int, end: int, from: int := 1): (l: int)
    requires LinesOk(lines) && 1 <= from <= |lines| + 1
    ensures from <= l <= |lines| + 1
    ensures l <= |lines| ==> !NeighbourTest(lines[l], start, end)
    ensures forall k :: from <= k < l ==> NeighbourTest(lines[k], start, end)
    decreases |lines| + 1 - from
  {
    if from == |lines| + 1 then from
    else if !NeighbourTest(lines[from], start, end) then from
    else FirstFree(lines, start, end, from + 1)
  }

  /** The intervals on line `l` of process `p`; none if there is no such line. */
  function LaneIn(graph: map<Pid, Lines>, p: Pid, l: int): seq<Interval> {
    if p in graph && l in graph[p] then graph[p][l] else []
  }

  function Lane(b: Board, p: Pid, l: int): (xs: seq<Interval>)
    requires Valid(b)
    ensures Sorted(xs)
  {
    assert p in b.graph ==> LinesOk(b.graph[p]);
    LaneIn(b.graph, p, l)
  }

  predicate Sticks(b: Board, s: Span)
    requires Valid(b)
  {
    s.pid in b.status
    && (s.start == s.end || !NeighbourTest(Lane(b, s.pid, b.status[s.pid]), s.start, s.end))
  }

  function LinesOf(b: Board, p: Pid): Lines {
    if p in b.graph then b.graph[p] else map[]
  }

  function ChosenLine(b: Board, s: Span): (line: int)
    requires Valid(b)
    ensures 1 <= line <= |LinesOf(b, s.pid)| + 1
  {
    if Sticks(b, s) then b.status[s.pid]
    else if s.pid !in b.graph then 1
    else FirstFree(b.graph[s.pid], s.start, s.end)
  }

  /** `__find_line`: the chosen line, opened and recorded if it is new. */
  function FindLine(b: Board, s: Span): Board
    requires Valid(b)
  {
    var line := ChosenLine(b, s);
    if Sticks(b, s) then b
    else if line in LinesOf(b, s.pid) then b.(status := b.status[s.pid := line])
    else
      b.(graph := b.graph[s.pid := LinesOf(b, s.pid)[line := []]],
         status := b.status[s.pid := line], slots := b.slots + [(s.pid, line)])
  }

  /** Opening a line adds its slot. */
  lemma OpenValid(b: Board, p: Pid, line: int)
    requires Valid(b) && line == |LinesOf(b, p)| + 1 && line !in LinesOf(b, p)
    ensures Valid(b.(graph := b.graph[p := LinesOf(b, p)[line := []]],
                     status := b.status[p := line], slots := b.slots + [(p, line)]))
  {
    OpenLine(LinesOf(b, p), line);
    OpenSlot(b.graph, b.slots, p, line);
  }

  lemma OpenSlot(graph: map<Pid, Lines>, slots: seq<(Pid, int)>, p: Pid, line: int)
    requires SlotsOk(graph, slots)
    requires p in graph ==> line !in graph[p]
    ensures SlotsOk(graph[p := (if p in graph then graph[p] else map[])[line := []]], slots + [(p, line)])
  {
    assert (p, line) !in slots;
  }

  lemma FindLineValid(b: Board, s: Span)
    requires Valid(b)
    ensures Valid(FindLine(b, s))
    ensures s.pid in FindLine(b, s).graph && ChosenLine(b, s) in FindLine(b, s).graph[s.pid]
  {
    var line := ChosenLine(b, s);
    if line !in LinesOf(b, s.pid) { OpenValid(b, s.pid, line); }
  }

  lemma OpenLine(lines: Lines, line: int)
    requires lines == map[] || LinesOk(lines)
    requires line == |lines| + 1
    ensures LinesOk(lines[line := []]) && |lines[line := []]| == line
  {
  }

  function Insert(b: Board, s: Span, line: int): Board
    requires Valid(b) && s.pid in b.graph && line in b.graph[s.pid]
  {
    var lines := b.graph[s.pid];
    b.(graph := b.graph[s.pid := lines[line := Insort(lines[line], Interval(s.start, s.end))]],
       placed := b.placed + [Placed(s, line)])
  }

  lemma InsertValid(b: Board, s: Span, line: int)
    requires Valid(b) && s.pid in b.graph && line in b.graph[s.pid]
    ensures Valid(Insert(b, s, line))
  {
    InsortIsSorted(b.graph[s.pid][line], Interval(s.start, s.end));
    var lines := b.graph[s.pid];
    assert lines[line := Insort(lines[line], Interval(s.start, s.end))].Keys == lines.Keys;
  }

  /** One span of a layout loop: find a line, insert the span, record its `tid`. */
  function Place(b: Board, s: Span): (b': Board)
    requires Valid(b)
    ensures Valid(b')
  {
    FindLineValid(b, s);
    InsertValid(FindLine(b, s), s, ChosenLine(b, s));
    Insert(FindLine(b, s), s, ChosenLine(b, s))
  }

  lemma PlaceRecords(b: Board, s: Span)
    requires Valid(b)
    ensures Place(b, s).placed == b.placed + [Placed(s, ChosenLine(b, s))]
  {
    FindLineValid(b, s);
  }

  /** A line is added exactly when the chosen one is new. */
  lemma LinesAfterPlace(b: Board, s: Span, p: Pid)
    requires Valid(b)
    ensures |LinesOf(Place(b, s), p)| ==
              |LinesOf(b, p)| + if p == s.pid && ChosenLine(b, s) !in LinesOf(b, p) then 1 else 0
  {
    FindLineValid(b, s);
    LinesAfterFind(b, s, p);
    LinesAfterInsert(FindLine(b, s), s, ChosenLine(b, s), p);
  }

  lemma LinesAfterFind(b: Board, s: Span, p: Pid)
    requires Valid(b)
    ensures |LinesOf(FindLine(b, s), p)| ==
              |LinesOf(b, p)| + if p == s.pid && ChosenLine(b, s) !in LinesOf(b, p) then 1 else 0
  {
  }

  lemma LinesAfterInsert(b: Board, s: Span, line: int, p: Pid)
    requires Valid(b) && s.pid in b.graph && line in b.graph[s.pid]
    ensures |LinesOf(Insert(b, s, line), p)| == |LinesOf(b, p)|
  {
    var lines := b.graph[s.pid];
    assert lines[line := Insort(lines[line], Interval(s.start, s.end))].Keys == lines.Keys;
  }

  /** The spans of one request, in the given order. */
  function PlaceAll(b: Board, spans: seq<Span>): (b': Board)
    requires Valid(b)
    ensures Valid(b')
    decreases |spans|
  {
    if spans == [] then b else Place(PlaceAll(b, spans[..|spans| - 1]), spans[|spans| - 1])
  }

  /** The sticky line is forgotten at the start of each request. */
  function NewRequest(b: Board): (b': Board)
    requires Valid(b)
    ensures Valid(b') && b' == b.(status := map[])
  {
    b.(status := map[])
  }

  function PlaceRequests(b: Board, requests: seq<seq<Span>>): (b': Board)
    requires Valid(b)
    ensures Valid(b')
    decreases |requests|
  {
    if requests == [] then b
    else PlaceAll(NewRequest(PlaceRequests(b, requests[..|requests| - 1])), requests[|requests| - 1])
  }

  // ---- Safety: when spans overlap on a line ----

  predicate Positive(s: Span) { s.start < s.end }

  /** A span that is never put on a line without the overlap test; it may end before it starts. */
  predicate Tested(s: Span) { s.start != s.end }

  predicate Clash(a: Placed, b: Placed) {
    a.span.pid == b.span.pid && a.line == b.line
    && a.span.start < b.span.end && b.span.start < a.span.end
  }

  /** `xs` holds exactly the spans recorded for line `l` of process `p`. */
  ghost predicate Records(placed: seq<Placed>, p: Pid, l: int, xs: seq<Interval>) {
    forall x :: x in xs <==> Placed(Span(p, x.start, x.end), l) in placed
  }

  /** What holds for every run: the lanes are the record of the placements. */
  ghost predicate Tracked(b: Board) {
    Valid(b) && forall p, l :: Records(b.placed, p, l, Lane(b, p, l))
  }

  /** On each line of process `p` a span ends before the next one starts. */
  ghost predicate Safe(b: Board, p: Pid) {
    && Valid(b)
    && (forall l :: Chained(Lane(b, p, l)))
    && (forall l :: Records(b.placed, p, l, Lane(b, p, l)))
    && (forall i, j :: 0 <= i < j < |b.placed| && b.placed[i].span.pid == p ==> !Clash(b.placed[i], b.placed[j]))
  }

  /** ... and all of them have positive length. */
  ghost predicate Solid(b: Board, p: Pid) { Safe(b, p) && SolidRecords(b.placed, p) }

  ghost predicate SolidRecords(placed: seq<Placed>, p: Pid) {
    forall i :: 0 <= i < |placed| && placed[i].span.pid == p ==> Positive(placed[i].span)
  }

  lemma SolidIsDisjoint(b: Board, p: Pid, l: int)
    requires Solid(b, p)
    ensures Disjoint(Lane(b, p, l))
  {
    var xs := Lane(b, p, l);
    assert Records(b.placed, p, l, xs);
    forall k | 0 <= k < |xs| ensures xs[k].start < xs[k].end {
      assert xs[k] in xs;
    }
  }

  lemma FindLineKeepsLanes(b: Board, s: Span, p: Pid, l: int)
    requires Valid(b)
    ensures LaneIn(FindLine(b, s).graph, p, l) == LaneIn(b.graph, p, l)
  {
    var line := ChosenLine(b, s);
    if line !in LinesOf(b, s.pid) { OpenKeepsLanes(b.graph, s.pid, LinesOf(b, s.pid), line, p, l); }
  }

  /** Placing a span changes one lane, by one insertion. */
  lemma PlaceChangesOneLane(b: Board, s: Span, p: Pid, l: int)
    requires Valid(b)
    ensures Lane(Place(b, s), p, l) ==
              if p == s.pid && l == ChosenLine(b, s) then Insort(Lane(b, p, l), Interval(s.start, s.end))
              else Lane(b, p, l)
  {
    FindLineValid(b, s);
    FindLineKeepsLanes(b, s, p, l);
    var b1, line := FindLine(b, s), ChosenLine(b, s);
    UpdateChangesOneLane(b1.graph, s.pid, line, Insort(Lane(b1, s.pid, line), Interval(s.start, s.end)), p, l);
  }

  lemma OpenKeepsLanes(graph: map<Pid, Lines>, q: Pid, lines: Lines, line: int, p: Pid, l: int)
    requires lines == (if q in graph then graph[q] else map[]) && line !in lines
    ensures LaneIn(graph[q := lines[line := []]], p, l) == LaneIn(graph, p, l)
  {
  }

  lemma UpdateChangesOneLane(graph: map<Pid, Lines>, q: Pid, line: int, xs: seq<Interval>, p: Pid, l: int)
    requires q in graph && line in graph[q]
    ensures LaneIn(graph[q := graph[q][line := xs]], p, l) ==
              if p == q && l == line then xs else LaneIn(graph, p, l)
  {
  }

  /** The chosen line never reports an overlap with a span that is tested. */
  lemma ChosenLinePasses(b: Board, s: Span)
    requires Valid(b) && Tested(s)
    ensures !NeighbourTest(Lane(b, s.pid, ChosenLine(b, s)), s.start, s.end)
  {
    if s.pid in b.graph { assert LinesOk(b.graph[s.pid]); }
  }

  /** On a safe board it has none. */
  lemma ChosenLineIsFree(b: Board, s: Span)
    requires Safe(b, s.pid) && Tested(s)
    ensures !OverlapsAny(Lane(b, s.pid, ChosenLine(b, s)), s.start, s.end)
  {
    ChosenLinePasses(b, s);
    ChainedHidesNone(Lane(b, s.pid, ChosenLine(b, s)), s.start, s.end);
  }

  lemma PlaceSafe(b: Board, s: Span, p: Pid)
    requires Safe(b, p) && (s.pid == p ==> Tested(s))
    ensures Safe(Place(b, s), p)
  {
    var b' := Place(b, s);
    forall l ensures Chained(Lane(b', p, l)) && Records(b'.placed, p, l, Lane(b', p, l)) {
      PlaceKeepsLane(b, s, p, l);
    }
    PlaceRecords(b, s);
    forall i, j | 0 <= i < j < |b'.placed| && b'.placed[i].span.pid == p ensures !Clash(b'.placed[i], b'.placed[j]) {
      if j == |b.placed| {
        if s.pid == p { NewSpanIsApart(b, s, i); }
      } else {
        assert b'.placed[i] == b.placed[i] && b'.placed[j] == b.placed[j];
      }
    }
  }

  lemma PlaceRecordsLane(b: Board, s: Span, p: Pid, l: int)
    requires Valid(b) && Records(b.placed, p, l, Lane(b, p, l))
    ensures Records(Place(b, s).placed, p, l, Lane(Place(b, s), p, l))
  {
    PlaceChangesOneLane(b, s, p, l);
    PlaceRecords(b, s);
    if p == s.pid && l == ChosenLine(b, s) {
      RecordsInserted(b.placed, s, l, Lane(b, p, l));
    } else {
      RecordsOther(b.placed, Placed(s, ChosenLine(b, s)), p, l, Lane(b, p, l));
    }
  }

  lemma PlaceKeepsLane(b: Board, s: Span, p: Pid, l: int)
    requires Safe(b, p) && (s.pid == p ==> Tested(s))
    ensures Chained(Lane(Place(b, s), p, l))
    ensures Records(Place(b, s).placed, p, l, Lane(Place(b, s), p, l))
  {
    PlaceRecordsLane(b, s, p, l);
    PlaceChangesOneLane(b, s, p, l);
    if p == s.pid && l == ChosenLine(b, s) {
      ChosenLinePasses(b, s);
      InsortKeepsChained(Lane(b, p, l), Interval(s.start, s.end));
    }
  }

  lemma RecordsInserted(placed: seq<Placed>, s: Span, l: int, xs: seq<Interval>)
    requires Sorted(xs) && Records(placed, s.pid, l, xs)
    ensures Records(placed + [Placed(s, l)], s.pid, l, Insort(xs, Interval(s.start, s.end)))
  {
    var x := Interval(s.start, s.end);
    forall y ensures y in Insort(xs, x) <==> Placed(Span(s.pid, y.start, y.end), l) in placed + [Placed(s, l)] {
      InsortMembers(xs, x, y);
    }
  }

  lemma RecordsOther(placed: seq<Placed>, q: Placed, p: Pid, l: int, xs: seq<Interval>)
    requires Records(placed, p, l, xs) && (q.span.pid != p || q.line != l)
    ensures Records(placed + [q], p, l, xs)
  {
    assert forall x: Interval :: Placed(Span(p, x.start, x.end), l) in placed + [q] <==>
                       Placed(Span(p, x.start, x.end), l) in placed;
  }

  lemma InsortMembers(xs: seq<Interval>, x: Interval, y: Interval)
    requires Sorted(xs)
    ensures y in Insort(xs, x) <==> y in xs || y == x
  {
    assert y in Insort(xs, x) <==> y in multiset(Insort(xs, x));
  }

  lemma NewSpanIsApart(b: Board, s: Span, i: nat)
    requires Safe(b, s.pid) && Tested(s) && i < |b.placed|
    ensures !Clash(b.placed[i], Placed(s, ChosenLine(b, s)))
  {
    var q := b.placed[i];
    var x := Interval(q.span.start, q.span.end);
    if q.span.pid == s.pid && q.line == ChosenLine(b, s) {
      assert q == Placed(Span(s.pid, x.start, x.end), q.line) && q in b.placed;
      assert Records(b.placed, s.pid, q.line, Lane(b, s.pid, q.line));
      ChosenLineIsFree(b, s);
      assert !Overlap(x, s.start, s.end);
    }
  }

  lemma PlaceSolid(b: Board, s: Span, p: Pid)
    requires Solid(b, p) && (s.pid == p ==> Positive(s))
    ensures Solid(Place(b, s), p)
  {
    PlaceSafe(b, s, p);
    PlaceRecords(b, s);
  }

  /** No span of process `p` has start and end equal. */
  ghost predicate AllTested(spans: seq<Span>, p: Pid) {
    forall s :: s in spans && s.pid == p ==> Tested(s)
  }

  lemma {:induction false} PlaceAllSafe(b: Board, spans: seq<Span>, p: Pid)
    requires Safe(b, p) && AllTested(spans, p)
    ensures Safe(PlaceAll(b, spans), p)
    decreases |spans|
  {
    if spans != [] {
      PlaceAllSafe(b, spans[..|spans| - 1], p);
      PlaceSafe(PlaceAll(b, spans[..|spans| - 1]), spans[|spans| - 1], p);
    }
  }
}
