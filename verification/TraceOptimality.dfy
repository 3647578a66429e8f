/**
The whole layout run: every span is placed once; the lines of a process none of whose
spans has start and end equal never hold overlapping spans; and a process whose spans
have positive length and arrive in start order gets exactly as many lines as it has
spans live at one instant
(`generate_perfetto_span_layout` of scripts/convert_otel_2_perfetto.py).
 */
module TraceOptimality {
  import opened Wrappers
  import opened Indices
  import opened Sorting
  import opened SpanIntervals
  import opened TraceLayout

  // ---- Spans live at one instant ----

  predicate LiveAt(s: Span, p: Pid, t: int) { s.pid == p && s.start <= t < s.end }

  /** The number of spans of process `p` that are live at `t`. */
  function LiveCount(spans: seq<Span>, p: Pid, t: int): nat {
    if spans == [] then 0
    else LiveCount(spans[..|spans| - 1], p, t) + if LiveAt(spans[|spans| - 1], p, t) then 1 else 0
  }

  function SpansOf(placed: seq<Placed>): (r: seq<Span>)
    ensures |r| == |placed| && forall i :: 0 <= i < |r| ==> r[i] == placed[i].span
  {
    seq(|placed|, i requires 0 <= i < |placed| => placed[i].span)
  }

  ghost function Live(placed: seq<Placed>, p: Pid, t: int): (a: set<nat>)
    ensures forall i: nat :: i in a <==> i < |placed| && LiveAt(placed[i].span, p, t)
  {
    set i: nat | i < |placed| && LiveAt(placed[i].span, p, t)
  }

  lemma {:induction false} LiveSize(placed: seq<Placed>, p: Pid, t: int)
    ensures |Live(placed, p, t)| == LiveCount(SpansOf(placed), p, t)
  {
    if placed == [] {
      assert Live(placed, p, t) == {};
    } else {
      var n := |placed| - 1;
      LiveSize(placed[..n], p, t);
      assert SpansOf(placed[..n]) == SpansOf(placed)[..n];
      LiveGrows(placed[..n], placed[n], p, t);
      assert placed == placed[..n] + [placed[n]];
    }
  }

  lemma LiveGrows(placed: seq<Placed>, q: Placed, p: Pid, t: int)
    ensures Live(placed, p, t) <= Live(placed + [q], p, t)
    ensures |Live(placed + [q], p, t)| == |Live(placed, p, t)| + if LiveAt(q.span, p, t) then 1 else 0
  {
    var before, after := Live(placed, p, t), Live(placed + [q], p, t);
    forall i: nat ensures i in after <==> i in before || (i == |placed| && LiveAt(q.span, p, t)) {
      if i < |placed| { assert (placed + [q])[i] == placed[i]; }
    }
    if LiveAt(q.span, p, t) {
      assert after == before + {|placed|};
    } else {
      assert after == before;
    }
  }

  lemma {:induction false} LiveCountConcat(a: seq<Span>, b: seq<Span>, p: Pid, t: int)
    ensures LiveCount(a + b, p, t) == LiveCount(a, p, t) + LiveCount(b, p, t)
  {
    if b == [] {
      assert a + b == a;
    } else {
      LiveCountConcat(a, b[..|b| - 1], p, t);
      assert (a + b)[..|a + b| - 1] == a + b[..|b| - 1];
    }
  }

  lemma {:induction false} LiveCountPermuted(a: seq<Span>, b: seq<Span>, p: Pid, t: int)
    requires multiset(a) == multiset(b)
    ensures LiveCount(a, p, t) == LiveCount(b, p, t)
    decreases |a|
  {
    if a != [] {
      var k := MatchLast(a, b);
      LiveCountPermuted(a[..|a| - 1], RemoveAt(b, k), p, t);
      LiveCountRemoved(b, k, p, t);
    } else {
      assert |b| == |multiset(b)| == |multiset(a)|;
    }
  }

  lemma LiveCountRemoved(b: seq<Span>, k: nat, p: Pid, t: int)
    requires k < |b|
    ensures LiveCount(b, p, t) == LiveCount(RemoveAt(b, k), p, t) + if LiveAt(b[k], p, t) then 1 else 0
  {
    LiveCountConcat(b[..k], b[k + 1..], p, t);
    LiveCountConcat(b[..k] + [b[k]], b[k + 1..], p, t);
    assert b == b[..k] + [b[k]] + b[k + 1..];
    assert (b[..k] + [b[k]])[..k] == b[..k];
  }

  // ---- Counting lines against live spans ----

  lemma {:induction false} DistinctLines(placed: seq<Placed>, a: set<nat>, n: nat)
    requires forall i :: i in a ==> i < |placed| && 1 <= placed[i].line <= n
    requires forall i, j :: i in a && j in a && i != j ==> placed[i].line != placed[j].line
    ensures |a| <= n
  {
    if n > 0 {
      if i :| i in a && placed[i].line == n {
        DistinctLines(placed, a - {i}, n - 1);
      } else {
        DistinctLines(placed, a, n - 1);
      }
    } else {
      assert a == {} by { if i :| i in a { assert false; } }
    }
  }

  ghost predicate Uses(placed: seq<Placed>, a: set<nat>, l: int) {
    exists i :: i in a && i < |placed| && placed[i].line == l
  }

  lemma {:induction false} EveryLineUsed(placed: seq<Placed>, a: set<nat>, n: nat)
    requires forall l :: 1 <= l <= n ==> Uses(placed, a, l)
    ensures n <= |a|
  {
    if n > 0 {
      assert Uses(placed, a, n);
      var i :| i in a && i < |placed| && placed[i].line == n;
      forall l | 1 <= l <= n - 1 ensures Uses(placed, a - {i}, l) {
        assert Uses(placed, a, l);
        var j :| j in a && j < |placed| && placed[j].line == l;
        assert j in a - {i};
      }
      EveryLineUsed(placed, a - {i}, n - 1);
    }
  }

  /** However the spans arrive, no instant has more live spans than there are lines. */
  lemma LinesCoverLive(b: Board, p: Pid, t: int)
    requires Safe(b, p)
    ensures |Live(b.placed, p, t)| <= |LinesOf(b, p)|
  {
    var a := Live(b.placed, p, t);
    forall i | i in a ensures 1 <= b.placed[i].line <= |LinesOf(b, p)| {
      var q := b.placed[i];
      var x := Interval(q.span.start, q.span.end);
      assert Placed(Span(p, x.start, x.end), q.line) in b.placed;
      assert Records(b.placed, p, q.line, Lane(b, p, q.line));
      assert LinesOk(b.graph[p]);
    }
    forall i, j | i in a && j in a && i != j ensures b.placed[i].line != b.placed[j].line {
      assert !Clash(b.placed[i], b.placed[j]) || !Clash(b.placed[j], b.placed[i]);
    }
    DistinctLines(b.placed, a, |LinesOf(b, p)|);
  }

  /** Some instant has as many live spans as there are lines. */
  ghost predicate Tight(b: Board, p: Pid) {
    exists t :: |LinesOf(b, p)| <= |Live(b.placed, p, t)|
  }

  ghost predicate StartOrder(placed: seq<Placed>, p: Pid) {
    forall i, j :: 0 <= i < j < |placed| && placed[i].span.pid == p && placed[j].span.pid == p ==>
      placed[i].span.start <= placed[j].span.start
  }

  ghost predicate StartsAfterAll(b: Board, s: Span) {
    forall i :: 0 <= i < |b.placed| && b.placed[i].span.pid == s.pid ==> b.placed[i].span.start <= s.start
  }

  lemma NewLineIsNext(b: Board, s: Span)
    requires Valid(b) && ChosenLine(b, s) !in LinesOf(b, s.pid)
    ensures ChosenLine(b, s) == |LinesOf(b, s.pid)| + 1
  {
    if s.pid in b.graph { assert LinesOk(b.graph[s.pid]); }
  }

  lemma LineIsUsed(b: Board, s: Span, q: Placed, l: int)
    requires Solid(b, s.pid) && Positive(s) && ChosenLine(b, s) !in LinesOf(b, s.pid) && StartsAfterAll(b, s)
    requires 1 <= l <= |LinesOf(b, s.pid)|
    ensures Uses(b.placed + [q], Live(b.placed + [q], s.pid, s.start), l)
  {
    var i := BusyLine(b, s, l);
    UsedBy(b.placed, q, i, s.pid, s.start);
  }

  /** A line is opened only when every line is busy at the start of the new span. */
  lemma NewLineIsNeeded(b: Board, s: Span)
    requires Solid(b, s.pid) && Positive(s) && ChosenLine(b, s) !in LinesOf(b, s.pid) && StartsAfterAll(b, s)
    ensures |LinesOf(b, s.pid)| + 1 <= |Live(b.placed + [Placed(s, ChosenLine(b, s))], s.pid, s.start)|
  {
    var q := Placed(s, ChosenLine(b, s));
    NewLineIsNext(b, s);
    forall l | 1 <= l <= q.line ensures Uses(b.placed + [q], Live(b.placed + [q], s.pid, s.start), l) {
      if l == q.line {
        UsedBy(b.placed, q, |b.placed|, s.pid, s.start);
      } else {
        LineIsUsed(b, s, q, l);
      }
    }
    EveryLineUsed(b.placed + [q], Live(b.placed + [q], s.pid, s.start), q.line);
  }

  lemma UsedBy(placed: seq<Placed>, q: Placed, i: nat, p: Pid, t: int)
    requires i <= |placed| && LiveAt((placed + [q])[i].span, p, t)
    ensures Uses(placed + [q], Live(placed + [q], p, t), (placed + [q])[i].line)
  {
    assert i in Live(placed + [q], p, t);
  }

  lemma BusyLine(b: Board, s: Span, l: int) returns (i: nat)
    requires Solid(b, s.pid) && Positive(s) && ChosenLine(b, s) !in LinesOf(b, s.pid)
    requires 1 <= l <= |LinesOf(b, s.pid)| && StartsAfterAll(b, s)
    ensures i < |b.placed| && b.placed[i].line == l && LiveAt(b.placed[i].span, s.pid, s.start)
  {
    var xs := Lane(b, s.pid, l);
    SolidIsDisjoint(b, s.pid, l);
    DisjointIsExact(xs);
    assert NeighbourTest(xs, s.start, s.end);
    var k :| 0 <= k < |xs| && Overlap(xs[k], s.start, s.end);
    var x := xs[k];
    assert x in xs && Records(b.placed, s.pid, l, xs);
    i :| 0 <= i < |b.placed| && b.placed[i] == Placed(Span(s.pid, x.start, x.end), l);
  }

  lemma TightGrows(b: Board, after: Board, q: Placed, p: Pid)
    requires Tight(b, p) && after.placed == b.placed + [q] && |LinesOf(after, p)| <= |LinesOf(b, p)|
    ensures Tight(after, p)
  {
    var t :| |LinesOf(b, p)| <= |Live(b.placed, p, t)|;
    LiveGrows(b.placed, q, p, t);
    assert |LinesOf(after, p)| <= |Live(after.placed, p, t)|;
  }

  /** A process whose records are in start order and all of positive length. */
  ghost predicate Orderly(placed: seq<Placed>, p: Pid) { StartOrder(placed, p) && SolidRecords(placed, p) }

  lemma OpenedIsTight(b: Board, s: Span)
    requires Solid(b, s.pid) && Positive(s) && ChosenLine(b, s) !in LinesOf(b, s.pid)
    requires StartOrder(b.placed + [Placed(s, ChosenLine(b, s))], s.pid)
    ensures Tight(Place(b, s), s.pid)
  {
    StartsBefore(b.placed, Placed(s, ChosenLine(b, s)), s.pid);
    assert StartsAfterAll(b, s);
    NewLineIsNeeded(b, s);
    LinesAfterPlace(b, s, s.pid);
    PlaceRecords(b, s);
    TightAt(Place(b, s), s.pid, s.start);
  }

  lemma TightAt(b: Board, p: Pid, t: int)
    requires |LinesOf(b, p)| <= |Live(b.placed, p, t)|
    ensures Tight(b, p)
  {
  }

  lemma KeptIsTight(b: Board, s: Span, p: Pid)
    requires Valid(b) && Tight(b, p) && (s.pid == p ==> ChosenLine(b, s) in LinesOf(b, p))
    ensures Tight(Place(b, s), p)
  {
    LinesAfterPlace(b, s, p);
    PlaceRecords(b, s);
    TightGrows(b, Place(b, s), Placed(s, ChosenLine(b, s)), p);
  }

  lemma PlaceTight(b: Board, s: Span, p: Pid)
    requires Solid(b, p) && (s.pid == p ==> Positive(s)) && Tight(b, p)
    requires StartOrder(b.placed + [Placed(s, ChosenLine(b, s))], p)
    ensures Tight(Place(b, s), p)
  {
    if s.pid == p && ChosenLine(b, s) !in LinesOf(b, p) {
      OpenedIsTight(b, s);
    } else {
      KeptIsTight(b, s, p);
    }
  }

  lemma StartsBefore(placed: seq<Placed>, q: Placed, p: Pid)
    requires StartOrder(placed + [q], p) && q.span.pid == p
    ensures forall i :: 0 <= i < |placed| && placed[i].span.pid == p ==> placed[i].span.start <= q.span.start
  {
    forall i | 0 <= i < |placed| && placed[i].span.pid == p ensures placed[i].span.start <= q.span.start {
      assert (placed + [q])[i] == placed[i] && (placed + [q])[|placed|] == q;
    }
  }

  // ---- Whole requests ----

  /** Every span is placed once, in arrival order, and nothing else is. */
  lemma {:induction false} PlaceAllRecords(b: Board, spans: seq<Span>)
    requires Valid(b)
    ensures SpansOf(PlaceAll(b, spans).placed) == SpansOf(b.placed) + spans
    ensures b.placed <= PlaceAll(b, spans).placed
    decreases |spans|
  {
    if spans != [] {
      var n := |spans| - 1;
      var b1 := PlaceAll(b, spans[..n]);
      PlaceAllRecords(b, spans[..n]);
      PlaceRecords(b1, spans[n]);
      SpansOfAppend(SpansOf(b.placed), spans, b1.placed, Placed(spans[n], ChosenLine(b1, spans[n])));
    }
  }

  lemma SpansOfAppend(base: seq<Span>, spans: seq<Span>, placed: seq<Placed>, q: Placed)
    requires spans != [] && q.span == spans[|spans| - 1]
    requires SpansOf(placed) == base + spans[..|spans| - 1]
    ensures SpansOf(placed + [q]) == base + spans
  {
    assert SpansOf(placed + [q]) == SpansOf(placed) + [q.span];
    assert base + spans == base + spans[..|spans| - 1] + [spans[|spans| - 1]];
  }

  lemma {:induction false} PlaceAllTight(b: Board, spans: seq<Span>, p: Pid)
    requires Safe(b, p) && Tight(b, p) && AllTested(spans, p)
    requires Orderly(PlaceAll(b, spans).placed, p)
    ensures Tight(PlaceAll(b, spans), p)
    decreases |spans|
  {
    if spans != [] {
      var n := |spans| - 1;
      var b1 := PlaceAll(b, spans[..n]);
      PlaceRecords(b1, spans[n]);
      PrefixOrderly(b1.placed, Placed(spans[n], ChosenLine(b1, spans[n])), p);
      PlaceAllSafe(b, spans[..n], p);
      PlaceAllTight(b, spans[..n], p);
      PlaceTight(b1, spans[n], p);
    }
  }

  lemma OrderlyBefore(a: seq<Placed>, b: seq<Placed>, p: Pid)
    requires a <= b && Orderly(b, p)
    ensures Orderly(a, p)
  {
    assert forall i :: 0 <= i < |a| ==> a[i] == b[i];
  }

  lemma PrefixOrderly(placed: seq<Placed>, q: Placed, p: Pid)
    requires Orderly(placed + [q], p)
    ensures Orderly(placed, p) && (q.span.pid == p ==> Positive(q.span))
  {
    OrderlyBefore(placed, placed + [q], p);
    assert (placed + [q])[|placed|] == q;
  }

  function Concat(requests: seq<seq<Span>>): seq<Span> {
    if requests == [] then [] else Concat(requests[..|requests| - 1]) + requests[|requests| - 1]
  }

  /** The spans of process `p` have positive length. */
  ghost predicate AllPositive(spans: seq<Span>, p: Pid) {
    forall s :: s in spans && s.pid == p ==> Positive(s)
  }

  lemma {:induction false} PlaceRequestsRecords(b: Board, requests: seq<seq<Span>>)
    requires Valid(b)
    ensures SpansOf(PlaceRequests(b, requests).placed) == SpansOf(b.placed) + Concat(requests)
    decreases |requests|
  {
    if requests != [] {
      var n := |requests| - 1;
      var b1 := PlaceRequests(b, requests[..n]);
      PlaceRequestsRecords(b, requests[..n]);
      PlaceAllRecords(NewRequest(b1), requests[n]);
      Associative(SpansOf(b.placed), Concat(requests[..n]), requests[n]);
    }
  }

  lemma Associative(a: seq<Span>, b: seq<Span>, c: seq<Span>)
    ensures a + b + c == a + (b + c)
  {
  }

  lemma NewRequestSafe(b: Board, p: Pid)
    requires Safe(b, p)
    ensures Safe(NewRequest(b), p) && (Tight(b, p) ==> Tight(NewRequest(b), p))
  {
    forall l ensures Lane(NewRequest(b), p, l) == Lane(b, p, l) {}
    if Tight(b, p) {
      var t :| |LinesOf(b, p)| <= |Live(b.placed, p, t)|;
      assert |LinesOf(NewRequest(b), p)| <= |Live(NewRequest(b).placed, p, t)|;
    }
  }

  lemma PrefixTested(requests: seq<seq<Span>>, p: Pid)
    requires requests != [] && AllTested(Concat(requests), p)
    ensures AllTested(Concat(requests[..|requests| - 1]), p) && AllTested(requests[|requests| - 1], p)
  {
    var n := |requests| - 1;
    assert forall s :: s in Concat(requests[..n]) ==> s in Concat(requests);
    assert forall s :: s in requests[n] ==> s in Concat(requests);
  }

  /** No two spans on the same line of a process overlap, across all requests of the run. */
  lemma {:induction false} PlaceRequestsSafe(b: Board, requests: seq<seq<Span>>, p: Pid)
    requires Safe(b, p) && AllTested(Concat(requests), p)
    ensures Safe(PlaceRequests(b, requests), p)
    decreases |requests|
  {
    if requests != [] {
      var n := |requests| - 1;
      PrefixTested(requests, p);
      PlaceRequestsSafe(b, requests[..n], p);
      NewRequestSafe(PlaceRequests(b, requests[..n]), p);
      PlaceAllSafe(NewRequest(PlaceRequests(b, requests[..n])), requests[n], p);
    }
  }

  lemma {:induction false} PlaceRequestsTight(b: Board, requests: seq<seq<Span>>, p: Pid)
    requires Safe(b, p) && Tight(b, p) && AllTested(Concat(requests), p)
    requires Orderly(PlaceRequests(b, requests).placed, p)
    ensures Tight(PlaceRequests(b, requests), p)
    decreases |requests|
  {
    if requests != [] {
      var n := |requests| - 1;
      var b1 := PlaceRequests(b, requests[..n]);
      PrefixTested(requests, p);
      PlaceRequestsSafe(b, requests[..n], p);
      PlaceAllRecords(NewRequest(b1), requests[n]);
      OrderlyBefore(b1.placed, PlaceRequests(b, requests).placed, p);
      PlaceRequestsTight(b, requests[..n], p);
      NewRequestSafe(b1, p);
      PlaceAllTight(NewRequest(b1), requests[n], p);
    }
  }

  // ---- generate_perfetto_span_layout ----

  const EMPTY := Board(map[], map[], [], [])

  lemma EmptyIsSafe()
    ensures Valid(EMPTY) && forall p :: Safe(EMPTY, p) && Tight(EMPTY, p)
  {
    forall p ensures Tight(EMPTY, p) {
      assert |LinesOf(EMPTY, p)| <= |Live(EMPTY.placed, p, 0)|;
    }
  }

  function FirstStart(r: seq<Span>): int { if r == [] then 0 else r[0].start }

  /** The spans of each request by start. */
  function EachOrdered(engine: seq<seq<Span>>): (each: seq<seq<Span>>)
    ensures |each| == |engine| && forall i :: 0 <= i < |each| ==> each[i] == SortBy((s: Span) => s.start, engine[i])
  {
    seq(|engine|, i requires 0 <= i < |engine| => SortBy((s: Span) => s.start, engine[i]))
  }

  /** The requests in the order in which they are laid out. */
  function Ordered(engine: seq<seq<Span>>): seq<seq<Span>> { SortBy(FirstStart, EachOrdered(engine)) }

  /** Requests that are in order already stay as they are. */
  lemma OrderedIsSame(engine: seq<seq<Span>>)
    requires forall r :: r in engine ==> SortedBy((s: Span) => s.start, r)
    requires SortedBy(FirstStart, engine)
    ensures Ordered(engine) == engine
  {
    var each := EachOrdered(engine);
    forall i | 0 <= i < |engine| ensures each[i] == engine[i] {
      assert engine[i] in engine;
      SortOfSorted((s: Span) => s.start, engine[i]);
    }
    assert each == engine;
    SortOfSorted(FirstStart, engine);
  }

  /** The layout run; a request without spans has no first span to sort by. */
  function Generate(engine: seq<seq<Span>>, smg: seq<Span>): Result<Board> {
    if [] in engine then Failure("IndexError")
    else
      EmptyIsSafe();
      var b := PlaceRequests(EMPTY, Ordered(engine));
      Success(PlaceAll(NewRequest(b), SortBy((s: Span) => s.start, smg)))
  }

  lemma {:induction false} ConcatSplit(a: seq<seq<Span>>, b: seq<seq<Span>>)
    ensures Concat(a + b) == Concat(a) + Concat(b)
  {
    if b == [] {
      assert a + b == a;
    } else {
      var n := |b| - 1;
      ConcatSplit(a, b[..n]);
      assert (a + b)[..|a| + n] == a + b[..n];
      Associative(Concat(a), Concat(b[..n]), b[n]);
    }
  }

  lemma ConcatRemoved(a: seq<seq<Span>>, k: nat)
    requires k < |a|
    ensures multiset(Concat(a)) == multiset(Concat(RemoveAt(a, k))) + multiset(a[k])
  {
    Around(a, k);
    ConcatMiddle(a[..k], a[k], a[k + 1..]);
  }

  lemma Around<T>(a: seq<T>, k: nat)
    requires k < |a|
    ensures a == (a[..k] + [a[k]]) + a[k + 1..] && RemoveAt(a, k) == a[..k] + a[k + 1..]
  {
  }

  lemma ConcatMiddle(head: seq<seq<Span>>, r: seq<Span>, tail: seq<seq<Span>>)
    ensures multiset(Concat((head + [r]) + tail)) == multiset(Concat(head + tail)) + multiset(r)
  {
    ConcatSplit(head, tail);
    ConcatSplit(head + [r], tail);
    ConcatLast(head, r);
    MultisetMiddle(Concat(head), r, Concat(tail));
  }

  lemma MultisetMiddle(x: seq<Span>, r: seq<Span>, y: seq<Span>)
    ensures multiset(x + r + y) == multiset(x + y) + multiset(r)
  {
  }

  lemma ConcatLast(a: seq<seq<Span>>, r: seq<Span>)
    ensures Concat(a + [r]) == Concat(a) + r
  {
    assert (a + [r])[..|a|] == a;
  }

  lemma {:induction false} ConcatPermuted(a: seq<seq<Span>>, b: seq<seq<Span>>)
    requires multiset(a) == multiset(b)
    ensures multiset(Concat(a)) == multiset(Concat(b))
    decreases |a|
  {
    if a != [] {
      var k := MatchLast(a, b);
      ConcatPermuted(a[..|a| - 1], RemoveAt(b, k));
      ConcatRemoved(b, k);
    } else {
      assert |b| == |multiset(b)| == |multiset(a)|;
    }
  }

  lemma {:induction false} ConcatEachPermuted(a: seq<seq<Span>>, b: seq<seq<Span>>)
    requires |a| == |b| && forall i :: 0 <= i < |a| ==> multiset(a[i]) == multiset(b[i])
    ensures multiset(Concat(a)) == multiset(Concat(b))
  {
    if a != [] {
      ConcatEachPermuted(a[..|a| - 1], b[..|b| - 1]);
    }
  }

  /** Ordering the requests keeps every span. */
  lemma OrderedKeepsSpans(engine: seq<seq<Span>>)
    ensures multiset(Concat(Ordered(engine))) == multiset(Concat(engine))
  {
    var each := EachOrdered(engine);
    ConcatEachPermuted(each, engine);
    ConcatPermuted(Ordered(engine), each);
  }

  /** The spans in the order in which they are laid out. */
  function Arrivals(engine: seq<seq<Span>>, smg: seq<Span>): seq<Span> {
    Concat(Ordered(engine)) + SortBy((s: Span) => s.start, smg)
  }

  lemma RecordsFromEmpty(requests: seq<seq<Span>>, last: seq<Span>)
    requires Valid(EMPTY)
    ensures SpansOf(PlaceAll(NewRequest(PlaceRequests(EMPTY, requests)), last).placed) == Concat(requests) + last
  {
    PlaceRequestsRecords(EMPTY, requests);
    PlaceAllRecords(NewRequest(PlaceRequests(EMPTY, requests)), last);
    assert SpansOf(EMPTY.placed) + Concat(requests) == Concat(requests);
  }

  lemma GenerateRecords(engine: seq<seq<Span>>, smg: seq<Span>)
    requires Generate(engine, smg).Success?
    ensures SpansOf(Generate(engine, smg).value.placed) == Arrivals(engine, smg)
  {
    EmptyIsSafe();
    RecordsFromEmpty(Ordered(engine), SortBy((s: Span) => s.start, smg));
  }

  /**
  Whatever the spans, the run fails only on a request without spans, and otherwise
  gives every span exactly one line and places nothing else.
   */
  lemma LayoutIsComplete(engine: seq<seq<Span>>, smg: seq<Span>)
    ensures Generate(engine, smg).Success? <==> forall r :: r in engine ==> |r| > 0
    ensures Generate(engine, smg).Success? ==>
      multiset(SpansOf(Generate(engine, smg).value.placed)) == multiset(Concat(engine)) + multiset(smg)
  {
    if Generate(engine, smg).Success? {
      GenerateRecords(engine, smg);
      OrderedKeepsSpans(engine);
    }
  }

  lemma ArrivalsTested(engine: seq<seq<Span>>, smg: seq<Span>, p: Pid)
    requires AllTested(Concat(engine) + smg, p)
    ensures AllTested(Concat(Ordered(engine)), p) && AllTested(SortBy((s: Span) => s.start, smg), p)
  {
    OrderedKeepsSpans(engine);
    SameMembers(Concat(engine), Concat(Ordered(engine)));
    SameMembers(smg, SortBy((s: Span) => s.start, smg));
    assert forall s :: s in Concat(engine) || s in smg ==> s in Concat(engine) + smg;
  }

  /**
  A process none of whose spans has start and end equal has no overlap on any line,
  across all requests. Its spans may end before they start.
   */
  lemma LayoutIsSafe(engine: seq<seq<Span>>, smg: seq<Span>, p: Pid)
    requires AllTested(Concat(engine) + smg, p) && Generate(engine, smg).Success?
    ensures Safe(Generate(engine, smg).value, p)
  {
    var b := PlaceRequests(EMPTY, Ordered(engine));
    ArrivalsTested(engine, smg, p);
    EmptyIsSafe();
    PlaceRequestsSafe(EMPTY, Ordered(engine), p);
    NewRequestSafe(b, p);
    PlaceAllSafe(NewRequest(b), SortBy((s: Span) => s.start, smg), p);
  }

  lemma SameMembers(a: seq<Span>, b: seq<Span>)
    requires multiset(a) == multiset(b)
    ensures forall s :: s in b <==> s in a
  {
    forall s ensures s in b <==> s in a {
      assert s in a <==> s in multiset(a);
    }
  }

  /** The number of lines is the largest number of spans live at one instant. */
  ghost predicate IsPeak(n: nat, spans: seq<Span>, p: Pid) {
    && (forall t :: LiveCount(spans, p, t) <= n)
    && (exists t :: LiveCount(spans, p, t) == n)
  }

  lemma TightIsPeak(b: Board, p: Pid)
    requires Safe(b, p) && Tight(b, p)
    ensures IsPeak(|LinesOf(b, p)|, SpansOf(b.placed), p)
  {
    forall t ensures LiveCount(SpansOf(b.placed), p, t) <= |LinesOf(b, p)| {
      LinesCoverLive(b, p, t);
      LiveSize(b.placed, p, t);
    }
    var t :| |LinesOf(b, p)| <= |Live(b.placed, p, t)|;
    LiveSize(b.placed, p, t);
    assert LiveCount(SpansOf(b.placed), p, t) == |LinesOf(b, p)|;
  }

  /** The spans of `p` start in the order in which they are laid out. */
  ghost predicate InStartOrder(spans: seq<Span>, p: Pid) {
    forall i, j :: 0 <= i < j < |spans| && spans[i].pid == p && spans[j].pid == p ==> spans[i].start <= spans[j].start
  }

  lemma RecordedInOrder(placed: seq<Placed>, spans: seq<Span>, p: Pid)
    requires SpansOf(placed) == spans && InStartOrder(spans, p) && AllPositive(spans, p)
    ensures Orderly(placed, p)
  {
    assert forall i :: 0 <= i < |placed| ==> placed[i].span == spans[i] && spans[i] in spans;
  }

  lemma ArrivalsPositive(engine: seq<seq<Span>>, smg: seq<Span>, p: Pid)
    requires AllPositive(Concat(engine) + smg, p)
    ensures AllPositive(Arrivals(engine, smg), p)
  {
    OrderedKeepsSpans(engine);
    SameMembers(Concat(engine), Concat(Ordered(engine)));
    SameMembers(smg, SortBy((s: Span) => s.start, smg));
    assert forall s :: s in Concat(engine) || s in smg ==> s in Concat(engine) + smg;
  }

  /** Optimal colouring, for any process whose spans have positive length and arrive in start order. */
  lemma LinesArePeak(engine: seq<seq<Span>>, smg: seq<Span>, p: Pid)
    requires AllPositive(Concat(engine) + smg, p) && InStartOrder(Arrivals(engine, smg), p)
    requires Generate(engine, smg).Success?
    ensures IsPeak(|LinesOf(Generate(engine, smg).value, p)|, Concat(engine) + smg, p)
  {
    var b := Generate(engine, smg).value;
    GenerateRecords(engine, smg);
    ArrivalsPositive(engine, smg, p);
    RecordedInOrder(b.placed, Arrivals(engine, smg), p);
    LayoutIsTight(engine, smg, p);
    LayoutIsSafe(engine, smg, p);
    TightIsPeak(b, p);
    OrderedKeepsSpans(engine);
    PeakPermuted(|LinesOf(b, p)|, SpansOf(b.placed), Concat(engine) + smg, p);
  }

  lemma LayoutIsTight(engine: seq<seq<Span>>, smg: seq<Span>, p: Pid)
    requires AllTested(Concat(engine) + smg, p) && Generate(engine, smg).Success?
    requires Orderly(Generate(engine, smg).value.placed, p)
    ensures Tight(Generate(engine, smg).value, p)
  {
    var sorted := SortBy((s: Span) => s.start, smg);
    var b0 := PlaceRequests(EMPTY, Ordered(engine));
    ArrivalsTested(engine, smg, p);
    EmptyIsSafe();
    PlaceRequestsSafe(EMPTY, Ordered(engine), p);
    PlaceAllRecords(NewRequest(b0), sorted);
    OrderlyBefore(b0.placed, Generate(engine, smg).value.placed, p);
    PlaceRequestsTight(EMPTY, Ordered(engine), p);
    NewRequestSafe(b0, p);
    PlaceAllTight(NewRequest(b0), sorted, p);
  }

  lemma PeakPermuted(n: nat, a: seq<Span>, b: seq<Span>, p: Pid)
    requires IsPeak(n, a, p) && multiset(a) == multiset(b)
    ensures IsPeak(n, b, p)
  {
    forall t ensures LiveCount(a, p, t) == LiveCount(b, p, t) {
      LiveCountPermuted(a, b, p, t);
    }
    var t :| LiveCount(a, p, t) == n;
    assert LiveCount(b, p, t) == n;
  }
}
