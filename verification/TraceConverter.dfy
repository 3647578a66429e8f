/**
The layout code in the form it is written: containers that are changed in
place, reached through the dictionaries of a run
(scripts/convert_otel_2_perfetto.py).
 */
module TraceConverter {
  import opened Sorting
  import opened SpanIntervals
  import opened TraceLayout
  import opened TraceOptimality

  class SpanLayoutContainer {
    var intervals: seq<Interval>

    constructor (intervals: seq<Interval>)
      ensures this.intervals == intervals
    {
      this.intervals := intervals;
    }

    method CheckOverlap(start: int, end: int) returns (overlap: bool)
      requires Sorted(intervals)
      ensures overlap <==> NeighbourTest(intervals, start, end)
    {
      var idx := BisectStart(intervals, start);
      if idx > 0 {
        var prev := intervals[idx - 1];
        if prev.end > start {
          return true;
        }
      }
      if idx < |intervals| {
        var next := intervals[idx];
        if next.start < end {
          return true;
        }
      }
      return false;
    }

    method InsertSpan(start: int, end: int)
      requires Sorted(intervals)
      modifies this
      ensures Sorted(intervals) && intervals == Insort(old(intervals), Interval(start, end))
    {
      InsortIsSorted(intervals, Interval(start, end));
      var k := BisectLeft(intervals, Interval(start, end));
      intervals := intervals[..k] + [Interval(start, end)] + intervals[k..];
    }
  }

  /**
  The dictionaries of one run; `status` is the per-request dictionary of sticky
  lines.  The list kept by each line's container is held by value, and the container
  is made around it when it is used.
   */
  class LayoutRun {
    var graph: map<Pid, Lines>
    var status: map<Pid, int>
    var slots: seq<(Pid, int)>
    var placed: seq<Placed>

    function View(): Board
      reads this
    {
      Board(graph, status, slots, placed)
    }

    constructor ()
      ensures Valid(View()) && View() == EMPTY
    {
      graph, status, slots, placed := map[], map[], [], [];
      new;
      EmptyIsSafe();
    }

    method FindLine(s: Span) returns (line: int)
      requires Valid(View())
      modifies this`graph, this`status, this`slots
      ensures line == ChosenLine(old(View()), s) && View() == TraceLayout.FindLine(old(View()), s)
    {
      if s.pid in status {
        line := status[s.pid];
        if s.start == s.end {
          return;
        }
        var container := new SpanLayoutContainer(Lane(View(), s.pid, line));
        var overlap := container.CheckOverlap(s.start, s.end);
        if !overlap {
          return;
        }
      }
      if s.pid !in graph {
        line := 1;
        graph := graph[s.pid := map[line := []]];
        status := status[s.pid := line];
        slots := slots + [(s.pid, line)];
        return;
      }
      line := FirstFreeLine(s);
      if line <= |graph[s.pid]| {
        status := status[s.pid := line];
      } else {
        graph := graph[s.pid := graph[s.pid][line := []]];
        status := status[s.pid := line];
        slots := slots + [(s.pid, line)];
      }
    }

    /** The scan over the lines of a process, in insertion order. */
    method FirstFreeLine(s: Span) returns (line: int)
      requires Valid(View()) && s.pid in graph
      ensures 1 <= line <= |graph[s.pid]| + 1
      ensures line == FirstFree(graph[s.pid], s.start, s.end)
    {
      assert LinesOk(graph[s.pid]);
      line := 1;
      while line <= |graph[s.pid]|
        invariant 1 <= line <= |graph[s.pid]| + 1
        invariant FirstFree(graph[s.pid], s.start, s.end, line) == FirstFree(graph[s.pid], s.start, s.end)
      {
        var container := new SpanLayoutContainer(graph[s.pid][line]);
        var overlap := container.CheckOverlap(s.start, s.end);
        if !overlap {
          return;
        }
        line := line + 1;
      }
    }

    method InsertSpan(s: Span, line: int)
      requires Valid(View()) && s.pid in graph && line in graph[s.pid]
      modifies this`graph, this`placed
      ensures View() == Insert(old(View()), s, line)
    {
      var container := new SpanLayoutContainer(Lane(View(), s.pid, line));
      container.InsertSpan(s.start, s.end);
      graph := graph[s.pid := graph[s.pid][line := container.intervals]];
      placed := placed + [Placed(s, line)];
    }

    method PlaceSpan(s: Span)
      requires Valid(View())
      modifies this
      ensures Valid(View()) && View() == Place(old(View()), s)
    {
      ghost var before := View();
      FindLineValid(before, s);
      var line := FindLine(s);
      ghost var found := View();
      InsertValid(found, s, line);
      InsertSpan(s, line);
      assert View() == Insert(found, s, line);
    }

    /** One request: the sticky lines start empty. */
    method PlaceRequest(spans: seq<Span>)
      requires Valid(View())
      modifies this
      ensures Valid(View()) && View() == PlaceAll(NewRequest(old(View())), spans)
    {
      ghost var before := NewRequest(View());
      status := map[];
      for i := 0 to |spans|
        invariant Valid(View()) && View() == PlaceAll(before, spans[..i])
      {
        PlaceSpan(spans[i]);
        assert spans[..i + 1][..i] == spans[..i];
      }
      assert spans[..|spans|] == spans;
    }
  
    method PlaceEach(requests: seq<seq<Span>>)
      requires Valid(View())
      modifies this
      ensures Valid(View()) && View() == PlaceRequests(old(View()), requests)
    {
      ghost var before := View();
      for i := 0 to |requests|
        invariant Valid(View()) && View() == PlaceRequests(before, requests[..i])
      {
        PlaceRequest(requests[i]);
        assert requests[..i + 1][..i] == requests[..i];
      }
      assert requests[..|requests|] == requests;
    }
  }

  /** `generate_perfetto_span_layout`. */
  method GenerateLayout(engine: seq<seq<Span>>, smg: seq<Span>) returns (ok: bool, run: LayoutRun)
    ensures fresh(run)
    ensures ok <==> Generate(engine, smg).Success?
    ensures ok ==> run.View() == Generate(engine, smg).value
  {
    run := new LayoutRun();
    ok := [] !in engine;
    if ok {
      run.PlaceEach(Ordered(engine));
      run.PlaceRequest(SortBy((s: Span) => s.start, smg));
    }
  }
}
