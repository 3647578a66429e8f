/**
The order in which the trace converter lays spans out, and what it means for the number of
lines: requests are sorted by their earliest span, and a process whose spans take turns by
request gets the optimal number, in whatever order the requests are listed
(`generate_perfetto_span_layout` of scripts/convert_otel_2_perfetto.py).
 */
module TraceArrivals {
  import opened Sorting
  import opened TraceLayout
  import opened TraceOptimality

  // ---- The order of the requests ----

  /** The spans of `r` in the order of their starts. */
  ghost predicate ByStart(r: seq<Span>) { forall i, j :: 0 <= i < j < |r| ==> r[i].start <= r[j].start }

  /**
  The requests are laid out in the order of their first spans, each with its own spans in the
  order of their starts: `perm` says which request of the input comes when. Requests with
  equal first starts stay as they were listed.
   */
  lemma OrderedIs(engine: seq<seq<Span>>) returns (perm: seq<nat>)
    ensures |Ordered(engine)| == |engine| && Permutes(perm, |engine|)
    ensures forall i :: 0 <= i < |engine| ==>
      ByStart(Ordered(engine)[i]) && multiset(Ordered(engine)[i]) == multiset(engine[perm[i]])
    ensures forall i, j :: 0 <= i < j < |engine| ==> FirstStart(Ordered(engine)[i]) <= FirstStart(Ordered(engine)[j])
    ensures forall i, j :: 0 <= i < j < |engine| && FirstStart(Ordered(engine)[i]) == FirstStart(Ordered(engine)[j]) ==>
      perm[i] < perm[j]
  {
    perm := SortArranges(FirstStart, EachOrdered(engine));
    forall i | 0 <= i < |engine|
      ensures ByStart(Ordered(engine)[i]) && multiset(Ordered(engine)[i]) == multiset(engine[perm[i]])
    {
      assert Ordered(engine)[i] == SortBy((s: Span) => s.start, engine[perm[i]]);
      SortedIsByStart(engine[perm[i]]);
    }
  }

  lemma SortedIsByStart(r: seq<Span>)
    ensures ByStart(SortBy((s: Span) => s.start, r)) && multiset(SortBy((s: Span) => s.start, r)) == multiset(r)
  {
    var key, sorted := (s: Span) => s.start, SortBy((s: Span) => s.start, r);
    assert forall i :: 0 <= i < |sorted| ==> key(sorted[i]) == sorted[i].start;
  }

  // ---- Start order, said of the input ----

  /** Some span of `a` starts no later than any of `b`. */
  ghost predicate OpensNoLater(a: seq<Span>, b: seq<Span>) {
    exists s :: s in a && forall t :: t in b ==> s.start <= t.start
  }

  /** The spans of `p` in `a` start no later than those in `b`. */
  ghost predicate Precedes(a: seq<Span>, b: seq<Span>, p: Pid) {
    forall s, t :: s in a && t in b && s.pid == p && t.pid == p ==> s.start <= t.start
  }

  /** Of two requests, the one that opens first (`a`, if both do) has the earlier spans of `p`. */
  ghost predicate InTurnBy(a: seq<Span>, b: seq<Span>, p: Pid) {
    if OpensNoLater(a, b) then Precedes(a, b, p) else Precedes(b, a, p)
  }

  /**
  The spans of `p` take turns by request, in the order in which the requests open, and come
  before those of the gateway.
   */
  ghost predicate TakeTurns(engine: seq<seq<Span>>, smg: seq<Span>, p: Pid) {
    && (forall i, j :: 0 <= i < j < |engine| ==> InTurnBy(engine[i], engine[j], p))
    && (forall i :: 0 <= i < |engine| ==> Precedes(engine[i], smg, p))
  }

  lemma SameSpans(a: seq<Span>, b: seq<Span>, s: Span)
    requires multiset(a) == multiset(b)
    ensures s in a <==> s in b
  {
    assert s in a <==> s in multiset(a);
    assert s in b <==> s in multiset(b);
  }

  lemma PrecedesPermuted(a: seq<Span>, b: seq<Span>, a': seq<Span>, b': seq<Span>, p: Pid)
    requires multiset(a) == multiset(a') && multiset(b) == multiset(b')
    ensures Precedes(a, b, p) <==> Precedes(a', b', p)
  {
    forall s ensures (s in a <==> s in a') && (s in b <==> s in b') {
      SameSpans(a, a', s);
      SameSpans(b, b', s);
    }
  }

  /** The first start of an ordered request is the earliest of its spans. */
  lemma FirstIsEarliest(r: seq<Span>, sorted: seq<Span>)
    requires r != [] && ByStart(sorted) && multiset(sorted) == multiset(r)
    ensures sorted != [] && sorted[0] in r && sorted[0].start == FirstStart(sorted)
    ensures forall s :: s in r ==> sorted[0].start <= s.start
  {
    assert |sorted| == |multiset(sorted)| == |multiset(r)| == |r|;
    SameSpans(r, sorted, sorted[0]);
    forall s | s in r ensures sorted[0].start <= s.start {
      SameSpans(r, sorted, s);
      var k :| 0 <= k < |sorted| && sorted[k] == s;
    }
  }

  /** Comparing first starts is comparing the openings. */
  lemma OpensIffFirst(a: seq<Span>, b: seq<Span>, a': seq<Span>, b': seq<Span>)
    requires a != [] && b != [] && ByStart(a') && ByStart(b') && multiset(a') == multiset(a) && multiset(b') == multiset(b)
    ensures OpensNoLater(a, b) <==> FirstStart(a') <= FirstStart(b')
  {
    FirstIsEarliest(a, a');
    FirstIsEarliest(b, b');
    if FirstStart(a') <= FirstStart(b') {
      assert a'[0] in a && forall t :: t in b ==> a'[0].start <= t.start;
    }
  }

  // ---- A concatenation in start order ----

  lemma JoinInOrder(a: seq<Span>, b: seq<Span>, p: Pid)
    ensures InStartOrder(a + b, p) <==> InStartOrder(a, p) && InStartOrder(b, p) && Precedes(a, b, p)
  {
    if InStartOrder(a + b, p) { HalvesInOrder(a, b, p); }
    if InStartOrder(a, p) && InStartOrder(b, p) && Precedes(a, b, p) { HalvesJoin(a, b, p); }
  }

  lemma HalvesInOrder(a: seq<Span>, b: seq<Span>, p: Pid)
    requires InStartOrder(a + b, p)
    ensures InStartOrder(a, p) && InStartOrder(b, p) && Precedes(a, b, p)
  {
    var r := a + b;
    assert forall i :: 0 <= i < |a| ==> r[i] == a[i];
    assert forall i :: 0 <= i < |b| ==> r[|a| + i] == b[i];
    forall s, t | s in a && t in b && s.pid == p && t.pid == p ensures s.start <= t.start {
      var i :| 0 <= i < |a| && a[i] == s;
      var j :| 0 <= j < |b| && b[j] == t;
      assert r[i] == s && r[|a| + j] == t;
    }
    forall i, j | 0 <= i < j < |b| && b[i].pid == p && b[j].pid == p ensures b[i].start <= b[j].start {
      assert r[|a| + i] == b[i] && r[|a| + j] == b[j];
    }
  }

  lemma HalvesJoin(a: seq<Span>, b: seq<Span>, p: Pid)
    requires InStartOrder(a, p) && InStartOrder(b, p) && Precedes(a, b, p)
    ensures InStartOrder(a + b, p)
  {
    var r := a + b;
    forall i, j | 0 <= i < j < |r| && r[i].pid == p && r[j].pid == p ensures r[i].start <= r[j].start {
      if i < |a| && j >= |a| {
        assert r[i] == a[i] && a[i] in a && r[j] == b[j - |a|] && b[j - |a|] in b;
      }
    }
  }

  /** Every request in turn. */
  ghost predicate InTurn(requests: seq<seq<Span>>, p: Pid) {
    forall i, j :: 0 <= i < j < |requests| ==> Precedes(requests[i], requests[j], p)
  }

  lemma {:induction false} ConcatPrecedes(requests: seq<seq<Span>>, b: seq<Span>, p: Pid)
    ensures Precedes(Concat(requests), b, p) <==> forall i :: 0 <= i < |requests| ==> Precedes(requests[i], b, p)
  {
    if requests != [] {
      var n := |requests| - 1;
      ConcatPrecedes(requests[..n], b, p);
      JoinPrecedes(Concat(requests[..n]), requests[n], b, p);
      assert forall i :: 0 <= i < n ==> requests[..n][i] == requests[i];
    }
  }

  lemma JoinPrecedes(a: seq<Span>, c: seq<Span>, b: seq<Span>, p: Pid)
    ensures Precedes(a + c, b, p) <==> Precedes(a, b, p) && Precedes(c, b, p)
  {
    assert forall s :: s in a + c <==> s in a || s in c;
  }

  lemma InTurnFront(requests: seq<seq<Span>>, p: Pid)
    requires requests != []
    ensures var n := |requests| - 1;
            InTurn(requests, p) <==>
              InTurn(requests[..n], p) && forall i :: 0 <= i < n ==> Precedes(requests[i], requests[n], p)
  {
    var n := |requests| - 1;
    assert forall i :: 0 <= i < n ==> requests[..n][i] == requests[i];
  }

  lemma {:induction false} ConcatInOrder(requests: seq<seq<Span>>, p: Pid)
    requires forall i :: 0 <= i < |requests| ==> ByStart(requests[i])
    ensures InStartOrder(Concat(requests), p) <==> InTurn(requests, p)
  {
    if requests != [] {
      var n := |requests| - 1;
      assert forall i :: 0 <= i < n ==> requests[..n][i] == requests[i];
      ConcatInOrder(requests[..n], p);
      ConcatPrecedes(requests[..n], requests[n], p);
      JoinInOrder(Concat(requests[..n]), requests[n], p);
      InTurnFront(requests, p);
    }
  }

  // ---- The two conditions agree ----

  /** `perm` is the order in which the requests are laid out. */
  ghost predicate LaidOut(engine: seq<seq<Span>>, o: seq<seq<Span>>, perm: seq<nat>) {
    && |o| == |engine| && Permutes(perm, |engine|) && (forall r :: r in engine ==> r != [])
    && (forall i :: 0 <= i < |engine| ==> ByStart(o[i]) && multiset(o[i]) == multiset(engine[perm[i]]))
    && (forall i, j :: 0 <= i < j < |engine| ==> FirstStart(o[i]) <= FirstStart(o[j]))
    && (forall i, j :: 0 <= i < j < |engine| && FirstStart(o[i]) == FirstStart(o[j]) ==> perm[i] < perm[j])
  }

  /** The requests laid out at `a` and `b` stand, in the input, in the order `perm[a]`, `perm[b]` or the other way. */
  lemma PairIff(engine: seq<seq<Span>>, o: seq<seq<Span>>, perm: seq<nat>, a: nat, b: nat, p: Pid)
    requires LaidOut(engine, o, perm) && a < b < |engine|
    ensures perm[a] < |engine| && perm[b] < |engine| && perm[a] != perm[b]
    ensures Precedes(o[a], o[b], p) <==>
      if perm[a] < perm[b] then InTurnBy(engine[perm[a]], engine[perm[b]], p)
      else InTurnBy(engine[perm[b]], engine[perm[a]], p)
  {
    var i, j := perm[a], perm[b];
    assert engine[i] in engine && engine[j] in engine;
    PrecedesPermuted(o[a], o[b], engine[i], engine[j], p);
    OpensIffFirst(engine[i], engine[j], o[a], o[b]);
    OpensIffFirst(engine[j], engine[i], o[b], o[a]);
  }

  lemma TurnOf(engine: seq<seq<Span>>, o: seq<seq<Span>>, perm: seq<nat>, i: nat, j: nat, p: Pid)
    requires LaidOut(engine, o, perm) && InTurn(o, p) && i < j < |engine|
    ensures InTurnBy(engine[i], engine[j], p)
  {
    assert i in perm && j in perm;
    var a :| 0 <= a < |perm| && perm[a] == i;
    var b :| 0 <= b < |perm| && perm[b] == j;
    if a < b {
      PairIff(engine, o, perm, a, b, p);
    } else {
      PairIff(engine, o, perm, b, a, p);
    }
  }

  lemma InTurnIff(engine: seq<seq<Span>>, p: Pid)
    requires forall r :: r in engine ==> r != []
    ensures InTurn(Ordered(engine), p) <==> forall i, j :: 0 <= i < j < |engine| ==> InTurnBy(engine[i], engine[j], p)
  {
    var perm := OrderedIs(engine);
    var o := Ordered(engine);
    assert LaidOut(engine, o, perm);
    if InTurn(o, p) {
      forall i, j | 0 <= i < j < |engine| ensures InTurnBy(engine[i], engine[j], p) { TurnOf(engine, o, perm, i, j, p); }
    }
    if forall i, j :: 0 <= i < j < |engine| ==> InTurnBy(engine[i], engine[j], p) {
      forall a, b | 0 <= a < b < |o| ensures Precedes(o[a], o[b], p) { PairIff(engine, o, perm, a, b, p); }
    }
  }

  /** The spans of `p` are laid out in start order if and only if they take turns in the input. */
  lemma StartOrderIff(engine: seq<seq<Span>>, smg: seq<Span>, p: Pid)
    requires forall r :: r in engine ==> r != []
    ensures InStartOrder(Arrivals(engine, smg), p) <==> TakeTurns(engine, smg, p)
  {
    var last := SortBy((s: Span) => s.start, smg);
    var perm := OrderedIs(engine);
    SortedIsByStart(smg);
    ConcatInOrder(Ordered(engine), p);
    InTurnIff(engine, p);
    JoinInOrder(Concat(Ordered(engine)), last, p);
    OrderedKeepsSpans(engine);
    PrecedesPermuted(Concat(Ordered(engine)), last, Concat(engine), smg, p);
    ConcatPrecedes(engine, smg, p);
  }

  // ---- Optimality ----

  /**
  A process whose spans have positive length and take turns by request gets as many lines as
  it has spans live at one instant, in whatever order the requests and their spans are listed.
   */
  lemma LinesAreOptimal(engine: seq<seq<Span>>, smg: seq<Span>, p: Pid)
    requires AllPositive(Concat(engine) + smg, p) && TakeTurns(engine, smg, p) && Generate(engine, smg).Success?
    ensures IsPeak(|LinesOf(Generate(engine, smg).value, p)|, Concat(engine) + smg, p)
  {
    StartOrderIff(engine, smg, p);
    LinesArePeak(engine, smg, p);
  }

  ghost predicate LayoutInput(engine: seq<seq<Span>>, smg: seq<Span>) {
    && (forall s :: s in Concat(engine) ==> s.pid.Process?)
    && (forall s :: s in smg ==> s.pid == Smg)
  }

  /** The gateway process, whose spans are laid out last, gets the optimal number of lines. */
  lemma SmgLinesAreOptimal(engine: seq<seq<Span>>, smg: seq<Span>)
    requires LayoutInput(engine, smg) && AllPositive(smg, Smg)
    requires Generate(engine, smg).Success?
    ensures IsPeak(|LinesOf(Generate(engine, smg).value, Smg)|, smg, Smg)
  {
    var b := Generate(engine, smg).value;
    SmgTakesTurns(engine, smg);
    LinesAreOptimal(engine, smg, Smg);
    forall t ensures LiveCount(Concat(engine) + smg, Smg, t) == LiveCount(smg, Smg, t) {
      LiveCountConcat(Concat(engine), smg, Smg, t);
      NoneLive(Concat(engine), Smg, t);
    }
    var t :| LiveCount(Concat(engine) + smg, Smg, t) == |LinesOf(b, Smg)|;
    assert LiveCount(smg, Smg, t) == |LinesOf(b, Smg)|;
  }

  lemma {:induction false} NoneLive(spans: seq<Span>, p: Pid, t: int)
    requires forall s :: s in spans ==> s.pid != p
    ensures LiveCount(spans, p, t) == 0
  {
    if spans != [] { NoneLive(spans[..|spans| - 1], p, t); }
  }

  lemma SmgTakesTurns(engine: seq<seq<Span>>, smg: seq<Span>)
    requires LayoutInput(engine, smg)
    ensures TakeTurns(engine, smg, Smg)
  {
    forall i, s | 0 <= i < |engine| && s in engine[i] ensures s.pid != Smg {
      InConcat(engine, i, s);
    }
  }

  lemma {:induction false} InConcat(requests: seq<seq<Span>>, i: nat, s: Span)
    requires i < |requests| && s in requests[i]
    ensures s in Concat(requests)
  {
    if i < |requests| - 1 { InConcat(requests[..|requests| - 1], i, s); }
  }
}
