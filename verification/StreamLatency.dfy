/**
The latencies measured on a streamed answer: the time to the first token, and one
inter-token latency per later token, where the gap of a chunk is shared evenly by
the tokens it brings (benchmark/hicache/bench_warm_cache.py). Clock readings are
real numbers; a chunk is a reading and the token count it reports.
 */
module StreamLatency {

  datatype Chunk = Chunk(time: real, count: int)

  datatype Meter = Meter(ttft: real, recent: real, last: int, itl: seq<real>, outputLen: int)

  function Start(st: real): Meter { Meter(0.0, st, 0, [], 0) }

  /** `[x] * n`: empty for a negative `n`. */
  function Repeat(x: real, n: int): seq<real> {
    if n <= 0 then [] else Repeat(x, n - 1) + [x]
  }

  /** The latencies of a chunk: its gap is shared by the tokens it brings. */
  function Shares(gap: real, n: int): seq<real>
    requires n != 0
  {
    Repeat(gap / (n as real), n)
  }

  /** One chunk with text. */
  function Next(st: real, m: Meter, c: Chunk): Meter {
    if m.ttft == 0.0 then Meter(c.time - st, c.time, c.count, m.itl, c.count)
    else
      var n := c.count - m.last;
      if n == 0 then m
      else Meter(m.ttft, c.time, c.count, m.itl + Shares(c.time - m.recent, n), c.count)
  }

  function Fold(st: real, chunks: seq<Chunk>): Meter {
    if chunks == [] then Start(st) else Next(st, Fold(st, chunks[..|chunks| - 1]), chunks[|chunks| - 1])
  }

  /** The loop over the response. */
  method Measure(st: real, chunks: seq<Chunk>) returns (m: Meter)
    ensures m == Fold(st, chunks)
  {
    var ttft, recent, last, itl, outputLen := 0.0, st, 0, [], 0;
    for i := 0 to |chunks|
      invariant Meter(ttft, recent, last, itl, outputLen) == Fold(st, chunks[..i])
    {
      assert chunks[..i + 1][..i] == chunks[..i];
      var c := chunks[i];
      if ttft == 0.0 {
        ttft := c.time - st;
      } else {
        var n := c.count - last;
        if n == 0 { continue; }
        itl := itl + Repeat((c.time - recent) / (n as real), n);
      }
      recent, last, outputLen := c.time, c.count, c.count;
    }
    assert chunks[..|chunks|] == chunks;
    m := Meter(ttft, recent, last, itl, outputLen);
  }

  // ---- Sums ----

  function Sum(s: seq<real>): real {
    if s == [] then 0.0 else Sum(s[..|s| - 1]) + s[|s| - 1]
  }

  lemma {:induction false} SumConcat(a: seq<real>, b: seq<real>)
    ensures Sum(a + b) == Sum(a) + Sum(b)
  {
    if b == [] {
      assert a + b == a;
    } else {
      SumConcat(a, b[..|b| - 1]);
      assert (a + b)[..|a + b| - 1] == a + b[..|b| - 1];
    }
  }

  lemma {:induction false} SumRepeat(x: real, n: nat)
    ensures |Repeat(x, n)| == n && Sum(Repeat(x, n)) == n as real * x
  {
    if n > 0 {
      SumRepeat(x, n - 1);
      assert Repeat(x, n)[..n - 1] == Repeat(x, n - 1);
      assert n as real * x == (n - 1) as real * x + x;
    }
  }

  lemma ShareOut(gap: real, n: int)
    requires n > 0
    ensures Sum(Repeat(gap / (n as real), n)) == gap
  {
    var x := gap / (n as real);
    SumRepeat(x, n);
    assert n as real * x == gap;
  }

  /** What a chunk adds to the latencies: a share of the gap for each new token. */
  lemma NextLatencies(st: real, m: Meter, c: Chunk)
    ensures var added := Sum(Next(st, m, c).itl) - Sum(m.itl);
            added == if m.ttft == 0.0 || c.count <= m.last then 0.0 else c.time - m.recent
    ensures |Next(st, m, c).itl| - |m.itl| == if m.ttft == 0.0 || c.count <= m.last then 0 else c.count - m.last
  {
    var n := c.count - m.last;
    if m.ttft != 0.0 && n != 0 {
      var gap := c.time - m.recent;
      if n < 0 {
        assert m.itl + Repeat(gap / (n as real), n) == m.itl;
      } else {
        SumConcat(m.itl, Repeat(gap / (n as real), n));
        ShareOut(gap, n);
        SumRepeat(gap / (n as real), n);
      }
    }
  }

  // ---- Where the time goes ----

  /** The part of the elapsed time that no latency accounts for. */
  function Unaccounted(st: real, m: Meter): real {
    m.recent - st - (m.ttft + Sum(m.itl))
  }

  lemma NextUnaccounted(st: real, m: Meter, c: Chunk)
    ensures var lost := Unaccounted(st, Next(st, m, c)) - Unaccounted(st, m);
            if m.ttft == 0.0 then lost == st - m.recent
            else if c.count < m.last then lost == c.time - m.recent
            else lost == 0.0
  {
    NextLatencies(st, m, c);
  }

  /** The clock does not run backwards: readings may be equal, to the start as well. */
  ghost predicate Clocked(st: real, chunks: seq<Chunk>) {
    && (forall i :: 0 <= i < |chunks| ==> st <= chunks[i].time)
    && forall i, j :: 0 <= i < j < |chunks| ==> chunks[i].time <= chunks[j].time
  }

  /** What the meter holds after any number of chunks. */
  lemma {:induction false} MeterReadings(st: real, chunks: seq<Chunk>)
    requires Clocked(st, chunks)
    ensures var m := Fold(st, chunks);
            if chunks == [] then m == Start(st)
            else
              var c := chunks[|chunks| - 1];
              && m.last == c.count == m.outputLen && st <= m.recent <= c.time
              && (m.ttft == 0.0 <==> c.time == st) && (m.ttft == 0.0 ==> m.recent == st)
  {
    if chunks != [] { MeterReadings(st, chunks[..|chunks| - 1]); }
  }

  /**
  Chunk `k` loses time: it reports fewer tokens than the one before it, after the first
  token has been timed, and the clock has moved since the last counted chunk.
   */
  ghost predicate Loses(st: real, chunks: seq<Chunk>, k: nat)
    requires 0 < k < |chunks|
  {
    chunks[k].count < chunks[k - 1].count && st < chunks[k - 1].time && Fold(st, chunks[..k]).recent < chunks[k].time
  }

  ghost predicate NoneLoses(st: real, chunks: seq<Chunk>) {
    forall k :: 0 < k < |chunks| ==> !Loses(st, chunks, k)
  }

  lemma NoneLosesFront(st: real, chunks: seq<Chunk>)
    requires |chunks| >= 1
    ensures NoneLoses(st, chunks) <==>
      NoneLoses(st, chunks[..|chunks| - 1]) && (|chunks| >= 2 ==> !Loses(st, chunks, |chunks| - 1))
  {
    var n := |chunks| - 1;
    forall k | 0 < k < n ensures Loses(st, chunks[..n], k) <==> Loses(st, chunks, k) {
      assert chunks[..n][..k] == chunks[..k];
    }
  }

  /**
  The first-token time and the inter-token latencies add up to the time of the last
  counted chunk if and only if no chunk loses time.
   */
  lemma {:induction false} TimeIsAccountedIff(st: real, chunks: seq<Chunk>)
    requires Clocked(st, chunks)
    ensures Unaccounted(st, Fold(st, chunks)) >= 0.0
    ensures Unaccounted(st, Fold(st, chunks)) == 0.0 <==> NoneLoses(st, chunks)
  {
    if chunks != [] {
      var n := |chunks| - 1;
      TimeIsAccountedIff(st, chunks[..n]);
      MeterReadings(st, chunks[..n]);
      NextUnaccounted(st, Fold(st, chunks[..n]), chunks[n]);
      NoneLosesFront(st, chunks);
    }
  }

  ghost predicate Growing(chunks: seq<Chunk>) {
    forall i, j :: 0 <= i < j < |chunks| && j == i + 1 ==> chunks[i].count <= chunks[j].count
  }

  /** Counts that never fall lose nothing, even when the zero sentinel stays in place for a while. */
  lemma GrowingLosesNothing(st: real, chunks: seq<Chunk>)
    requires Clocked(st, chunks) && Growing(chunks)
    ensures Unaccounted(st, Fold(st, chunks)) == 0.0
  {
    TimeIsAccountedIff(st, chunks);
  }

  /** With a clock that moves from chunk to chunk, that is the only way. */
  lemma MovingClockIff(st: real, chunks: seq<Chunk>)
    requires Clocked(st, chunks)
    requires forall i :: 0 <= i < |chunks| ==> st < chunks[i].time
    requires forall i, j :: 0 <= i < j < |chunks| ==> chunks[i].time < chunks[j].time
    ensures Unaccounted(st, Fold(st, chunks)) == 0.0 <==> Growing(chunks)
  {
    TimeIsAccountedIff(st, chunks);
    forall k | 0 < k < |chunks| ensures Loses(st, chunks, k) <==> chunks[k].count < chunks[k - 1].count {
      MeterReadings(st, chunks[..k]);
    }
    if NoneLoses(st, chunks) {
      forall i, j | 0 <= i < j < |chunks| && j == i + 1 ensures chunks[i].count <= chunks[j].count {
        assert !Loses(st, chunks, j);
      }
    }
  }

  lemma GrowingFront(chunks: seq<Chunk>)
    requires Growing(chunks) && chunks != []
    ensures Growing(chunks[..|chunks| - 1])
    ensures |chunks| >= 2 ==> chunks[|chunks| - 2].count <= chunks[|chunks| - 1].count
  {
    var k := |chunks| - 1;
    assert forall i :: 0 <= i < k ==> chunks[..k][i] == chunks[i];
  }

  /** One latency per token after chunk `f`, the first that is read later than the start. */
  lemma {:induction false} OneLatencyPerToken(st: real, chunks: seq<Chunk>, f: nat)
    requires Clocked(st, chunks) && Growing(chunks) && f < |chunks|
    requires st < chunks[f].time && forall i :: 0 <= i < f ==> chunks[i].time == st
    ensures |Fold(st, chunks).itl| == chunks[|chunks| - 1].count - chunks[f].count
  {
    var n := |chunks| - 1;
    if f < n {
      GrowingFront(chunks);
      FrontIsClocked(st, chunks);
      OneLatencyPerToken(st, chunks[..n], f);
      LaterLatencies(st, chunks, f, |Fold(st, chunks[..n]).itl|);
    } else {
      FirstLatencies(st, chunks);
    }
  }

  lemma FrontIsClocked(st: real, chunks: seq<Chunk>)
    requires Clocked(st, chunks) && chunks != []
    ensures Clocked(st, chunks[..|chunks| - 1])
  {
  }

  lemma LaterLatencies(st: real, chunks: seq<Chunk>, f: nat, before: nat)
    requires Clocked(st, chunks) && f < |chunks| - 1 && st < chunks[f].time
    requires chunks[|chunks| - 2].count <= chunks[|chunks| - 1].count
    requires before == |Fold(st, chunks[..|chunks| - 1]).itl|
    ensures |Fold(st, chunks).itl| == before + chunks[|chunks| - 1].count - chunks[|chunks| - 2].count
  {
    LatencyStep(st, chunks);
    assert chunks[f].time <= chunks[|chunks| - 2].time;
  }

  lemma FirstLatencies(st: real, chunks: seq<Chunk>)
    requires Clocked(st, chunks) && chunks != []
    requires forall i :: 0 <= i < |chunks| - 1 ==> chunks[i].time == st
    ensures Fold(st, chunks).itl == []
  {
    NoLatencyBefore(st, chunks[..|chunks| - 1]);
  }

  /** The number of latencies a further chunk adds. */
  lemma LatencyStep(st: real, chunks: seq<Chunk>)
    requires Clocked(st, chunks) && chunks != []
    ensures var n := |chunks| - 1;
            |Fold(st, chunks).itl| - |Fold(st, chunks[..n]).itl|
            == if n == 0 || chunks[n - 1].time == st || chunks[n].count <= chunks[n - 1].count then 0
               else chunks[n].count - chunks[n - 1].count
  {
    var n := |chunks| - 1;
    MeterReadings(st, chunks[..n]);
    NextLatencies(st, Fold(st, chunks[..n]), chunks[n]);
  }

  lemma {:induction false} NoLatencyBefore(st: real, chunks: seq<Chunk>)
    requires forall i :: 0 <= i < |chunks| ==> chunks[i].time == st
    ensures Fold(st, chunks).itl == [] && Fold(st, chunks).ttft == 0.0
  {
    if chunks != [] { NoLatencyBefore(st, chunks[..|chunks| - 1]); }
  }

  /** The first-token time: that of the first chunk that is read later than the start. */
  lemma {:induction false} FirstTokenIs(st: real, chunks: seq<Chunk>, f: nat)
    requires f < |chunks| && chunks[f].time != st && forall i :: 0 <= i < f ==> chunks[i].time == st
    ensures Fold(st, chunks).ttft == chunks[f].time - st
  {
    var n := |chunks| - 1;
    if f < n {
      FirstTokenIs(st, chunks[..n], f);
    } else {
      NoLatencyBefore(st, chunks[..n]);
    }
  }

  /** Every element of a repetition is the repeated one. */
  lemma {:induction false} RepeatAt(x: real, n: nat, i: nat)
    requires i < n
    ensures |Repeat(x, n)| == n && Repeat(x, n)[i] == x
  {
    SumRepeat(x, n);
    if i < n - 1 {
      SumRepeat(x, n - 1);
      RepeatAt(x, n - 1, i);
    }
  }

  /** Later chunks only append. */
  lemma {:induction false} LatenciesStay(st: real, chunks: seq<Chunk>, k: nat)
    requires k <= |chunks|
    ensures Fold(st, chunks[..k]).itl <= Fold(st, chunks).itl
    decreases |chunks|
  {
    if k == |chunks| {
      assert chunks[..k] == chunks;
    } else {
      LatenciesStay(st, chunks[..|chunks| - 1], k);
      assert chunks[..|chunks| - 1][..k] == chunks[..k];
    }
  }

  /** Chunk `j` is the first timed one, `f`, or brings tokens, and none before `k` brings more. */
  ghost predicate LastToBring(chunks: seq<Chunk>, f: nat, j: nat, k: nat) {
    && f <= j < k <= |chunks| && (j == f || chunks[j - 1].count != chunks[j].count)
    && forall i :: j <= i < k ==> chunks[i].count == chunks[j].count
  }

  /** The time that the next gap is measured from. */
  lemma {:induction false} RecentIs(st: real, chunks: seq<Chunk>, f: nat, j: nat, k: nat)
    requires Clocked(st, chunks) && LastToBring(chunks, f, j, k)
    requires st < chunks[f].time && forall i :: 0 <= i < f ==> chunks[i].time == st
    ensures Fold(st, chunks[..k]).recent == chunks[j].time
    decreases k
  {
    assert chunks[..k][..k - 1] == chunks[..k - 1];
    assert Clocked(st, chunks[..k - 1]);
    MeterReadings(st, chunks[..k - 1]);
    if j == f && k - 1 == f {
      NoLatencyBefore(st, chunks[..f]);
    } else if j < k - 1 {
      RecentIs(st, chunks, f, j, k - 1);
    }
  }

  /**
  What each latency is, for counts that never fall: with `f` the first chunk that is read
  later than the start and `j` the last one before `k` that brought tokens, each of the tokens
  that chunk `k` brings has the time between the two, divided by their number.
   */
  lemma LatencyIs(st: real, chunks: seq<Chunk>, f: nat, j: nat, k: nat, token: int)
    requires Clocked(st, chunks) && Growing(chunks) && k < |chunks| && LastToBring(chunks, f, j, k)
    requires st < chunks[f].time && forall i :: 0 <= i < f ==> chunks[i].time == st
    requires chunks[j].count < token <= chunks[k].count
    ensures var itl, at := Fold(st, chunks).itl, token - chunks[f].count - 1;
            && 0 <= at < |itl|
            && itl[at] == (chunks[k].time - chunks[j].time) / ((chunks[k].count - chunks[j].count) as real)
  {
    var n := chunks[k].count - chunks[j].count;
    var before := Fold(st, chunks[..k]).itl;
    var x := (chunks[k].time - chunks[j].time) / (n as real);
    GrowingPrefix(chunks, k);
    OneLatencyPerToken(st, chunks[..k], f);
    GrowingIsMonotone(chunks, f, j);
    ChunkAdds(st, chunks, f, j, k);
    RepeatAt(x, n, token - chunks[j].count - 1);
    PrefixAt(before, Shares(chunks[k].time - chunks[j].time, n), Fold(st, chunks).itl, token - chunks[j].count - 1);
  }

  lemma PrefixAt(a: seq<real>, b: seq<real>, s: seq<real>, i: nat)
    requires a + b <= s && i < |b|
    ensures |a| + i < |s| && s[|a| + i] == b[i]
  {
    assert (a + b)[|a| + i] == b[i];
  }

  /** A chunk that brings tokens appends its share of the gap, once for each. */
  lemma NextAppends(st: real, m: Meter, c: Chunk)
    requires m.ttft != 0.0 && m.last < c.count
    ensures Next(st, m, c).itl == m.itl + Shares(c.time - m.recent, c.count - m.last)
  {
  }

  /** The latencies up to chunk `k`. */
  lemma ChunkAdds(st: real, chunks: seq<Chunk>, f: nat, j: nat, k: nat)
    requires Clocked(st, chunks) && k < |chunks| && LastToBring(chunks, f, j, k) && chunks[j].count < chunks[k].count
    requires st < chunks[f].time && forall i :: 0 <= i < f ==> chunks[i].time == st
    ensures var n := chunks[k].count - chunks[j].count;
            Fold(st, chunks[..k]).itl + Shares(chunks[k].time - chunks[j].time, n) <= Fold(st, chunks).itl
  {
    MeterBefore(st, chunks, f, j, k);
    NextAppends(st, Fold(st, chunks[..k]), chunks[k]);
    FoldNext(st, chunks, k);
    LatenciesStay(st, chunks, k + 1);
  }

  lemma MeterBefore(st: real, chunks: seq<Chunk>, f: nat, j: nat, k: nat)
    requires Clocked(st, chunks) && k < |chunks| && LastToBring(chunks, f, j, k)
    requires st < chunks[f].time && forall i :: 0 <= i < f ==> chunks[i].time == st
    ensures var m := Fold(st, chunks[..k]); m.recent == chunks[j].time && m.last == chunks[j].count && m.ttft != 0.0
  {
    RecentIs(st, chunks, f, j, k);
    assert Clocked(st, chunks[..k]);
    MeterReadings(st, chunks[..k]);
    assert chunks[..k][k - 1] == chunks[k - 1] && st < chunks[k - 1].time;
  }

  lemma FoldNext(st: real, chunks: seq<Chunk>, k: nat)
    requires k < |chunks|
    ensures Fold(st, chunks[..k + 1]) == Next(st, Fold(st, chunks[..k]), chunks[k])
  {
    assert chunks[..k + 1][..k] == chunks[..k] && chunks[..k + 1][k] == chunks[k];
  }

  lemma GrowingPrefix(chunks: seq<Chunk>, k: nat)
    requires Growing(chunks) && k <= |chunks|
    ensures Growing(chunks[..k])
  {
    assert forall i :: 0 <= i < k ==> chunks[..k][i] == chunks[i];
  }

  lemma {:induction false} GrowingIsMonotone(chunks: seq<Chunk>, i: nat, j: nat)
    requires Growing(chunks) && i <= j < |chunks|
    ensures chunks[i].count <= chunks[j].count
    decreases j - i
  {
    if i < j {
      GrowingIsMonotone(chunks, i, j - 1);
      var a: int := j - 1;
      assert chunks[a].count <= chunks[j].count;
    }
  }

  /** A count that falls loses the time since the previous one. */
  lemma FallingCountLosesTime()
    ensures var m := Fold(0.0, [Chunk(1.0, 2), Chunk(3.0, 1)]);
            m.ttft + Sum(m.itl) == 1.0 && m.recent == 3.0
  {
    var chunks := [Chunk(1.0, 2), Chunk(3.0, 1)];
    assert chunks[..1] == [Chunk(1.0, 2)];
    assert [Chunk(1.0, 2)][..0] == [];
    assert Fold(0.0, [Chunk(1.0, 2)]) == Meter(1.0, 1.0, 2, [], 2);
  }
}
