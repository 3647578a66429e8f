/**
The dataset filter of the cache benchmarks: conversations are pruned to the turns
within the length limits, and the surviving ones are drawn round after round until
enough requests are collected (benchmark/hicache/data_processing.py).
 */
module ChatFilter {
  import opened Wrappers
  import opened Indices

  /** A question with the token counts of its two texts. */
  datatype Turn = Turn(prompt: string, promptLen: nat, completionLen: nat)

  datatype Limits = Limits(minPrompt: Option<int>, minOutput: Option<int>,
                           maxPrompt: Option<int>, maxOutput: Option<int>, fixedOutput: Option<int>)

  datatype Sample = Sample(prompt: string, promptLen: nat, outputLen: int)

  function OutputLen(limits: Limits, turn: Turn): int {
    if limits.fixedOutput.Some? then limits.fixedOutput.value else turn.completionLen
  }

  predicate Pruned(limits: Limits, turn: Turn) {
    || (limits.minPrompt.Some? && turn.promptLen < limits.minPrompt.value)
    || (limits.minOutput.Some? && OutputLen(limits, turn) < limits.minOutput.value)
    || (limits.maxPrompt.Some? && turn.promptLen > limits.maxPrompt.value)
    || (limits.maxOutput.Some? && OutputLen(limits, turn) > limits.maxOutput.value)
  }

  /** The turns of a conversation that are kept, in order. */
  function Kept(limits: Limits, talk: seq<Turn>): seq<Sample> {
    if talk == [] then []
    else (if Pruned(limits, talk[0]) then []
          else [Sample(talk[0].prompt, talk[0].promptLen, OutputLen(limits, talk[0]))])
         + Kept(limits, talk[1..])
  }

  /** The length of the answer that is asked for. */
  function Wanted(limits: Limits, turn: Turn): int {
    match limits.fixedOutput
    case Some(n) => n
    case None => turn.completionLen
  }

  predicate Within(low: Option<int>, x: int, high: Option<int>) {
    (low.Some? ==> low.value <= x) && (high.Some? ==> x <= high.value)
  }

  /** Both lengths of the turn are within their limits. */
  predicate Fits(limits: Limits, turn: Turn) {
    && Within(limits.minPrompt, turn.promptLen, limits.maxPrompt)
    && Within(limits.minOutput, Wanted(limits, turn), limits.maxOutput)
  }

  function SampleOf(limits: Limits, turn: Turn): Sample {
    Sample(turn.prompt, turn.promptLen, Wanted(limits, turn))
  }

  /** Where the turns that fit stand. */
  function Fitting(limits: Limits, talk: seq<Turn>, from: nat := 0): (at: seq<nat>)
    requires from <= |talk|
    ensures Ascending(at)
    ensures forall i: nat :: i in at <==> from <= i < |talk| && Fits(limits, talk[i])
    decreases |talk| - from
  {
    if from == |talk| then []
    else
      var rest := Fitting(limits, talk, from + 1);
      assert forall k :: 0 <= k < |rest| ==> rest[k] in rest;
      if Fits(limits, talk[from]) then [from] + rest else rest
  }

  function Samples(limits: Limits, talk: seq<Turn>, at: seq<nat>): (r: seq<Sample>)
    requires forall i :: i in at ==> i < |talk|
    ensures |r| == |at| && forall k :: 0 <= k < |r| ==> at[k] in at && r[k] == SampleOf(limits, talk[at[k]])
  {
    assert forall k :: 0 <= k < |at| ==> at[k] in at;
    seq(|at|, k requires 0 <= k < |at| => SampleOf(limits, talk[at[k]]))
  }

  lemma SamplesFirst(limits: Limits, talk: seq<Turn>, i: nat, at: seq<nat>)
    requires i < |talk| && forall j :: j in at ==> j < |talk|
    ensures Samples(limits, talk, [i] + at) == [SampleOf(limits, talk[i])] + Samples(limits, talk, at)
  {
  }

  lemma {:induction false} KeptFrom(limits: Limits, talk: seq<Turn>, from: nat)
    requires from <= |talk|
    ensures Kept(limits, talk[from..]) == Samples(limits, talk, Fitting(limits, talk, from))
    decreases |talk| - from
  {
    if from < |talk| {
      KeptFrom(limits, talk, from + 1);
      assert talk[from..][1..] == talk[from + 1..];
      SamplesFirst(limits, talk, from, Fitting(limits, talk, from + 1));
    }
  }

  /**
  Which turns are kept, and as what: with `at` the ascending list of the positions at which both
  lengths are within their limits, the kept samples are those turns, with the fixed length
  of the answer if there is one.
   */
  lemma KeptIs(limits: Limits, talk: seq<Turn>, at: seq<nat>)
    requires Ascending(at) && forall i: nat :: i in at <==> i < |talk| && Fits(limits, talk[i])
    ensures |Kept(limits, talk)| == |at|
    ensures forall k :: 0 <= k < |at| ==>
      && at[k] in at && at[k] < |talk|
      && Kept(limits, talk)[k] == Sample(talk[at[k]].prompt, talk[at[k]].promptLen, Wanted(limits, talk[at[k]]))
  {
    KeptFrom(limits, talk, 0);
    assert talk[0..] == talk;
    AscendingIsUnique(at, Fitting(limits, talk));
  }

  /** The conversations with a turn left. */
  function Survivors(limits: Limits, data: seq<seq<Turn>>): seq<seq<Sample>> {
    if data == [] then []
    else (if Kept(limits, data[0]) == [] then [] else [Kept(limits, data[0])]) + Survivors(limits, data[1..])
  }

  lemma {:induction false} SurvivorsHaveTurns(limits: Limits, data: seq<seq<Turn>>)
    ensures forall s :: s in Survivors(limits, data) ==> s != []
  {
    if data != [] { SurvivorsHaveTurns(limits, data[1..]); }
  }

  // ---- One sweep over the data, and many ----

  /** The `for` loop: it stops early when `want` requests are there. */
  function Sweep(limits: Limits, data: seq<seq<Turn>>, want: int, out: seq<seq<Sample>>): seq<seq<Sample>>
    decreases data
  {
    if data == [] || |out| == want then out
    else
      var kept := Kept(limits, data[0]);
      Sweep(limits, data[1..], want, if kept == [] then out else out + [kept])
  }

  /** What `sweeps` rounds of the `while` loop have collected. */
  function Collected(limits: Limits, data: seq<seq<Turn>>, want: int, sweeps: nat): seq<seq<Sample>> {
    if sweeps == 0 then []
    else
      var out := Collected(limits, data, want, sweeps - 1);
      if |out| < want then Sweep(limits, data, want, out) else out
  }

  function Min(a: nat, b: nat): nat { if a < b then a else b }

  /** A sweep appends the survivors in order, as many as are still wanted. */
  lemma {:induction false} SweepAppends(limits: Limits, data: seq<seq<Turn>>, want: int, out: seq<seq<Sample>>)
    requires |out| <= want
    ensures var s := Survivors(limits, data);
            Sweep(limits, data, want, out) == out + s[..Min(|s|, want - |out|)]
    decreases data
  {
    if data == [] || |out| == want {
    } else {
      var kept, rest := Kept(limits, data[0]), Survivors(limits, data[1..]);
      if kept == [] {
        SweepAppends(limits, data[1..], want, out);
        assert Survivors(limits, data) == rest;
      } else {
        SweepAppends(limits, data[1..], want, out + [kept]);
        TakeCons(out, kept, rest, Min(|rest|, want - |out| - 1));
      }
    }
  }

  lemma TakeCons<T>(out: seq<T>, x: T, rest: seq<T>, n: nat)
    requires n <= |rest|
    ensures out + ([x] + rest)[..n + 1] == (out + [x]) + rest[..n]
  {
  }

  /** `n` conversations drawn from `s` in turn, starting over at its end. */
  function Drawn<T>(s: seq<T>, n: nat): seq<T>
    requires s != []
  {
    if n <= |s| then s[..n] else s + Drawn(s, n - |s|)
  }

  /** Request `k` is survivor `k mod m`. */
  lemma {:induction false} DrawnInTurn<T>(s: seq<T>, n: nat)
    requires s != []
    ensures |Drawn(s, n)| == n && forall k :: 0 <= k < n ==> Drawn(s, n)[k] == s[k % |s|]
  {
    if n <= |s| {
      forall k | 0 <= k < n ensures s[k] == s[k % |s|] { SmallMod(k, |s|); }
    } else {
      DrawnInTurn(s, n - |s|);
      forall k | 0 <= k < n ensures Drawn(s, n)[k] == s[k % |s|] {
        DrawnAt(s, n, k);
      }
    }
  }

  lemma DrawnAt<T>(s: seq<T>, n: nat, k: nat)
    requires s != [] && |s| < n && k < n && |Drawn(s, n - |s|)| == n - |s|
    requires k >= |s| ==> Drawn(s, n - |s|)[k - |s|] == s[(k - |s|) % |s|]
    ensures |Drawn(s, n)| == n && Drawn(s, n)[k] == s[k % |s|]
  {
    if k < |s| {
      SmallMod(k, |s|);
    } else {
      ModAfter(k, |s|);
    }
  }

  lemma SmallMod(k: nat, m: nat)
    requires k < m
    ensures k % m == k
  {
  }

  lemma ModAfter(k: nat, m: nat)
    requires 0 < m <= k
    ensures (k - m) % m == k % m
  {
    var d := k / m - (k - m) / m - 1;
    var gap := (k - m) % m - k % m;
    assert d * m == gap by {
      assert k == k / m * m + k % m && k - m == (k - m) / m * m + (k - m) % m;
      assert d * m == k / m * m - (k - m) / m * m - m;
    }
    NoMultipleBetween(d, m);
  }

  lemma NoMultipleBetween(d: int, m: int)
    requires -m < d * m < m
    ensures d == 0
  {
    assert d >= 1 ==> (d - 1) * m >= 0;
    assert d <= -1 ==> (-d - 1) * m >= 0;
  }

  lemma {:induction false} DrawnExtends<T>(s: seq<T>, done: nat, n: nat)
    requires s != [] && done <= n
    ensures var more := Min(|s|, n - done);
            s[..more] + Drawn(s, n - done - more) == Drawn(s, n - done)
  {
    if n - done <= |s| {
      assert s[..n - done] + s[..0] == s[..n - done];
    } else {
      assert s[..|s|] == s;
    }
  }

  /**
  The loop ends exactly when nothing is wanted or some conversation survives the
  limits; otherwise it sweeps the data for ever.
   */
  lemma EndsIff(limits: Limits, data: seq<seq<Turn>>, want: int)
    ensures (exists k: nat :: |Collected(limits, data, want, k)| >= want)
       <==> want <= 0 || Survivors(limits, data) != []
  {
    if want <= 0 {
      assert |Collected(limits, data, want, 0)| >= want;
    } else if Survivors(limits, data) == [] {
      forall k: nat ensures Collected(limits, data, want, k) == [] {
        NothingCollected(limits, data, want, k);
      }
    } else {
      CollectedGrows(limits, data, want, want);
    }
  }

  lemma {:induction false} NothingCollected(limits: Limits, data: seq<seq<Turn>>, want: int, k: nat)
    requires want > 0 && Survivors(limits, data) == []
    ensures Collected(limits, data, want, k) == []
  {
    if k > 0 {
      NothingCollected(limits, data, want, k - 1);
      SweepAppends(limits, data, want, []);
    }
  }

  lemma {:induction false} CollectedGrows(limits: Limits, data: seq<seq<Turn>>, want: nat, k: nat)
    requires Survivors(limits, data) != []
    ensures Min(k, want) <= |Collected(limits, data, want, k)| <= want
  {
    if k > 0 {
      CollectedGrows(limits, data, want, k - 1);
      SweepAppends(limits, data, want, Collected(limits, data, want, k - 1));
    }
  }

  // ---- The loops ----

  function InputTokens(out: seq<seq<Sample>>): int {
    if out == [] then 0 else InputTokens(out[..|out| - 1]) + TalkInput(out[|out| - 1])
  }

  function TalkInput(talk: seq<Sample>): int {
    if talk == [] then 0 else talk[0].promptLen + TalkInput(talk[1..])
  }

  function OutputTokens(out: seq<seq<Sample>>): int {
    if out == [] then 0 else OutputTokens(out[..|out| - 1]) + TalkOutput(out[|out| - 1])
  }

  function TalkOutput(talk: seq<Sample>): int {
    if talk == [] then 0 else talk[0].outputLen + TalkOutput(talk[1..])
  }

  lemma {:induction false} TalkAppend(talk: seq<Sample>, x: Sample)
    ensures TalkInput(talk + [x]) == TalkInput(talk) + x.promptLen
    ensures TalkOutput(talk + [x]) == TalkOutput(talk) + x.outputLen
  {
    if talk != [] {
      TalkAppend(talk[1..], x);
      assert (talk + [x])[1..] == talk[1..] + [x];
    } else {
      assert talk + [x] == [x];
    }
  }

  lemma TokensAppend(out: seq<seq<Sample>>, kept: seq<Sample>)
    ensures InputTokens(out + [kept]) == InputTokens(out) + TalkInput(kept)
    ensures OutputTokens(out + [kept]) == OutputTokens(out) + TalkOutput(kept)
  {
    assert (out + [kept])[..|out|] == out;
  }

  /** The innermost loop: one conversation, with the tokens it adds. */
  method FilterTalk(limits: Limits, talk: seq<Turn>) returns (kept: seq<Sample>, input: int, output: int)
    ensures kept == Kept(limits, talk)
    ensures input == TalkInput(kept) && output == TalkOutput(kept)
  {
    kept, input, output := [], 0, 0;
    for j := 0 to |talk|
      invariant kept + Kept(limits, talk[j..]) == Kept(limits, talk)
      invariant input == TalkInput(kept) && output == TalkOutput(kept)
    {
      assert talk[j..][1..] == talk[j + 1..];
      ghost var was, rest := kept, Kept(limits, talk[j + 1..]);
      if !Pruned(limits, talk[j]) {
        var x := Sample(talk[j].prompt, talk[j].promptLen, OutputLen(limits, talk[j]));
        TalkAppend(kept, x);
        input, output, kept := input + x.promptLen, output + x.outputLen, kept + [x];
        assert was + ([x] + rest) == kept + rest;
      } else {
        assert was + ([] + rest) == kept + rest;
      }
    }
  }

  /**
  The whole filter. It is called where the loop ends: see `EndsIff`.
   */
  method FilterChat(want: int, data: seq<seq<Turn>>, limits: Limits)
    returns (out: seq<seq<Sample>>, input: int, output: int)
    requires want <= 0 || Survivors(limits, data) != []
    ensures want <= 0 ==> out == []
    ensures want > 0 ==> out == Drawn(Survivors(limits, data), want)
    ensures forall kept :: kept in out ==> kept != []
    ensures input == InputTokens(out) && output == OutputTokens(out)
  {
    out, input, output := [], 0, 0;
    ghost var s := Survivors(limits, data);
    while |out| < want
      invariant want > 0 ==> |out| <= want && out + Drawn(s, want - |out|) == Drawn(s, want)
      invariant want <= 0 ==> out == []
      invariant input == InputTokens(out) && output == OutputTokens(out)
      decreases want - |out|
    {
      ghost var before := out;
      SweepAppends(limits, data, want, before);
      DrawnExtends(s, |before|, want);
      var i := 0;
      while i < |data| && |out| != want
        invariant i <= |data| && |out| <= want
        invariant Sweep(limits, data[i..], want, out) == Sweep(limits, data, want, before)
        invariant input == InputTokens(out) && output == OutputTokens(out)
      {
        var kept, more, made := FilterTalk(limits, data[i]);
        assert data[i..][1..] == data[i + 1..];
        if |kept| != 0 {
          TokensAppend(out, kept);
          input, output, out := input + more, output + made, out + [kept];
        }
        i := i + 1;
      }
      SweptOut(s, before, out, want);
    }
    if want > 0 {
      assert out + Drawn(s, 0) == out;
      DrawnHaveTurns(limits, data, want);
    }
  }

  lemma DrawnHaveTurns(limits: Limits, data: seq<seq<Turn>>, want: nat)
    requires Survivors(limits, data) != []
    ensures forall kept :: kept in Drawn(Survivors(limits, data), want) ==> kept != []
  {
    var s := Survivors(limits, data);
    SurvivorsHaveTurns(limits, data);
    DrawnInTurn(s, want);
    assert forall k :: 0 <= k < want ==> s[k % |s|] in s;
  }

  lemma SweptOut<T>(s: seq<T>, before: seq<T>, out: seq<T>, want: nat)
    requires s != [] && |before| <= want
    requires out == before + s[..Min(|s|, want - |before|)]
    requires before + Drawn(s, want - |before|) == Drawn(s, want)
    ensures |out| <= want && out + Drawn(s, want - |out|) == Drawn(s, want)
  {
    DrawnExtends(s, |before|, want);
    var more := Min(|s|, want - |before|);
    assert out + Drawn(s, want - |out|) == before + (s[..more] + Drawn(s, want - |before| - more));
  }
}
