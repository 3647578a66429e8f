/**
The outcome of runs of the multi-turn benchmark, failed requests included: the progress bar, when
the two threads leave, the per-round metrics, and the order of the queues.
 */
module MultiturnOutcome {
  import opened Tallies
  import opened Indices
  import opened Multiturn
  import opened MultiturnContent
  import opened MultiturnBarrier
  import opened MultiturnRuns

  // ---- The progress bar ----

  /** Failures that the bar does not show: those that reached the caller as an exception. */
  function Hidden(steps: seq<Step>): nat {
    if steps == [] then 0 else HiddenBy(steps[0]) + Hidden(steps[1..])
  }

  function HiddenBy(step: Step): nat { if step.Fail? && !step.counted then 1 else 0 }

  /** The number of replies to each client. */
  function Replies(talks: seq<Talk>): (r: seq<nat>)
    ensures |r| == |talks| && forall c :: 0 <= c < |r| ==> r[c] == |talks[c].replies|
  {
    seq(|talks|, c requires 0 <= c < |talks| => |talks[c].replies|)
  }

  lemma RepliesAreBounded(cfg: Config, s: State)
    requires Inv(cfg, s)
    ensures forall c :: 0 <= c < |cfg.totals| ==> Replies(s.talks)[c] <= cfg.totals[c]
    ensures Sum(Replies(s.talks)) <= Sum(cfg.totals)
    ensures Sum(Replies(s.talks)) == Sum(cfg.totals) ==> Replies(s.talks) == cfg.totals
  {
    forall c | 0 <= c < |cfg.totals| ensures Replies(s.talks)[c] <= cfg.totals[c] { assert TurnOk(cfg, s, c); }
    SumMonotone(Replies(s.talks), cfg.totals);
  }

  /** The bar shows the replies but for the hidden ones, and a thread that has left has seen it full. */
  ghost predicate BarOk(cfg: Config, s: State, hidden: nat) {
    Inv(cfg, s) && s.finished + hidden == Sum(Replies(s.talks)) && LeftAtEnd(cfg, s)
  }

  /** A reply adds one to those of its client; no other step changes any. */
  lemma RepliesStep(cfg: Config, s: State, step: Step)
    requires Content(cfg, s) && Enabled(cfg, s, step)
    ensures var t := Apply(cfg, s, step);
            && |t.talks| == |s.talks|
            && Sum(Replies(t.talks)) == Sum(Replies(s.talks)) + (if step.Answer? || step.Fail? then 1 else 0)
            && t.finished == s.finished + if (step.Answer? || step.Fail?) && HiddenBy(step) == 0 then 1 else 0
  {
    var t := Apply(cfg, s, step);
    match step
    case Answer(k, _) => OneReply(cfg, s, step, k);
    case Fail(k, _) => OneReply(cfg, s, step, k);
    case _ => assert Replies(t.talks) == Replies(s.talks);
  }

  lemma OneReply(cfg: Config, s: State, step: Step, k: nat)
    requires Content(cfg, s) && Enabled(cfg, s, step)
    requires (step.Answer? || step.Fail?) && step.index == k
    ensures var t := Apply(cfg, s, step);
            |t.talks| == |s.talks| && Sum(Replies(t.talks)) == Sum(Replies(s.talks)) + 1
  {
    var c, t := s.flight[k].client, Apply(cfg, s, step);
    SubjectPhase(cfg, s, step);
    assert Replies(t.talks) == Replies(s.talks)[c := Replies(s.talks)[c] + 1];
    SumUpdate(Replies(s.talks), c, Replies(s.talks)[c] + 1);
  }

  /**
  The two workers leave exactly when they find the bar full: the sender after sending a request
  or finding none ready, the handler after a time-out.
   */
  lemma WorkersLeaveIff(cfg: Config, s: State, step: Step)
    requires Wf(cfg) && Enabled(cfg, s, step)
    ensures var t, full := Apply(cfg, s, step), s.finished == Sum(cfg.totals);
            && (t.sender.Stopped? <==> s.sender.Stopped? || ((step.Send? || step.PopEmpty?) && full))
            && (t.handler.Left? <==> s.handler.Left? || (step.Look? && full))
  {
  }

  lemma BarStep(cfg: Config, s: State, step: Step, hidden: nat)
    requires Wf(cfg) && BarOk(cfg, s, hidden) && Enabled(cfg, s, step)
    ensures BarOk(cfg, Apply(cfg, s, step), hidden + HiddenBy(step))
  {
    var t := Apply(cfg, s, step);
    InvStep(cfg, s, step);
    RepliesStep(cfg, s, step);
    RepliesAreBounded(cfg, t);
    WorkersLeaveIff(cfg, s, step);
  }

  lemma {:induction false} BarRun(cfg: Config, s: State, steps: seq<Step>, t: State, hidden: nat)
    requires Wf(cfg) && BarOk(cfg, s, hidden) && Run(cfg, s, steps, t)
    ensures BarOk(cfg, t, hidden + Hidden(steps))
    decreases |steps|
  {
    if steps != [] {
      BarStep(cfg, s, steps[0], hidden);
      BarRun(cfg, Apply(cfg, s, steps[0]), steps[1..], t, hidden + HiddenBy(steps[0]));
    }
  }

  lemma BarInit(cfg: Config)
    requires Wf(cfg)
    ensures BarOk(cfg, Init(cfg), 0)
  {
    InvInit(cfg);
    ZeroTallies(Replies(Init(cfg).talks), 0);
  }

  /**
  In every run, whatever fails: the bar is full if and only if no failure was hidden from it
  and every client has had a reply, if only a failure, to each of its rounds. No thread leaves
  before that.
   */
  lemma BarIsFullIff(cfg: Config, steps: seq<Step>, t: State)
    requires Wf(cfg) && Run(cfg, Init(cfg), steps, t)
    ensures |t.talks| == |cfg.totals|
    ensures t.finished == Sum(cfg.totals) <==>
      Hidden(steps) == 0 && forall c :: 0 <= c < |cfg.totals| ==> |t.talks[c].replies| == cfg.totals[c]
    ensures t.sender.Stopped? || t.handler.Left? ==> t.finished == Sum(cfg.totals)
  {
    BarInit(cfg);
    BarRun(cfg, Init(cfg), steps, t, 0);
    RepliesAreBounded(cfg, t);
    if forall c :: 0 <= c < |cfg.totals| ==> |t.talks[c].replies| == cfg.totals[c] {
      assert Replies(t.talks) == cfg.totals;
    }
  }

  lemma FailedStays(cfg: Config, s: State, step: Step, c: nat)
    requires Wf(cfg) && Inv(cfg, s) && Enabled(cfg, s, step) && c < |cfg.totals| && s.phase[c].AtFailed?
    ensures var t := Apply(cfg, s, step);
            |t.phase| == |t.talks| == |cfg.totals| && t.phase[c].AtFailed? && t.talks[c] == s.talks[c]
  {
    if ClientStep(step) { FailedIsNotMoved(cfg, s, step, c); }
  }

  lemma FailedIsNotMoved(cfg: Config, s: State, step: Step, c: nat)
    requires Wf(cfg) && Inv(cfg, s) && Enabled(cfg, s, step) && c < |cfg.totals| && s.phase[c].AtFailed?
    requires ClientStep(step)
    ensures var t := Apply(cfg, s, step);
            |t.phase| == |t.talks| == |cfg.totals| && t.phase[c].AtFailed? && t.talks[c] == s.talks[c]
  {
    NeverCrashes(cfg, s, step);
    StepMoves(cfg, s, step);
    assert From(step) != AtFailed && OnlyClient(s, Apply(cfg, s, step), Subject(s, step));
  }

  lemma {:induction false} FailedForGood(cfg: Config, s: State, steps: seq<Step>, t: State, c: nat)
    requires Wf(cfg) && Inv(cfg, s) && Run(cfg, s, steps, t) && c < |cfg.totals| && s.phase[c].AtFailed?
    ensures |t.talks| == |cfg.totals| && t.talks[c] == s.talks[c]
    decreases |steps|
  {
    if steps != [] {
      InvStep(cfg, s, steps[0]);
      FailedStays(cfg, s, steps[0], c);
      FailedForGood(cfg, Apply(cfg, s, steps[0]), steps[1..], t, c);
    }
  }

  /**
  A run with a hidden failure, or with a client that failed before its last round, never ends:
  however it goes on, the bar does not get full and neither thread leaves.
   */
  lemma FailureNeverEnds(cfg: Config, steps: seq<Step>, s: State, more: seq<Step>, t: State, c: nat)
    requires Wf(cfg) && Run(cfg, Init(cfg), steps, s) && Run(cfg, s, more, t)
    requires c < |cfg.totals| == |s.talks| == |s.phase|
    requires Hidden(steps) > 0 || (s.phase[c].AtFailed? && |s.talks[c].replies| < cfg.totals[c])
    ensures t.finished < Sum(cfg.totals) && !t.sender.Stopped? && !t.handler.Left?
  {
    BarInit(cfg);
    BarRun(cfg, Init(cfg), steps, s, 0);
    BarRun(cfg, s, more, t, Hidden(steps));
    RepliesAreBounded(cfg, t);
    if Hidden(steps) == 0 { FailedForGood(cfg, s, more, t, c); }
  }

  // ---- Order ----

  function Gets(steps: seq<Step>): nat {
    if steps == [] then 0 else (if steps[0].Get? then 1 else 0) + Gets(steps[1..])
  }

  function Pops(steps: seq<Step>): nat {
    if steps == [] then 0 else (if steps[0].Pop? then 1 else 0) + Pops(steps[1..])
  }

  lemma QueuesStep(cfg: Config, s: State, step: Step)
    requires Enabled(cfg, s, step)
    ensures var t := Apply(cfg, s, step);
            && (if step.Get? then s.responses != [] && t.responses == s.responses[1..] else s.responses <= t.responses)
            && (step.Pop? && cfg.fifo ==> s.ready != [] && t.ready == s.ready[1..])
            && (!step.Pop? ==> s.ready <= t.ready)
  {
    match step
    case Pop(i) => assert i == 0 ==> RemoveAt(s.ready, i) == s.ready[1..];
    case _ =>
  }

  /** Responses are handled in the order of their arrival: a waiting one moves up with every one handled. */
  lemma {:induction false} ResponsesMoveUp(cfg: Config, s: State, steps: seq<Step>, t: State, k: nat)
    requires Wf(cfg) && Run(cfg, s, steps, t) && Gets(steps) <= k < |s.responses|
    ensures k - Gets(steps) < |t.responses| && t.responses[k - Gets(steps)] == s.responses[k]
    decreases |steps|
  {
    if steps != [] {
      var next := Apply(cfg, s, steps[0]);
      QueuesStep(cfg, s, steps[0]);
      ResponsesMoveUp(cfg, next, steps[1..], t, if steps[0].Get? then k - 1 else k);
    }
  }

  lemma ReadyStep(cfg: Config, s: State, step: Step, k: nat)
    requires cfg.fifo && Enabled(cfg, s, step) && (step.Pop? ==> 0 < k) && k < |s.ready|
    ensures var next, at := Apply(cfg, s, step).ready, if step.Pop? then k - 1 else k;
            at < |next| && next[at] == s.ready[k]
  {
    QueuesStep(cfg, s, step);
  }

  /** Under the `fifo` policy ready requests leave in the order in which they came. */
  lemma {:induction false} ReadyMovesUp(cfg: Config, s: State, steps: seq<Step>, t: State, k: nat)
    requires Wf(cfg) && cfg.fifo && Run(cfg, s, steps, t) && Pops(steps) <= k < |s.ready|
    ensures k - Pops(steps) < |t.ready| && t.ready[k - Pops(steps)] == s.ready[k]
    decreases |steps|
  {
    if steps != [] {
      var next := Apply(cfg, s, steps[0]);
      ReadyStep(cfg, s, steps[0], k);
      ReadyMovesUp(cfg, next, steps[1..], t, if steps[0].Pop? then k - 1 else k);
    }
  }

  /** With the barrier, the metrics of round `r` have one entry for each client that has finished it. */
  lemma MetricsCountRounds(cfg: Config, s: State, r: nat)
    requires Wf(cfg) && cfg.barrier && Reachable(cfg, s) && r < cfg.maxRounds
    ensures |s.perRound| == cfg.maxRounds && s.perRound[r] == CountAbove(Rounds(s), r)
  {
    ReachableInv(cfg, s);
  }
}
