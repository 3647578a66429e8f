/**
The round barrier: a request of round r+1 becomes ready only when every client
with more than r rounds has finished round r, in every run, whatever fails.
 */
module MultiturnBarrier {
  import opened Tallies
  import opened Multiturn
  import opened MultiturnLinks
  import opened MultiturnContent

  function Rounds(s: State): (r: seq<nat>)
    ensures |r| == |s.records| && forall c :: 0 <= c < |r| ==> r[c] == s.records[c].round
  {
    seq(|s.records|, c requires 0 <= c < |s.records| => s.records[c].round)
  }

  predicate ClientStep(step: Step) { !Polls(step) && !step.FinishRelease? && !step.Land? }

  /** The steps with which a thread looks whether there is something to do. */
  predicate Polls(step: Step) { step.Check? || step.PopEmpty? || step.Expire? || step.Look? }

  /** The phases between which a step moves its client. */
  function From(step: Step): Phase {
    match step
    case Pop(_) => AtReady
    case Send => AtPopped
    case Answer(_, _) => AtFlight
    case Fail(_, _) => AtFlight
    case Get => AtReplied
    case CountFailure => AtGot
    case CountSuccess => AtGot
    case Enqueue => AtCounted
    case _ => AtHeld
  }

  ghost predicate MovesTo(cfg: Config, step: Step, y: Phase, more: bool) {
    match step
    case Pop(_) => y == AtPopped
    case Send => y == AtFlight
    case Answer(_, _) => y == AtReplied
    case Fail(_, _) => y == AtReplied
    case Get => y == AtGot
    case CountFailure => y == AtFailed
    case CountSuccess => y == AtCounted
    case Enqueue => y == if !more then AtDone else if cfg.barrier then AtHeld else AtReady
    case _ => y == AtReady
  }

  /** The client that a step is about. */
  function Subject(s: State, step: Step): nat {
    match step
    case Pop(i) => if i < |s.ready| then s.ready[i].client else 0
    case Send => if s.sender.Popped? then s.sender.request.client else 0
    case Answer(k, _) => if k < |s.flight| then s.flight[k].client else 0
    case Fail(k, _) => if k < |s.flight| then s.flight[k].client else 0
    case Get => if s.responses != [] then s.responses[0].client else 0
    case CountFailure => if s.handler.Got? then s.handler.response.client else 0
    case CountSuccess => if s.handler.Got? then s.handler.response.client else 0
    case Enqueue => if s.handler.Counted? then s.handler.client else 0
    case Release => if s.handler.Releasing? && s.handler.next < |s.held| then s.held[s.handler.next].client else 0
    case _ => 0
  }

  lemma SubjectPhase(cfg: Config, s: State, step: Step)
    requires Content(cfg, s) && ClientStep(step) && Enabled(cfg, s, step)
    ensures Subject(s, step) < |cfg.totals| && s.phase[Subject(s, step)] == From(step)
  {
    var q := Holders(s, From(step));
    assert Queued(s.phase, q, From(step));
    var i := match step case Pop(i) => i case Answer(k, _) => k case Fail(k, _) => k case _ => 0;
    assert q[i] == Subject(s, step) && q[i] in q;
  }

  /** Every step but the sender's polling and the end of a release moves exactly one client. */
  lemma StepMoves(cfg: Config, s: State, step: Step)
    requires Content(cfg, s) && ClientStep(step) && Enabled(cfg, s, step)
    requires !Apply(cfg, s, step).handler.Crashed?
    ensures var c, t := Subject(s, step), Apply(cfg, s, step);
            && c < |cfg.totals| && s.phase[c] == From(step) && OnlyClient(s, t, c)
            && MovesTo(cfg, step, t.phase[c], s.records[c].round < cfg.totals[c])
            && t.records[c].round == s.records[c].round + (if step.CountSuccess? then 1 else 0)
  {
    SubjectPhase(cfg, s, step);
    if step.Enqueue? { EnqueueChanges(cfg, s); }
  }

  // ---- Rounds and the barrier ----

  predicate Active(x: Phase) { x.AtReady? || x.AtPopped? || x.AtFlight? || x.AtReplied? || x.AtGot? }

  /** The round that outstanding requests are in; it is already the next one during a release. */
  function Level(s: State): nat {
    if s.handler.Releasing? then s.barrierRound + 1 else s.barrierRound
  }

  ghost predicate RoundOk(total: nat, round: nat, x: Phase, b: nat, level: nat) {
    && (round >= total || round >= level) && round <= b + 1
    && (Active(x) ==> round == level)
    && (x.AtHeld? ==> round == b + 1)
    && (x.AtCounted? ==> round == b + 1 && level == b)
    && (x.AtFailed? ==> round == b && level == b)
  }

  ghost predicate Leveled(cfg: Config, s: State)
    requires Shape(cfg, s)
  {
    forall c :: 0 <= c < |cfg.totals| ==>
      RoundOk(cfg.totals[c], s.records[c].round, s.phase[c], s.barrierRound, Level(s))
  }

  ghost predicate BarrierCount(cfg: Config, s: State) {
    var done, expected := CountAbove(Rounds(s), s.barrierRound), CountAbove(cfg.totals, s.barrierRound);
    match s.handler
    case Releasing(_) => s.barrierDone == done == expected
    case Counted(_) => s.barrierDone + 1 == done && s.barrierDone < expected
    case _ => s.barrierDone == done && (expected > 0 ==> done < expected)
  }

  ghost predicate RoundMetrics(cfg: Config, s: State) {
    |s.perRound| == cfg.maxRounds
    && forall r :: 0 <= r < cfg.maxRounds ==> s.perRound[r] == CountAbove(Rounds(s), r)
  }

  ghost predicate BarrierOk(cfg: Config, s: State)
    requires Shape(cfg, s)
  {
    if cfg.barrier then Leveled(cfg, s) && BarrierCount(cfg, s) && RoundMetrics(cfg, s)
    else s.held == [] && !s.handler.Releasing?
  }

  lemma LeveledFrame(cfg: Config, s: State, t: State, c: nat)
    requires Shape(cfg, s) && Leveled(cfg, s) && OnlyClient(s, t, c) && c < |cfg.totals|
    requires t.barrierRound == s.barrierRound && Level(t) == Level(s)
    requires RoundOk(cfg.totals[c], t.records[c].round, t.phase[c], s.barrierRound, Level(s))
    ensures Leveled(cfg, t)
  {
  }

  /** Steps that change no round: the sender's, the network's, and `Get` and `CountFailure`. */
  lemma QuietBarrier(cfg: Config, s: State, step: Step)
    requires Content(cfg, s) && BarrierOk(cfg, s) && Enabled(cfg, s, step)
    requires ClientStep(step) && !step.CountSuccess? && !step.Enqueue? && !step.Release?
    ensures Shape(cfg, Apply(cfg, s, step)) && BarrierOk(cfg, Apply(cfg, s, step))
  {
    var t, c := Apply(cfg, s, step), Subject(s, step);
    StepMoves(cfg, s, step);
    if cfg.barrier {
      assert t.records == s.records && Rounds(t) == Rounds(s);
      LeveledFrame(cfg, s, t, c);
    }
  }

  lemma CountPositive(xs: seq<nat>, i: nat, r: nat)
    requires i < |xs| && xs[i] > r
    ensures CountAbove(xs, r) > 0
  {
    CountUpdate(xs, i, 0, r);
  }

  /** A success never hits a missing round key. */
  lemma CountSuccessDoesNotCrash(cfg: Config, s: State)
    requires Wf(cfg) && Content(cfg, s) && BarrierOk(cfg, s) && Enabled(cfg, s, CountSuccess)
    ensures !DoCountSuccess(cfg, s).handler.Crashed?
  {
    SubjectPhase(cfg, s, CountSuccess);
    var c := s.handler.response.client;
    RoundIs(cfg, s, c);
  }

  lemma CountSuccessBarrier(cfg: Config, s: State)
    requires Wf(cfg) && Content(cfg, s) && BarrierOk(cfg, s) && Enabled(cfg, s, CountSuccess)
    ensures Shape(cfg, DoCountSuccess(cfg, s)) && BarrierOk(cfg, DoCountSuccess(cfg, s))
  {
    CountSuccessDoesNotCrash(cfg, s);
    StepMoves(cfg, s, CountSuccess);
    if cfg.barrier {
      var t, c := DoCountSuccess(cfg, s), s.handler.response.client;
      var round := s.records[c].round;
      RoundIs(cfg, s, c);
      assert RoundOk(cfg.totals[c], round, s.phase[c], s.barrierRound, Level(s));
      LeveledFrame(cfg, s, t, c);
      assert Rounds(t) == Rounds(s)[c := round + 1];
      CountUpdate(Rounds(s), c, round + 1, s.barrierRound);
      CountPositive(cfg.totals, c, s.barrierRound);
      forall r | 0 <= r < cfg.maxRounds ensures t.perRound[r] == CountAbove(Rounds(t), r) {
        CountUpdate(Rounds(s), c, round + 1, r);
      }
    }
  }

  /** When the count reaches what is expected, every client of the round has finished it. */
  lemma AllFinished(cfg: Config, s: State, b: nat)
    requires Shape(cfg, s) && Turns(cfg, s)
    ensures CountAbove(Rounds(s), b) <= CountAbove(cfg.totals, b)
    ensures CountAbove(Rounds(s), b) == CountAbove(cfg.totals, b) ==>
              forall c :: 0 <= c < |cfg.totals| && cfg.totals[c] > b ==> s.records[c].round > b
  {
    forall c | 0 <= c < |cfg.totals| ensures Rounds(s)[c] <= cfg.totals[c] {
      RoundIs(cfg, s, c);
    }
    CountMonotone(Rounds(s), cfg.totals, b);
  }

  /** What the enqueueing of a client changes for the barrier. */
  lemma EnqueueRounds(cfg: Config, s: State)
    requires Wf(cfg) && Content(cfg, s) && BarrierOk(cfg, s) && cfg.barrier && Enabled(cfg, s, Enqueue)
    requires !DoEnqueue(cfg, s).handler.Crashed?
    ensures var t, c := DoEnqueue(cfg, s), s.handler.client;
            && c < |cfg.totals| && OnlyClient(s, t, c) && t.records[c].round == s.records[c].round
            && Rounds(t) == Rounds(s) && t.perRound == s.perRound
            && t.barrierRound == s.barrierRound < cfg.maxRounds && s.records[c].round == s.barrierRound + 1
            && (t.phase[c].AtDone? || t.phase[c].AtHeld?) && s.phase[c].AtCounted?
  {
    var t, c := DoEnqueue(cfg, s), s.handler.client;
    StepMoves(cfg, s, Enqueue);
    SameRounds(s, t, c);
    RoundIs(cfg, s, c);
    assert RoundOk(cfg.totals[c], s.records[c].round, s.phase[c], s.barrierRound, Level(s));
  }

  lemma EnqueueLevels(cfg: Config, s: State)
    requires Wf(cfg) && Content(cfg, s) && BarrierOk(cfg, s) && cfg.barrier && Enabled(cfg, s, Enqueue)
    requires !DoEnqueue(cfg, s).handler.Crashed?
    ensures Shape(cfg, DoEnqueue(cfg, s)) && Leveled(cfg, DoEnqueue(cfg, s))
  {
    var t, c := DoEnqueue(cfg, s), s.handler.client;
    EnqueueRounds(cfg, s);
    assert RoundOk(cfg.totals[c], s.records[c].round, s.phase[c], s.barrierRound, Level(s));
    if t.handler.Releasing? {
      EnqueueContent(cfg, s);
      AllFinished(cfg, t, s.barrierRound);
      OnlyOneCounted(s, c);
      ReleaseLevels(cfg, s, t, c);
    } else {
      LeveledFrame(cfg, s, t, c);
    }
  }

  lemma EnqueueBarrier(cfg: Config, s: State)
    requires Wf(cfg) && Content(cfg, s) && BarrierOk(cfg, s) && Enabled(cfg, s, Enqueue)
    requires !DoEnqueue(cfg, s).handler.Crashed?
    ensures Shape(cfg, DoEnqueue(cfg, s)) && BarrierOk(cfg, DoEnqueue(cfg, s))
  {
    EnqueueContent(cfg, s);
    if cfg.barrier {
      EnqueueRounds(cfg, s);
      EnqueueLevels(cfg, s);
      AllFinished(cfg, DoEnqueue(cfg, s), s.barrierRound);
    }
  }

  lemma OnlyOneCounted(s: State, c: nat)
    requires Links(s) && s.handler == Counted(c)
    ensures forall d :: 0 <= d < |s.phase| && d != c ==> !s.phase[d].AtCounted?
  {
    assert Queued(s.phase, Holders(s, AtCounted), AtCounted);
    forall d: nat | d < |s.phase| && d != c ensures !s.phase[d].AtCounted? {
      assert d !in Holders(s, AtCounted);
    }
  }

  lemma SameRounds(s: State, t: State, c: nat)
    requires OnlyClient(s, t, c) && c < |s.records| && t.records[c].round == s.records[c].round
    ensures Rounds(t) == Rounds(s)
  {
  }

  /** At the start of a release nothing is outstanding and nothing has failed. */
  lemma ReleaseLevels(cfg: Config, s: State, t: State, c: nat)
    requires Shape(cfg, s) && Leveled(cfg, s) && Level(s) == s.barrierRound && c < |cfg.totals|
    requires Turns(cfg, s) && OnlyClient(s, t, c) && t.records[c].round == s.records[c].round
    requires Level(t) == s.barrierRound + 1 && t.barrierRound == s.barrierRound
    requires t.phase[c].AtDone? || t.phase[c].AtHeld?
    requires forall d :: 0 <= d < |cfg.totals| && d != c ==> !s.phase[d].AtCounted?
    requires s.phase[c].AtCounted?
    requires forall d :: 0 <= d < |cfg.totals| && cfg.totals[d] > s.barrierRound ==> t.records[d].round > s.barrierRound
    ensures Shape(cfg, t) && Leveled(cfg, t)
  {
    forall d | 0 <= d < |cfg.totals|
      ensures RoundOk(cfg.totals[d], t.records[d].round, t.phase[d], t.barrierRound, Level(t))
    {
      assert RoundOk(cfg.totals[d], s.records[d].round, s.phase[d], s.barrierRound, Level(s));
      RoundIs(cfg, s, d);
    }
  }

  lemma ReleaseBarrier(cfg: Config, s: State)
    requires Content(cfg, s) && BarrierOk(cfg, s) && Enabled(cfg, s, Release)
    ensures Shape(cfg, DoRelease(s)) && BarrierOk(cfg, DoRelease(s))
  {
    var t, c := DoRelease(s), Subject(s, Release);
    StepMoves(cfg, s, Release);
    SameRounds(s, t, c);
    assert RoundOk(cfg.totals[c], s.records[c].round, s.phase[c], s.barrierRound, Level(s));
    LeveledFrame(cfg, s, t, c);
  }

  lemma {:induction false} NoneAbove(xs: seq<nat>, r: nat)
    requires forall i :: 0 <= i < |xs| ==> xs[i] <= r
    ensures CountAbove(xs, r) == 0
  {
    if xs != [] { NoneAbove(xs[1..], r); }
  }

  lemma FinishBarrier(cfg: Config, s: State)
    requires Content(cfg, s) && BarrierOk(cfg, s) && Enabled(cfg, s, FinishRelease)
    ensures Shape(cfg, DoFinishRelease(s)) && BarrierOk(cfg, DoFinishRelease(s))
  {
    var t := DoFinishRelease(s);
    assert Queued(s.phase, Holders(s, AtHeld), AtHeld);
    assert Pending(s) == [];
    assert Rounds(t) == Rounds(s);
    forall c | 0 <= c < |cfg.totals|
      ensures RoundOk(cfg.totals[c], t.records[c].round, t.phase[c], t.barrierRound, Level(t))
    {
      assert RoundOk(cfg.totals[c], s.records[c].round, s.phase[c], s.barrierRound, Level(s));
      var d: nat := c;
      assert d !in Holders(s, AtHeld);
    }
    NoneAbove(Rounds(t), t.barrierRound);
  }

  lemma BarrierStep(cfg: Config, s: State, step: Step)
    requires Wf(cfg) && Content(cfg, s) && BarrierOk(cfg, s) && Enabled(cfg, s, step)
    requires !Apply(cfg, s, step).handler.Crashed?
    ensures Shape(cfg, Apply(cfg, s, step)) && BarrierOk(cfg, Apply(cfg, s, step))
  {
    match step
    case CountSuccess => CountSuccessBarrier(cfg, s);
    case Enqueue => EnqueueBarrier(cfg, s);
    case Release => ReleaseBarrier(cfg, s);
    case FinishRelease => FinishBarrier(cfg, s);
    case _ => if ClientStep(step) { QuietBarrier(cfg, s, step); } else { IdleBarrier(cfg, s, step); }
  }

  /** Polling, and the arrival of a response. */
  lemma IdleBarrier(cfg: Config, s: State, step: Step)
    requires Shape(cfg, s) && BarrierOk(cfg, s) && Enabled(cfg, s, step) && (Polls(step) || step.Land?)
    ensures Shape(cfg, Apply(cfg, s, step)) && BarrierOk(cfg, Apply(cfg, s, step))
  {
    var t := Apply(cfg, s, step);
    assert Rounds(t) == Rounds(s) && Level(t) == Level(s);
  }

  lemma BarrierInit(cfg: Config)
    requires Wf(cfg)
    ensures BarrierOk(cfg, Init(cfg))
  {
    var s := Init(cfg);
    ZeroTallies(Rounds(s), 0);
    forall r | 0 <= r < cfg.maxRounds ensures CountAbove(Rounds(s), r) == 0 { ZeroTallies(Rounds(s), r); }
  }
}
