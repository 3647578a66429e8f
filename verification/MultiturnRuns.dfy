/**
Whole runs of the multi-turn workload: what every reachable state satisfies,
and how a run without failed requests ends.
 */
module MultiturnRuns {
  import opened Indices
  import opened Tallies
  import opened Multiturn
  import opened MultiturnLinks
  import opened MultiturnContent
  import opened MultiturnBarrier

  // ---- Per-client numbers that add up to the global ones ----

  datatype Kind = Asked | Replied | Won | Ahead

  /** `Asked`: questions drawn; `Replied`: replies received; `Won`: successes counted; `Ahead`: work still to come. */
  function Tally(kind: Kind, total: nat, round: nat, x: Phase): nat {
    match kind
    case Asked => if x.AtCounted? then (if round > 0 then round - 1 else 0)
                  else if round < total then round else if total > 0 then total - 1 else 0
    case Replied => round + if x.AtReplied? || x.AtGot? then 1 else 0
    case Won => round
    case Ahead => (if round < total then 10 * (total - round) else 0) + Weight(x)
  }

  function Weight(x: Phase): nat {
    match x
    case AtCounted => 9
    case AtHeld => 7
    case AtReady => 6
    case AtPopped => 5
    case AtFlight => 4
    case AtReplied => 2
    case AtGot => 1
    case AtDone => 0
    case AtFailed => 0
  }

  function All(kind: Kind, cfg: Config, s: State): (r: seq<nat>)
    requires Shape(cfg, s)
    ensures |r| == |cfg.totals|
    ensures forall c :: 0 <= c < |r| ==> r[c] == Tally(kind, cfg.totals[c], s.records[c].round, s.phase[c])
  {
    seq(|cfg.totals|, c requires 0 <= c < |cfg.totals| => Tally(kind, cfg.totals[c], s.records[c].round, s.phase[c]))
  }

  /** A step of one client changes one entry. */
  lemma TallyMoves(kind: Kind, cfg: Config, s: State, step: Step)
    requires Content(cfg, s) && ClientStep(step) && Enabled(cfg, s, step)
    requires !Apply(cfg, s, step).handler.Crashed?
    ensures var c, t := Subject(s, step), Apply(cfg, s, step);
            && Shape(cfg, t) && c < |cfg.totals|
            && Sum(All(kind, cfg, t)) + All(kind, cfg, s)[c] == Sum(All(kind, cfg, s)) + All(kind, cfg, t)[c]
  {
    var c, t := Subject(s, step), Apply(cfg, s, step);
    StepMoves(cfg, s, step);
    assert All(kind, cfg, t) == All(kind, cfg, s)[c := All(kind, cfg, t)[c]];
    SumUpdate(All(kind, cfg, s), c, All(kind, cfg, t)[c]);
  }

  // ---- Questions ----

  ghost predicate QuestionsOk(cfg: Config, s: State)
    requires Shape(cfg, s)
  {
    |s.questions| + Sum(All(Asked, cfg, s)) == |cfg.questions|
  }

  /** The list of follow-up questions is never popped when it is empty. */
  lemma EnqueueDoesNotCrash(cfg: Config, s: State)
    requires Wf(cfg) && Content(cfg, s) && QuestionsOk(cfg, s) && Enabled(cfg, s, Enqueue)
    ensures !DoEnqueue(cfg, s).handler.Crashed?
  {
    var c := s.handler.client;
    SubjectPhase(cfg, s, Enqueue);
    forall d | 0 <= d < |cfg.totals| ensures All(Asked, cfg, s)[d] <= LessOne(cfg.totals)[d] {
      RoundIs(cfg, s, d);
    }
    if s.records[c].round < cfg.totals[c] {
      RoundIs(cfg, s, c);
      assert All(Asked, cfg, s)[c] < LessOne(cfg.totals)[c];
      SumMonotone(All(Asked, cfg, s), LessOne(cfg.totals));
    }
  }

  /** Only a client that is enqueued again takes a question. */
  lemma QuestionsTaken(cfg: Config, s: State, step: Step)
    requires Content(cfg, s) && Enabled(cfg, s, step) && ClientStep(step)
    requires !Apply(cfg, s, step).handler.Crashed? && Subject(s, step) < |cfg.totals| == |s.records|
    ensures |Apply(cfg, s, step).questions| + (if step.Enqueue? && s.records[Subject(s, step)].round < cfg.totals[Subject(s, step)] then 1 else 0)
         == |s.questions|
  {
  }

  lemma AskedMoves(cfg: Config, s: State, step: Step)
    requires Wf(cfg) && Content(cfg, s) && Enabled(cfg, s, step) && ClientStep(step)
    requires !Apply(cfg, s, step).handler.Crashed?
    ensures var c, t := Subject(s, step), Apply(cfg, s, step);
            Shape(cfg, t) && c < |cfg.totals|
            && |t.questions| + All(Asked, cfg, t)[c] == |s.questions| + All(Asked, cfg, s)[c]
  {
    var c, t := Subject(s, step), Apply(cfg, s, step);
    StepMoves(cfg, s, step);
    RoundIs(cfg, s, c);
    QuestionsTaken(cfg, s, step);
  }

  lemma QuestionsStep(cfg: Config, s: State, step: Step)
    requires Wf(cfg) && Content(cfg, s) && QuestionsOk(cfg, s) && Enabled(cfg, s, step)
    requires !Apply(cfg, s, step).handler.Crashed?
    ensures Shape(cfg, Apply(cfg, s, step)) && QuestionsOk(cfg, Apply(cfg, s, step))
  {
    if ClientStep(step) {
      ClientAsks(cfg, s, step);
    } else {
      assert All(Asked, cfg, Apply(cfg, s, step)) == All(Asked, cfg, s);
    }
  }

  lemma ClientAsks(cfg: Config, s: State, step: Step)
    requires Wf(cfg) && Content(cfg, s) && QuestionsOk(cfg, s) && Enabled(cfg, s, step) && ClientStep(step)
    requires !Apply(cfg, s, step).handler.Crashed?
    ensures Shape(cfg, Apply(cfg, s, step)) && QuestionsOk(cfg, Apply(cfg, s, step))
  {
    TallyMoves(Asked, cfg, s, step);
    AskedMoves(cfg, s, step);
  }

  /** The questions that all clients have taken. */
  function AllAsked(talks: seq<Talk>): multiset<Question> {
    if talks == [] then multiset{}
    else AllAsked(talks[..|talks| - 1]) + multiset(talks[|talks| - 1].asked)
  }

  ghost predicate PoolOk(cfg: Config, s: State) {
    multiset(s.questions) + AllAsked(s.talks) == multiset(cfg.questions)
  }

  lemma {:induction false} AskedUpdate(talks: seq<Talk>, c: nat, talk: Talk)
    requires c < |talks|
    ensures AllAsked(talks[c := talk]) + multiset(talks[c].asked) == AllAsked(talks) + multiset(talk.asked)
  {
    var n := |talks| - 1;
    if c < n {
      AskedUpdate(talks[..n], c, talk);
      assert talks[c := talk][..n] == talks[..n][c := talk];
      Shuffle(AllAsked(talks[..n][c := talk]), multiset(talks[c].asked), AllAsked(talks[..n]), multiset(talk.asked),
              multiset(talks[n].asked));
    } else {
      assert talks[c := talk][..n] == talks[..n];
    }
  }

  lemma Shuffle(a: multiset<Question>, b: multiset<Question>, c: multiset<Question>, d: multiset<Question>,
                more: multiset<Question>)
    requires a + b == c + d
    ensures a + more + b == c + more + d
  {
    forall x ensures (a + more + b)[x] == (c + more + d)[x] { assert (a + b)[x] == (c + d)[x]; }
  }

  lemma {:induction false} SameAsked(a: seq<Talk>, b: seq<Talk>)
    requires |a| == |b| && forall d :: 0 <= d < |a| ==> a[d].asked == b[d].asked
    ensures AllAsked(a) == AllAsked(b)
  {
    if a != [] { SameAsked(a[..|a| - 1], b[..|b| - 1]); }
  }

  lemma {:induction false} NothingAsked(talks: seq<Talk>)
    requires forall d :: 0 <= d < |talks| ==> talks[d].asked == []
    ensures AllAsked(talks) == multiset{}
  {
    if talks != [] { NothingAsked(talks[..|talks| - 1]); }
  }

  lemma EnqueuePool(cfg: Config, s: State)
    requires PoolOk(cfg, s) && s.handler.Counted? && !DoEnqueue(cfg, s).handler.Crashed? && s.handler.client < |s.talks|
    ensures PoolOk(cfg, DoEnqueue(cfg, s))
  {
    var c := s.handler.client;
    EnqueueTakes(cfg, s);
    if s.records[c].round < cfg.totals[c] { TakeOne(s.questions, s.talks, c); }
  }

  lemma TakeOne(questions: seq<Question>, talks: seq<Talk>, c: nat)
    requires questions != [] && c < |talks|
    ensures var n := |questions| - 1;
            multiset(questions[..n]) + AllAsked(Took(talks, c, questions[n])) == multiset(questions) + AllAsked(talks)
  {
    var n := |questions| - 1;
    var q := questions[n];
    AskedUpdate(talks, c, talks[c].(asked := talks[c].asked + [q]));
    assert questions == questions[..n] + [q];
    PoolMoves(multiset(questions[..n]), q, AllAsked(talks), multiset(talks[c].asked), AllAsked(Took(talks, c, q)));
  }

  lemma PoolMoves(rest: multiset<Question>, q: Question, all: multiset<Question>, own: multiset<Question>,
                  after: multiset<Question>)
    requires after + own == all + (own + multiset{q})
    ensures rest + multiset{q} + all == rest + after
  {
    forall x ensures (rest + multiset{q} + all)[x] == (rest + after)[x] {
      assert (after + own)[x] == (all + (own + multiset{q}))[x];
    }
  }

  /** Only enqueueing takes a question. */
  lemma PoolStays(cfg: Config, s: State, step: Step)
    requires Enabled(cfg, s, step) && !step.Enqueue? && !Apply(cfg, s, step).handler.Crashed?
    ensures var t := Apply(cfg, s, step);
            t.questions == s.questions && |t.talks| == |s.talks|
            && forall d :: 0 <= d < |s.talks| ==> t.talks[d].asked == s.talks[d].asked
  {
  }

  lemma PoolStep(cfg: Config, s: State, step: Step)
    requires Content(cfg, s) && PoolOk(cfg, s) && Enabled(cfg, s, step) && !Apply(cfg, s, step).handler.Crashed?
    ensures PoolOk(cfg, Apply(cfg, s, step))
  {
    if step.Enqueue? {
      SubjectPhase(cfg, s, step);
      EnqueuePool(cfg, s);
    } else {
      PoolStays(cfg, s, step);
      SameAsked(s.talks, Apply(cfg, s, step).talks);
    }
  }

  // ---- Every reachable state ----

  ghost predicate Inv(cfg: Config, s: State) {
    Content(cfg, s) && Relayed(s) && Counters(cfg, s) && BarrierOk(cfg, s) && QuestionsOk(cfg, s) && PoolOk(cfg, s)
  }

  lemma NeverCrashes(cfg: Config, s: State, step: Step)
    requires Wf(cfg) && Inv(cfg, s) && Enabled(cfg, s, step)
    ensures !Apply(cfg, s, step).handler.Crashed?
  {
    match step
    case CountSuccess => CountSuccessDoesNotCrash(cfg, s);
    case Enqueue => EnqueueDoesNotCrash(cfg, s);
    case _ =>
  }

  lemma InvStep(cfg: Config, s: State, step: Step)
    requires Wf(cfg) && Inv(cfg, s) && Enabled(cfg, s, step)
    ensures Inv(cfg, Apply(cfg, s, step))
  {
    NeverCrashes(cfg, s, step);
    ContentStep(cfg, s, step);
    RelayedStep(cfg, s, step);
    PoolStep(cfg, s, step);
    CountersStep(cfg, s, step);
    BarrierStep(cfg, s, step);
    QuestionsStep(cfg, s, step);
  }

  lemma InvInit(cfg: Config)
    requires Wf(cfg)
    ensures Inv(cfg, Init(cfg))
  {
    ContentInit(cfg);
    BarrierInit(cfg);
    var s := Init(cfg);
    ZeroTallies(All(Asked, cfg, s), 0);
    NothingAsked(s.talks);
  }

  lemma {:induction false} InvRun(cfg: Config, s: State, steps: seq<Step>, t: State)
    requires Wf(cfg) && Inv(cfg, s) && Run(cfg, s, steps, t)
    ensures Inv(cfg, t)
    decreases |steps|
  {
    if steps != [] {
      InvStep(cfg, s, steps[0]);
      InvRun(cfg, Apply(cfg, s, steps[0]), steps[1..], t);
    }
  }

  ghost predicate Reachable(cfg: Config, t: State)
    requires Wf(cfg)
  {
    exists steps :: Run(cfg, Init(cfg), steps, t)
  }

  lemma ReachableInv(cfg: Config, t: State)
    requires Wf(cfg) && Reachable(cfg, t)
    ensures Inv(cfg, t)
  {
    var steps :| Run(cfg, Init(cfg), steps, t);
    InvInit(cfg);
    InvRun(cfg, Init(cfg), steps, t);
  }

  /** What is reachable stays so under every step. */
  lemma ReachableStep(cfg: Config, s: State, step: Step)
    requires Wf(cfg) && Reachable(cfg, s) && Enabled(cfg, s, step)
    ensures Reachable(cfg, Apply(cfg, s, step))
  {
    var steps :| Run(cfg, Init(cfg), steps, s);
    RunAppend(cfg, Init(cfg), steps, s, step);
  }

  lemma {:induction false} RunAppend(cfg: Config, s: State, steps: seq<Step>, t: State, step: Step)
    requires Run(cfg, s, steps, t) && Enabled(cfg, t, step)
    ensures Run(cfg, s, steps + [step], Apply(cfg, t, step))
    decreases |steps|
  {
    if steps == [] {
      assert Run(cfg, Apply(cfg, t, step), [step][1..], Apply(cfg, t, step));
      assert steps + [step] == [step];
    } else {
      RunAppend(cfg, Apply(cfg, s, steps[0]), steps[1..], t, step);
      assert (steps + [step])[1..] == steps[1..] + [step];
    }
  }

  lemma InitIsReachable(cfg: Config)
    requires Wf(cfg)
    ensures Reachable(cfg, Init(cfg))
  {
    assert Run(cfg, Init(cfg), [], Init(cfg));
  }

  /** The clients of every request that is waiting, running, answered or held back. */
  function Outstanding(s: State): seq<nat> {
    Holders(s, AtReady) + Holders(s, AtPopped) + Holders(s, AtFlight) + Holders(s, AtReplied)
    + Holders(s, AtGot) + Holders(s, AtHeld)
  }

  /** Each client has at most one request, wherever it is. */
  lemma AtMostOneRequest(cfg: Config, s: State)
    requires Wf(cfg) && Reachable(cfg, s)
    ensures NoRepeats(Outstanding(s))
  {
    ReachableInv(cfg, s);
    forall x: Phase | !Settled(x) ensures Queued(s.phase, Holders(s, x), x) {}
    var a := Holders(s, AtReady);
    Apart(s.phase, a, Holders(s, AtPopped), {AtReady}, AtPopped);
    var b := a + Holders(s, AtPopped);
    Apart(s.phase, b, Holders(s, AtFlight), {AtReady, AtPopped}, AtFlight);
    var c := b + Holders(s, AtFlight);
    Apart(s.phase, c, Holders(s, AtReplied), {AtReady, AtPopped, AtFlight}, AtReplied);
    var d := c + Holders(s, AtReplied);
    Apart(s.phase, d, Holders(s, AtGot), {AtReady, AtPopped, AtFlight, AtReplied}, AtGot);
    var e := d + Holders(s, AtGot);
    Apart(s.phase, e, Holders(s, AtHeld), {AtReady, AtPopped, AtFlight, AtReplied, AtGot}, AtHeld);
  }

  /** `a` lists clients in the phases `xs`, and `b` those in another phase. */
  lemma Apart(phase: seq<Phase>, a: seq<nat>, b: seq<nat>, xs: set<Phase>, y: Phase)
    requires NoRepeats(a) && Queued(phase, b, y) && y !in xs
    requires forall c :: c in a ==> c < |phase| && phase[c] in xs
    ensures NoRepeats(a + b) && forall c :: c in a + b ==> c < |phase| && phase[c] in xs + {y}
  {
    forall i, j | 0 <= i < j < |a + b| ensures (a + b)[i] != (a + b)[j] {
      if i < |a| { assert a[i] in a; }
      if j >= |a| { assert b[j - |a|] in b; }
    }
  }

  /** The window: in every interleaving, sent minus completed counts the unfinished requests and stays in bounds. */
  lemma WindowIsRespected(cfg: Config, s: State)
    requires Wf(cfg) && Reachable(cfg, s)
    ensures s.sent - s.completed == |s.flight| + |s.responses| + |Holders(s, AtGot)|
    ensures 0 <= s.sent - s.completed
    ensures cfg.maxParallel >= 0 ==> s.sent - s.completed <= cfg.maxParallel
  {
    ReachableInv(cfg, s);
  }

  /** A payload is not changed while its request is outstanding: it still is the client's history. */
  lemma PayloadsAreStable(cfg: Config, s: State, r: Request)
    requires Wf(cfg) && Reachable(cfg, s)
    requires r in s.ready || r in s.flight || r in Pending(s) || s.sender == Popped(r)
    ensures r.client < |s.records| && r.prompt == s.records[r.client].history
  {
    ReachableInv(cfg, s);
  }

  /** `next` is `prompt` with the reply and the next question appended, in the form of the interface. */
  ghost predicate Continues(api: ApiFormat, prompt: seq<Item>, reply: Output, question: Question, next: seq<Item>) {
    match api
    case SGLang =>
      && prompt <= next && |next| == |prompt| + |reply.ids| + |question.ids|
      && (forall i :: 0 <= i < |reply.ids| ==> next[|prompt| + i] == TokenId(reply.ids[i]))
      && (forall i :: 0 <= i < |question.ids| ==> next[|prompt| + |reply.ids| + i] == TokenId(question.ids[i]))
    case OpenAI =>
      if reply.text == "" then next == prompt + [Message("user", question.text)]
      else next == prompt + [Message("assistant", reply.text), Message("user", question.text)]
  }

  lemma ExtendedContinues(api: ApiFormat, prompt: seq<Item>, reply: Output, question: Question)
    ensures Continues(api, prompt, reply, question, Extended(api, prompt, reply, question))
  {
  }

  /**
  The first prompt of a client is the one it was given, and each later one is the prompt before
  it, the reply that came to that, and the question that was taken then.
   */
  lemma PromptsExtend(cfg: Config, s: State, c: nat)
    requires Wf(cfg) && Reachable(cfg, s) && c < |cfg.totals|
    ensures c < |s.talks| && |s.talks[c].prompts| <= cfg.totals[c]
    ensures s.talks[c].prompts != [] ==> s.talks[c].prompts[0] == cfg.prompts[c]
    ensures forall k, n :: 0 <= k < n < |s.talks[c].prompts| && n == k + 1 ==>
      && k < |s.talks[c].replies| && k < |s.talks[c].asked|
      && Continues(cfg.api, s.talks[c].prompts[k], s.talks[c].replies[k], s.talks[c].asked[k], s.talks[c].prompts[n])
  {
    ReachableInv(cfg, s);
    assert TurnOk(cfg, s, c);
    var talk := s.talks[c];
    forall k, n | 0 <= k < n < |talk.prompts| && n == k + 1
      ensures k < |talk.replies| && k < |talk.asked|
      ensures Continues(cfg.api, talk.prompts[k], talk.replies[k], talk.asked[k], talk.prompts[n])
    {
      ExtendedContinues(cfg.api, talk.prompts[k], talk.replies[k], talk.asked[k]);
    }
  }

  /** No question is asked twice and none comes from elsewhere: those taken and those left are the given ones. */
  lemma QuestionsAreSpent(cfg: Config, s: State)
    requires Wf(cfg) && Reachable(cfg, s)
    ensures multiset(s.questions) + AllAsked(s.talks) == multiset(cfg.questions)
  {
    ReachableInv(cfg, s);
  }

  /** The handler's index and key errors cannot happen. */
  lemma HandlerSurvives(cfg: Config, s: State)
    requires Wf(cfg) && Reachable(cfg, s)
    ensures !s.handler.Crashed?
  {
    ReachableInv(cfg, s);
  }

  /**
  Barrier safety: a request waits in the ready queue (or is further on) only
  when every client has finished all the earlier rounds, or all it has.
   */
  lemma BarrierIsSafe(cfg: Config, s: State, r: Request, d: nat)
    requires Wf(cfg) && Reachable(cfg, s) && cfg.barrier && d < |cfg.totals|
    requires r in s.ready || r in s.flight || s.sender == Popped(r)
    ensures |s.records| == |cfg.totals| && r.client < |cfg.totals|
    ensures s.records[d].round >= cfg.totals[d] || s.records[d].round >= s.records[r.client].round
  {
    ReachableInv(cfg, s);
    var c := r.client;
    var x := if r in s.ready then AtReady else if r in s.flight then AtFlight else AtPopped;
    assert Queued(s.phase, Holders(s, x), x);
    InHolders(s, r, x);
    assert RoundOk(cfg.totals[c], s.records[c].round, s.phase[c], s.barrierRound, Level(s));
    assert RoundOk(cfg.totals[d], s.records[d].round, s.phase[d], s.barrierRound, Level(s));
  }

  lemma InHolders(s: State, r: Request, x: Phase)
    requires (x == AtReady && r in s.ready) || (x == AtFlight && r in s.flight) || (x == AtPopped && s.sender == Popped(r))
    ensures r.client in Holders(s, x)
  {
    if x == AtPopped {
      assert Holders(s, x)[0] == r.client;
    } else {
      var q := if x == AtReady then s.ready else s.flight;
      var i :| 0 <= i < |q| && q[i] == r;
      assert Holders(s, x)[i] == r.client;
    }
  }

  /** At the head of the handler's loop every outstanding request is in the current barrier round. */
  lemma OutstandingInBarrierRound(cfg: Config, s: State, c: nat)
    requires Wf(cfg) && Reachable(cfg, s) && cfg.barrier && Resting(s.handler)
    requires c in Outstanding(s)
    ensures c < |s.records|
    ensures s.records[c].round == if c in Holders(s, AtHeld) then s.barrierRound + 1 else s.barrierRound
  {
    ReachableInv(cfg, s);
    forall x: Phase | !Settled(x) ensures Queued(s.phase, Holders(s, x), x) {}
    assert RoundOk(cfg.totals[c], s.records[c].round, s.phase[c], s.barrierRound, Level(s));
  }

  // ---- Runs without failed requests ----

  ghost predicate FailureFree(steps: seq<Step>) {
    forall i :: 0 <= i < |steps| ==> !steps[i].Fail?
  }

  ghost predicate NoneFailed(s: State) {
    && (forall c :: 0 <= c < |s.phase| ==> !s.phase[c].AtFailed?)
    && (forall r :: r in s.responses ==> r.success)
    && (s.handler.Got? ==> s.handler.response.success)
  }

  ghost predicate RepliesAddUp(cfg: Config, s: State)
    requires Shape(cfg, s)
  {
    s.finished == Sum(All(Replied, cfg, s)) && s.completed == Sum(All(Won, cfg, s))
  }

  /** A thread leaves its loop when the progress bar is full. */
  ghost predicate LeftAtEnd(cfg: Config, s: State) {
    s.sender.Stopped? || s.handler.Left? ==> s.finished == Sum(cfg.totals)
  }

  /** The bar is ahead of the handler by the responses that are not counted yet. */
  ghost predicate Backlog(s: State) {
    s.finished - s.completed == |s.responses| + if s.handler.Got? then 1 else 0
  }

  ghost predicate Healthy(cfg: Config, s: State)
    requires Shape(cfg, s)
  {
    NoneFailed(s) && RepliesAddUp(cfg, s) && LeftAtEnd(cfg, s) && Backlog(s)
  }

  lemma NoneFailedStep(cfg: Config, s: State, step: Step)
    requires Content(cfg, s) && NoneFailed(s) && Enabled(cfg, s, step) && !step.Fail?
    requires !Apply(cfg, s, step).handler.Crashed?
    ensures NoneFailed(Apply(cfg, s, step))
  {
    if ClientStep(step) { NoneFailedMove(cfg, s, step); }
  }

  lemma NoneFailedMove(cfg: Config, s: State, step: Step)
    requires Content(cfg, s) && NoneFailed(s) && Enabled(cfg, s, step) && !step.Fail? && ClientStep(step)
    requires !Apply(cfg, s, step).handler.Crashed?
    ensures NoneFailed(Apply(cfg, s, step))
  {
    StepMoves(cfg, s, step);
  }

  lemma RepliesMove(cfg: Config, s: State, step: Step)
    requires Content(cfg, s) && NoneFailed(s) && Enabled(cfg, s, step) && !step.Fail? && ClientStep(step)
    requires !Apply(cfg, s, step).handler.Crashed?
    ensures var c, t := Subject(s, step), Apply(cfg, s, step);
            && Shape(cfg, t) && c < |cfg.totals|
            && t.finished + All(Replied, cfg, s)[c] == s.finished + All(Replied, cfg, t)[c]
            && t.completed + All(Won, cfg, s)[c] == s.completed + All(Won, cfg, t)[c]
  {
    StepMoves(cfg, s, step);
  }

  lemma ClientReplies(cfg: Config, s: State, step: Step)
    requires Content(cfg, s) && NoneFailed(s) && RepliesAddUp(cfg, s) && Enabled(cfg, s, step) && !step.Fail?
    requires ClientStep(step) && !Apply(cfg, s, step).handler.Crashed?
    ensures var t := Apply(cfg, s, step);
            Shape(cfg, t) && t.finished == Sum(All(Replied, cfg, t)) && t.completed == Sum(All(Won, cfg, t))
  {
    TallyMoves(Replied, cfg, s, step);
    TallyMoves(Won, cfg, s, step);
    RepliesMove(cfg, s, step);
  }

  lemma QuietReplies(cfg: Config, s: State, step: Step)
    requires Content(cfg, s) && RepliesAddUp(cfg, s) && Enabled(cfg, s, step) && !ClientStep(step)
    ensures var t := Apply(cfg, s, step);
            Shape(cfg, t) && t.finished == Sum(All(Replied, cfg, t)) && t.completed == Sum(All(Won, cfg, t))
  {
    var t := Apply(cfg, s, step);
    assert All(Replied, cfg, t) == All(Replied, cfg, s) && All(Won, cfg, t) == All(Won, cfg, s);
  }

  lemma RepliesStep(cfg: Config, s: State, step: Step)
    requires Content(cfg, s) && NoneFailed(s) && RepliesAddUp(cfg, s) && Enabled(cfg, s, step) && !step.Fail?
    requires !Apply(cfg, s, step).handler.Crashed?
    ensures Shape(cfg, Apply(cfg, s, step)) && RepliesAddUp(cfg, Apply(cfg, s, step))
  {
    if ClientStep(step) {
      ClientReplies(cfg, s, step);
    } else {
      QuietReplies(cfg, s, step);
    }
  }

  /** When the progress bar is full, nothing is left to send and nothing is in flight. */
  lemma FullMeansReplied(cfg: Config, s: State)
    requires Inv(cfg, s) && Healthy(cfg, s) && s.finished == Sum(cfg.totals)
    ensures forall c :: 0 <= c < |cfg.totals| ==> All(Replied, cfg, s)[c] == cfg.totals[c]
    ensures s.ready == [] && s.flight == [] && Pending(s) == [] && !s.sender.Popped?
  {
    forall c | 0 <= c < |cfg.totals| ensures All(Replied, cfg, s)[c] <= cfg.totals[c] {
      RoundIs(cfg, s, c);
    }
    SumMonotone(All(Replied, cfg, s), cfg.totals);
    forall c | 0 <= c < |cfg.totals| ensures !Unsent(s.phase[c]) && !s.phase[c].AtFlight? {
      RoundIs(cfg, s, c);
      assert All(Replied, cfg, s)[c] == cfg.totals[c];
    }
    EmptyQueue(s, AtReady);
    EmptyQueue(s, AtPopped);
    EmptyQueue(s, AtFlight);
    EmptyQueue(s, AtHeld);
  }

  lemma LeftStep(cfg: Config, s: State, step: Step)
    requires LeftAtEnd(cfg, s) && Enabled(cfg, s, step)
    requires s.finished == Sum(cfg.totals) ==> s.flight == []
    ensures LeftAtEnd(cfg, Apply(cfg, s, step))
  {
  }

  lemma BacklogStep(cfg: Config, s: State, step: Step)
    requires Backlog(s) && Enabled(cfg, s, step) && !step.Fail? && !Apply(cfg, s, step).handler.Crashed?
    requires s.handler.Got? ==> s.handler.response.success
    ensures Backlog(Apply(cfg, s, step))
  {
    if step.Enqueue? { EnqueueCounters(cfg, s); }
  }

  lemma HealthyStep(cfg: Config, s: State, step: Step)
    requires Wf(cfg) && Inv(cfg, s) && Healthy(cfg, s) && Enabled(cfg, s, step) && !step.Fail?
    ensures Shape(cfg, Apply(cfg, s, step)) && Healthy(cfg, Apply(cfg, s, step))
  {
    NeverCrashes(cfg, s, step);
    NoneFailedStep(cfg, s, step);
    RepliesStep(cfg, s, step);
    if s.finished == Sum(cfg.totals) { FullMeansReplied(cfg, s); }
    LeftStep(cfg, s, step);
    BacklogStep(cfg, s, step);
  }

  lemma {:induction false} HealthyRun(cfg: Config, s: State, steps: seq<Step>, t: State)
    requires Wf(cfg) && Inv(cfg, s) && Healthy(cfg, s) && Run(cfg, s, steps, t) && FailureFree(steps)
    ensures Inv(cfg, t) && Healthy(cfg, t)
    decreases |steps|
  {
    if steps != [] {
      HealthyStep(cfg, s, steps[0]);
      InvStep(cfg, s, steps[0]);
      HealthyRun(cfg, Apply(cfg, s, steps[0]), steps[1..], t);
    }
  }

  ghost predicate ReachedWithoutFailure(cfg: Config, t: State)
    requires Wf(cfg)
  {
    exists steps :: FailureFree(steps) && Run(cfg, Init(cfg), steps, t)
  }

  lemma ReachedHealthy(cfg: Config, t: State)
    requires Wf(cfg) && ReachedWithoutFailure(cfg, t)
    ensures Inv(cfg, t) && Healthy(cfg, t)
  {
    var steps :| FailureFree(steps) && Run(cfg, Init(cfg), steps, t);
    InvInit(cfg);
    ZeroTallies(All(Replied, cfg, Init(cfg)), 0);
    ZeroTallies(All(Won, cfg, Init(cfg)), 0);
    HealthyRun(cfg, Init(cfg), steps, t);
  }

  /** Nothing is ready, in flight or unhandled. */
  predicate Quiet(s: State) {
    s.ready == [] && s.flight == [] && s.responses == [] && !s.sender.Popped? && Resting(s.handler)
  }

  ghost predicate AllDone(cfg: Config, s: State) {
    |s.records| == |cfg.totals| && forall c :: 0 <= c < |cfg.totals| ==> s.records[c].round == cfg.totals[c]
  }

  /** With nothing left to do, every client is either finished or held back. */
  lemma QuietPhases(cfg: Config, s: State, c: nat)
    requires Inv(cfg, s) && Healthy(cfg, s) && Quiet(s) && c < |cfg.totals|
    ensures s.phase[c].AtDone? || s.phase[c].AtHeld?
  {
    assert Queued(s.phase, Holders(s, AtReady), AtReady) && Queued(s.phase, Holders(s, AtPopped), AtPopped);
    assert Queued(s.phase, Holders(s, AtFlight), AtFlight) && Queued(s.phase, Holders(s, AtReplied), AtReplied);
    assert Queued(s.phase, Holders(s, AtGot), AtGot) && Queued(s.phase, Holders(s, AtCounted), AtCounted);
    assert c !in Holders(s, AtReady) && c !in Holders(s, AtPopped) && c !in Holders(s, AtFlight);
    assert c !in Holders(s, AtReplied) && c !in Holders(s, AtGot) && c !in Holders(s, AtCounted);
  }

  /** A held client would mean that the barrier has been reached and not opened. */
  lemma QuietHoldsNobody(cfg: Config, s: State, c: nat)
    requires Wf(cfg) && Inv(cfg, s) && Healthy(cfg, s) && Quiet(s) && c < |cfg.totals|
    ensures s.phase[c].AtDone?
  {
    forall d: nat | d < |cfg.totals| ensures s.phase[d].AtDone? || s.phase[d].AtHeld? { QuietPhases(cfg, s, d); }
    if s.phase[c].AtHeld? {
      assert Queued(s.phase, Holders(s, AtHeld), AtHeld);
      assert c in Holders(s, AtHeld);
      assert cfg.barrier;
      var b := s.barrierRound;
      forall d | 0 <= d < |cfg.totals| && cfg.totals[d] > b ensures Rounds(s)[d] > b {
        assert RoundOk(cfg.totals[d], s.records[d].round, s.phase[d], b, Level(s));
        RoundIs(cfg, s, d);
      }
      CountMonotone(cfg.totals, Rounds(s), b);
      assert RoundOk(cfg.totals[c], s.records[c].round, s.phase[c], b, Level(s));
      RoundIs(cfg, s, c);
      CountPositive(cfg.totals, c, b);
    }
  }

  lemma EmptyQueue(s: State, x: Phase)
    requires Links(s) && !Settled(x) && forall c :: 0 <= c < |s.phase| ==> s.phase[c] != x
    ensures Holders(s, x) == []
  {
    var q := Holders(s, x);
    assert Queued(s.phase, q, x);
    FirstIsMember(q);
  }

  /**
  Progress: a run without failures that has nothing ready, in flight or
  unhandled has finished every round of every client, holds nothing back, and
  has counted `total_requests` successes.
   */
  lemma QuietMeansFinished(cfg: Config, s: State)
    requires Wf(cfg) && ReachedWithoutFailure(cfg, s) && Quiet(s)
    ensures AllDone(cfg, s) && s.held == []
    ensures Sum(Rounds(s)) == Sum(cfg.totals) == SumOfCounts(cfg.totals, cfg.maxRounds) == s.completed
  {
    ReachedHealthy(cfg, s);
    forall c: nat | c < |cfg.totals| ensures s.phase[c].AtDone? && s.records[c].round == cfg.totals[c] {
      QuietHoldsNobody(cfg, s, c);
      RoundIs(cfg, s, c);
    }
    assert All(Won, cfg, s) == Rounds(s) == cfg.totals;
    EmptyQueue(s, AtHeld);
    DoubleCount(cfg.totals, cfg.maxRounds);
  }

  /** The sender leaves its loop only when nothing is left to send and nothing is in flight. */
  lemma SenderStopsLast(cfg: Config, s: State)
    requires Wf(cfg) && Inv(cfg, s) && Healthy(cfg, s) && s.sender == Stopped
    ensures s.ready == [] && s.flight == [] && Pending(s) == []
  {
    FullMeansReplied(cfg, s);
  }

  /** The work that is left. */
  function Measure(cfg: Config, s: State): nat
    requires Shape(cfg, s)
  {
    Sum(All(Ahead, cfg, s)) + (if s.handler.Releasing? then 1 else 0) + if s.landing then 1 else 0
  }

  /** Every step but polling takes work away, also when requests fail. */
  lemma WorkShrinks(cfg: Config, s: State, step: Step)
    requires Wf(cfg) && Inv(cfg, s) && Enabled(cfg, s, step)
    ensures Shape(cfg, Apply(cfg, s, step))
    ensures if Polls(step) then Measure(cfg, Apply(cfg, s, step)) == Measure(cfg, s)
            else Measure(cfg, Apply(cfg, s, step)) < Measure(cfg, s)
  {
    NeverCrashes(cfg, s, step);
    if ClientStep(step) {
      ClientShrinks(cfg, s, step);
    } else {
      IdleWork(cfg, s, step);
    }
  }

  lemma IdleWork(cfg: Config, s: State, step: Step)
    requires Shape(cfg, s) && Enabled(cfg, s, step) && !ClientStep(step)
    ensures Shape(cfg, Apply(cfg, s, step))
    ensures if Polls(step) then Measure(cfg, Apply(cfg, s, step)) == Measure(cfg, s)
            else Measure(cfg, Apply(cfg, s, step)) < Measure(cfg, s)
  {
    assert All(Ahead, cfg, Apply(cfg, s, step)) == All(Ahead, cfg, s);
  }

  lemma ClientShrinks(cfg: Config, s: State, step: Step)
    requires Content(cfg, s) && Enabled(cfg, s, step) && ClientStep(step)
    requires !Apply(cfg, s, step).handler.Crashed?
    ensures Shape(cfg, Apply(cfg, s, step)) && Measure(cfg, Apply(cfg, s, step)) < Measure(cfg, s)
  {
    TallyMoves(Ahead, cfg, s, step);
    AheadMoves(cfg, s, step);
  }

  lemma AheadMoves(cfg: Config, s: State, step: Step)
    requires Content(cfg, s) && Enabled(cfg, s, step) && ClientStep(step)
    requires !Apply(cfg, s, step).handler.Crashed?
    ensures var c, t := Subject(s, step), Apply(cfg, s, step);
            && Shape(cfg, t) && c < |cfg.totals|
            && All(Ahead, cfg, t)[c] + (if step.Enqueue? || step.Answer? || step.Fail? then 1 else 0)
               < All(Ahead, cfg, s)[c]
  {
    var c := Subject(s, step);
    StepMoves(cfg, s, step);
    RoundIs(cfg, s, c);
  }

  /** A step that takes work away, the window check that lets the next request go, or going back to wait. */
  ghost predicate Useful(cfg: Config, s: State, step: Step) {
    Enabled(cfg, s, step) && !step.Fail? && !step.PopEmpty? && !step.Expire?
    && (step.Check? ==> s.ready != []) && (step.Look? ==> s.finished != Sum(cfg.totals))
  }

  /** The handler has left, or is about to. */
  ghost predicate Leaving(cfg: Config, s: State) {
    s.handler.Left? || (s.handler.Expired? && s.finished == Sum(cfg.totals))
  }

  /**
  No deadlock: a run without failures that has not finished can always go on,
  with a step that takes work away or leads to one, unless the handler leaves.
   */
  lemma NeverStuck(cfg: Config, s: State) returns (step: Step)
    requires Wf(cfg) && ReachedWithoutFailure(cfg, s) && cfg.maxParallel > 0 && !AllDone(cfg, s) && !Leaving(cfg, s)
    ensures Useful(cfg, s, step)
  {
    ReachedHealthy(cfg, s);
    if s.landing {
      step := Land;
    } else if Resting(s.handler) {
      step := WhenResting(cfg, s);
    } else if s.handler.Got? {
      step := CountSuccess;
    } else if s.handler.Counted? {
      step := Enqueue;
    } else {
      step := if s.handler.next < |s.held| then Release else FinishRelease;
    }
  }

  lemma WhenResting(cfg: Config, s: State) returns (step: Step)
    requires Wf(cfg) && ReachedWithoutFailure(cfg, s) && cfg.maxParallel > 0 && !AllDone(cfg, s) && !Leaving(cfg, s)
    requires !s.landing && Resting(s.handler) && Inv(cfg, s) && Healthy(cfg, s)
    ensures Useful(cfg, s, step)
  {
    if s.sender == Stopped { FullMeansReplied(cfg, s); }
    if s.handler.Expired? {
      step := Look;
    } else if s.responses != [] {
      step := Get;
    } else if s.flight != [] {
      step := Answer(0, Output([], ""));
    } else if s.sender.Popped? {
      step := Send;
    } else {
      if s.ready == [] { QuietMeansFinished(cfg, s); }
      step := if s.sender == Idle then Check else Pop(0);
    }
  }

  // ---- Replies that nobody handles ----

  /**
  What the handler leaves behind in a run without failures: nothing is ready or in flight,
  and what is missing is exactly the replies that it did not take, each the last one of its
  client.
   */
  lemma LeavingLosesIff(cfg: Config, s: State)
    requires Wf(cfg) && ReachedWithoutFailure(cfg, s) && s.handler == Left
    ensures s.ready == [] && s.flight == [] && s.completed + |s.responses| == Sum(cfg.totals)
    ensures |s.records| == |cfg.totals| && forall c: nat :: c < |cfg.totals| ==>
      s.records[c].round + (if c in Responders(s.responses) then 1 else 0) == cfg.totals[c]
    ensures AllDone(cfg, s) <==> s.responses == []
  {
    ReachedHealthy(cfg, s);
    FullMeansReplied(cfg, s);
    forall c: nat | c < |cfg.totals|
      ensures s.records[c].round + (if c in Responders(s.responses) then 1 else 0) == cfg.totals[c]
    {
      RepliedIsQueued(cfg, s, c);
    }
    if s.responses != [] {
      assert Queued(s.phase, Holders(s, AtReplied), AtReplied);
      var c := s.responses[0].client;
      assert Responders(s.responses)[0] == c && c in Responders(s.responses);
      assert s.records[c].round != cfg.totals[c];
    }
  }

  /**
  Before it leaves: when its wait has expired and the bar is full, its look at the bar leaves
  a round unhandled if and only if a reply is in the queue by then, or on its way there.
   */
  lemma LookLosesIff(cfg: Config, s: State)
    requires Wf(cfg) && ReachedWithoutFailure(cfg, s) && s.handler == Expired && s.finished == Sum(cfg.totals)
    ensures Enabled(cfg, s, Look) && Apply(cfg, s, Look).handler == Left
    ensures !AllDone(cfg, Apply(cfg, s, Look)) <==> s.responses != []
  {
    ReachedStep(cfg, s, Look);
    LeavingLosesIff(cfg, Apply(cfg, s, Look));
  }

  lemma RepliedIsQueued(cfg: Config, s: State, c: nat)
    requires Content(cfg, s) && Resting(s.handler) && c < |cfg.totals| && All(Replied, cfg, s)[c] == cfg.totals[c]
    ensures s.records[c].round + (if c in Responders(s.responses) then 1 else 0) == cfg.totals[c]
  {
    assert Queued(s.phase, Holders(s, AtReplied), AtReplied) && Queued(s.phase, Holders(s, AtGot), AtGot);
    assert c !in Holders(s, AtGot);
  }

  lemma ReachedStep(cfg: Config, s: State, step: Step)
    requires Wf(cfg) && ReachedWithoutFailure(cfg, s) && Enabled(cfg, s, step) && !step.Fail?
    ensures ReachedWithoutFailure(cfg, Apply(cfg, s, step))
  {
    var steps :| FailureFree(steps) && Run(cfg, Init(cfg), steps, s);
    RunAppend(cfg, Init(cfg), steps, s, step);
    assert FailureFree(steps + [step]);
  }

  /** Wherever the handler waits for the last reply of a run, its time-out can make it miss that reply. */
  lemma LastReplyCanBeLost(cfg: Config, s: State, output: Output) returns (t: State)
    requires Wf(cfg) && ReachedWithoutFailure(cfg, s) && AwaitsLast(cfg, s)
    ensures ReachedWithoutFailure(cfg, t) && t.handler == Left && !AllDone(cfg, t)
    ensures t.responses == [Response(s.flight[0].client, true, output)] && t.completed == s.completed
  {
    ReachedHealthy(cfg, s);
    ReachedStep(cfg, s, Expire);
    var a := Apply(cfg, s, Expire);
    ReachedStep(cfg, a, Answer(0, output));
    var b := Apply(cfg, a, Answer(0, output));
    ReachedStep(cfg, b, Look);
    t := Apply(cfg, b, Look);
    LeavingLosesIff(cfg, t);
  }

  /** The handler waits, and only the last reply of the run is missing. */
  ghost predicate AwaitsLast(cfg: Config, s: State) {
    && s.handler == Waiting && s.responses == [] && !s.landing
    && s.flight != [] && s.finished + 1 == Sum(cfg.totals)
  }

  /** A client with one round gets there. */
  lemma SingleRoundAwaitsLast(cfg: Config) returns (s: State)
    requires Wf(cfg) && cfg.totals == [1] && cfg.maxParallel > 0
    ensures ReachedWithoutFailure(cfg, s) && AwaitsLast(cfg, s)
  {
    var start := Init(cfg);
    assert FailureFree([]) && Run(cfg, start, [], start);
    ReachedStep(cfg, start, Check);
    var checked := Apply(cfg, start, Check);
    ReachedStep(cfg, checked, Pop(0));
    var popped := Apply(cfg, checked, Pop(0));
    ReachedStep(cfg, popped, Send);
    s := Apply(cfg, popped, Send);
    assert Sum(cfg.totals) == 1;
  }
}
