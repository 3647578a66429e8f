/**
What the requests carry: a payload never changes while its request is
outstanding, and each prompt extends the one before it by the answer to it.
Also the window counters, which hold under every interleaving.
 */
module MultiturnContent {
  import opened Multiturn
  import opened MultiturnLinks

  predicate Unsent(x: Phase) { x.AtReady? || x.AtPopped? || x.AtHeld? }

  predicate InService(x: Phase) { x.AtFlight? || x.AtReplied? || x.AtGot? }

  /** A prompt, the reply to it and the next question: the next prompt. */
  function Extended(api: ApiFormat, prompt: seq<Item>, reply: Output, question: Question): seq<Item> {
    prompt + AnswerItems(api, reply) + QuestionItems(api, question)
  }

  /** Each prompt extends the previous one by the reply that came and the question that was taken. */
  ghost predicate Chain(api: ApiFormat, first: seq<Item>, talk: Talk) {
    && (talk.prompts != [] ==> talk.prompts[0] == first)
    && forall r, t :: 0 <= r < t < |talk.prompts| && t == r + 1 && r < |talk.replies| && r < |talk.asked| ==>
         talk.prompts[t] == Extended(api, talk.prompts[r], talk.replies[r], talk.asked[r])
  }

  /** How many prompts, replies and questions there are after `n` rounds. */
  ghost predicate Amounts(x: Phase, n: nat, talk: Talk) {
    && |talk.prompts| == (if InService(x) || x.AtFailed? then n + 1 else n)
    && |talk.replies| == (if x.AtReplied? || x.AtGot? || x.AtFailed? then n + 1 else n)
    && |talk.asked| + (if x.AtCounted? || x.AtDone? then 1 else 0) == n
  }

  /** What the history of a client is, by phase. */
  ghost predicate HistoryIs(api: ApiFormat, first: seq<Item>, rec: Record, x: Phase, talk: Talk)
    requires Amounts(x, rec.round, talk)
  {
    var n := rec.round;
    && (Unsent(x) ==>
          rec.history == if n == 0 then first else Extended(api, talk.prompts[n - 1], talk.replies[n - 1], talk.asked[n - 1]))
    && (InService(x) ==> rec.history == talk.prompts[n])
    && (x.AtCounted? ==> rec.history == talk.prompts[n - 1] + AnswerItems(api, talk.replies[n - 1]))
  }

  /** The conversation of one client, by phase. */
  ghost predicate TurnsOk(total: nat, api: ApiFormat, first: seq<Item>, rec: Record, x: Phase, talk: Talk) {
    && Amounts(x, rec.round, talk) && Chain(api, first, talk) && HistoryIs(api, first, rec, x, talk)
    && (if x.AtDone? then rec.round == total else if x.AtCounted? then rec.round <= total else rec.round < total)
  }

  ghost predicate Shape(cfg: Config, s: State) {
    |s.records| == |s.phase| == |s.talks| == |cfg.totals| == |cfg.prompts|
  }

  ghost predicate TurnOk(cfg: Config, s: State, c: nat)
    requires Shape(cfg, s) && c < |cfg.totals|
  {
    TurnsOk(cfg.totals[c], cfg.api, cfg.prompts[c], s.records[c], s.phase[c], s.talks[c])
  }

  ghost predicate Turns(cfg: Config, s: State)
    requires Shape(cfg, s)
  {
    forall c :: 0 <= c < |cfg.totals| ==> TurnOk(cfg, s, c)
  }

  ghost predicate Current(records: seq<Record>, r: Request) {
    r.client < |records| && r.prompt == records[r.client].history
  }

  /** The output of a response is that of the last reply to its client. */
  ghost predicate Latest(talks: seq<Talk>, r: Response) {
    r.client < |talks| && talks[r.client].replies != []
    && talks[r.client].replies[|talks[r.client].replies| - 1] == r.output
  }

  /** Responses are as the replies came. */
  ghost predicate Relayed(s: State) {
    && (forall r :: r in s.responses ==> Latest(s.talks, r))
    && (s.handler.Got? ==> Latest(s.talks, s.handler.response))
  }

  /** The history that a waiting or running request refers to is what it was built from. */
  ghost predicate Carried(s: State) {
    && (forall r :: r in s.ready ==> Current(s.records, r))
    && (forall r :: r in s.flight ==> Current(s.records, r))
    && (forall r :: r in Pending(s) ==> Current(s.records, r))
    && (s.sender.Popped? ==> Current(s.records, s.sender.request))
  }


  ghost predicate Counters(cfg: Config, s: State) {
    && s.sent - s.completed == |s.flight| + |s.responses| + (if s.handler.Got? then 1 else 0)
    && (s.sent - s.completed <= cfg.maxParallel || s.sent == s.completed)
    && (s.sender.Checked? || s.sender.Popped? ==> s.sent - s.completed < cfg.maxParallel)
  }

  ghost predicate Content(cfg: Config, s: State) {
    Shape(cfg, s) && Links(s) && Turns(cfg, s) && Carried(s)
  }

  // ---- Counters ----

  lemma CountersStep(cfg: Config, s: State, step: Step)
    requires Counters(cfg, s) && Enabled(cfg, s, step)
    requires !Apply(cfg, s, step).handler.Crashed?
    ensures Counters(cfg, Apply(cfg, s, step))
  {
    if step.Enqueue? { EnqueueCounters(cfg, s); }
  }

  lemma EnqueueCounters(cfg: Config, s: State)
    requires s.handler.Counted?
    ensures var t := DoEnqueue(cfg, s);
            && t.sent == s.sent && t.completed == s.completed && t.finished == s.finished
            && t.flight == s.flight && t.responses == s.responses
            && t.sender == s.sender && !t.handler.Got?
  {
  }

  // ---- Conversations ----

  /** A step that changes the entries of client `c` only. */
  ghost predicate OnlyClient(s: State, t: State, c: nat) {
    && |t.records| == |s.records| && |t.phase| == |s.phase|
    && |t.talks| == |s.talks|
    && (forall d :: 0 <= d < |s.records| && d != c ==> t.records[d] == s.records[d])
    && (forall d :: 0 <= d < |s.phase| && d != c ==> t.phase[d] == s.phase[d])
    && (forall d :: 0 <= d < |s.talks| && d != c ==> t.talks[d] == s.talks[d])
  }

  lemma TurnsFrame(cfg: Config, s: State, t: State, c: nat)
    requires Shape(cfg, s) && Turns(cfg, s) && OnlyClient(s, t, c) && c < |cfg.totals|
    requires TurnsOk(cfg.totals[c], cfg.api, cfg.prompts[c], t.records[c], t.phase[c], t.talks[c])
    ensures Shape(cfg, t) && Turns(cfg, t)
  {
    forall d: nat | d < |cfg.totals| ensures TurnOk(cfg, t, d) { assert d != c ==> TurnOk(cfg, s, d); }
  }

  /** How far a client is, by phase. */
  lemma RoundIs(cfg: Config, s: State, c: nat)
    requires Shape(cfg, s) && Turns(cfg, s) && c < |cfg.totals|
    ensures var n, total, x := s.records[c].round, cfg.totals[c], s.phase[c];
            if x.AtDone? then n == total else if x.AtCounted? then 1 <= n <= total else n < total
  {
    assert TurnOk(cfg, s, c);
  }

  lemma TurnsSame(cfg: Config, s: State, t: State)
    requires Shape(cfg, s) && Turns(cfg, s) && t.records == s.records && t.phase == s.phase && t.talks == s.talks
    ensures Shape(cfg, t) && Turns(cfg, t)
  {
    forall c: nat | c < |cfg.totals| ensures TurnOk(cfg, t, c) { assert TurnOk(cfg, s, c); }
  }

  /** A request in another place belongs to another client. */
  lemma OtherClient(s: State, q: seq<Request>, r: Request, x: Phase, c: nat)
    requires Links(s) && !Settled(x) && Clients(q) == Holders(s, x) && r in q
    requires c < |s.phase| && s.phase[c] != x
    ensures r.client != c && r.client < |s.phase| && s.phase[r.client] == x
  {
    var i :| 0 <= i < |q| && q[i] == r;
    assert Queued(s.phase, Holders(s, x), x);
    assert Holders(s, x)[i] in Holders(s, x);
  }

  lemma CarriedFrame(s: State, t: State, c: nat)
    requires Links(s) && Carried(s) && |s.records| == |s.phase| && c < |s.phase|
    requires s.phase[c].AtGot? || s.phase[c].AtCounted?
    requires |t.records| == |s.records| && forall d :: 0 <= d < |s.records| && d != c ==> t.records[d] == s.records[d]
    ensures forall r :: r in s.ready ==> Current(t.records, r)
    ensures forall r :: r in s.flight ==> Current(t.records, r)
    ensures forall r :: r in Pending(s) ==> Current(t.records, r)
    ensures s.sender.Popped? ==> Current(t.records, s.sender.request)
  {
    forall r | r in s.ready ensures Current(t.records, r) { OtherClient(s, s.ready, r, AtReady, c); }
    forall r | r in s.flight ensures Current(t.records, r) { OtherClient(s, s.flight, r, AtFlight, c); }
    forall r | r in Pending(s) ensures Current(t.records, r) { OtherClient(s, Pending(s), r, AtHeld, c); }
    if s.sender.Popped? {
      assert Clients([s.sender.request]) == Holders(s, AtPopped);
      OtherClient(s, [s.sender.request], s.sender.request, AtPopped, c);
    }
  }

  lemma PopContent(cfg: Config, s: State, i: nat)
    requires Content(cfg, s) && s.sender == Checked && i < |s.ready|
    ensures Content(cfg, DoPop(s, i))
  {
    var t, c := DoPop(s, i), s.ready[i].client;
    PopMoves(s, i);
    MovesKeepLinks(s, t, i, AtReady, AtPopped);
    assert s.ready[i] in s.ready && TurnOk(cfg, s, c);
    TurnsFrame(cfg, s, t, c);
    assert forall r :: r in t.ready ==> r in s.ready;
  }

  lemma SendContent(cfg: Config, s: State)
    requires Content(cfg, s) && s.sender.Popped?
    ensures Content(cfg, DoSend(cfg, s))
  {
    var t, r := DoSend(cfg, s), s.sender.request;
    var c := r.client;
    SendMoves(cfg, s);
    MovesKeepLinks(s, t, 0, AtPopped, AtFlight);
    assert TurnOk(cfg, s, c);
    SentTurn(cfg.totals[c], cfg.api, cfg.prompts[c], s.records[c], s.talks[c]);
    TurnsFrame(cfg, s, t, c);
  }

  lemma SentTurn(total: nat, api: ApiFormat, first: seq<Item>, rec: Record, talk: Talk)
    requires TurnsOk(total, api, first, rec, AtPopped, talk)
    ensures TurnsOk(total, api, first, rec, AtFlight, talk.(prompts := talk.prompts + [rec.history]))
  {
    ChainSent(api, first, talk, rec.history);
  }

  lemma ChainSent(api: ApiFormat, first: seq<Item>, talk: Talk, prompt: seq<Item>)
    requires Chain(api, first, talk) && |talk.prompts| == |talk.replies| == |talk.asked|
    requires var n := |talk.prompts|;
             prompt == if n == 0 then first else Extended(api, talk.prompts[n - 1], talk.replies[n - 1], talk.asked[n - 1])
    ensures Chain(api, first, talk.(prompts := talk.prompts + [prompt]))
  {
  }

  lemma ReplyContent(cfg: Config, s: State, k: nat, success: bool, output: Output, counted: bool)
    requires Content(cfg, s) && k < |s.flight|
    ensures Content(cfg, DoReply(s, k, success, output, counted))
  {
    var t, c := DoReply(s, k, success, output, counted), s.flight[k].client;
    ReplyMoves(s, k, success, output, counted);
    MovesKeepLinks(s, t, k, AtFlight, AtReplied);
    assert TurnOk(cfg, s, c);
    HeardTurn(cfg.totals[c], cfg.api, cfg.prompts[c], s.records[c], s.talks[c], output);
    TurnsFrame(cfg, s, t, c);
    assert forall q :: q in t.flight ==> q in s.flight;
  }

  lemma HeardTurn(total: nat, api: ApiFormat, first: seq<Item>, rec: Record, talk: Talk, output: Output)
    requires TurnsOk(total, api, first, rec, AtFlight, talk)
    ensures TurnsOk(total, api, first, rec, AtReplied, talk.(replies := talk.replies + [output]))
  {
  }

  lemma GetContent(cfg: Config, s: State)
    requires Content(cfg, s) && s.handler == Waiting && s.responses != []
    ensures Content(cfg, DoGet(s))
  {
    var t := DoGet(s);
    GetMoves(s);
    MovesKeepLinks(s, t, 0, AtReplied, AtGot);
    assert TurnOk(cfg, s, s.responses[0].client);
    TurnsFrame(cfg, s, t, s.responses[0].client);
  }

  lemma CountFailureContent(cfg: Config, s: State)
    requires Content(cfg, s) && s.handler.Got?
    ensures Content(cfg, DoCountFailure(s))
  {
    var t := DoCountFailure(s);
    CountFailureMoves(s);
    MovesKeepLinks(s, t, 0, AtGot, AtFailed);
    assert TurnOk(cfg, s, s.handler.response.client);
    TurnsFrame(cfg, s, t, s.handler.response.client);
  }

  lemma CountSuccessContent(cfg: Config, s: State)
    requires Content(cfg, s) && Relayed(s) && s.handler.Got? && !DoCountSuccess(cfg, s).handler.Crashed?
    ensures Content(cfg, DoCountSuccess(cfg, s))
  {
    var t, c := DoCountSuccess(cfg, s), s.handler.response.client;
    CountSuccessMoves(cfg, s);
    MovesKeepLinks(s, t, 0, AtGot, AtCounted);
    CountSuccessTurns(cfg, s);
    CountSuccessCarried(s, t, c);
  }

  lemma CountSuccessTurns(cfg: Config, s: State)
    requires Shape(cfg, s) && Turns(cfg, s) && Relayed(s) && s.handler.Got? && !DoCountSuccess(cfg, s).handler.Crashed?
    requires s.handler.response.client < |s.phase| && s.phase[s.handler.response.client] == AtGot
    ensures Shape(cfg, DoCountSuccess(cfg, s)) && Turns(cfg, DoCountSuccess(cfg, s))
  {
    var t, c := DoCountSuccess(cfg, s), s.handler.response.client;
    assert TurnOk(cfg, s, c);
    CountedTurn(cfg.totals[c], cfg.api, cfg.prompts[c], s.records[c], s.talks[c], s.handler.response.output);
    TurnsFrame(cfg, s, t, c);
  }

  /** The history is extended by the reply that came. */
  lemma CountedTurn(total: nat, api: ApiFormat, first: seq<Item>, rec: Record, talk: Talk, output: Output)
    requires TurnsOk(total, api, first, rec, AtGot, talk) && output == talk.replies[|talk.replies| - 1]
    ensures TurnsOk(total, api, first, Record(rec.round + 1, rec.history + AnswerItems(api, output)), AtCounted, talk)
  {
  }

  lemma CountSuccessCarried(s: State, t: State, c: nat)
    requires Links(s) && Carried(s) && |s.records| == |s.phase| && c < |s.phase| && s.phase[c].AtGot?
    requires |t.records| == |s.records| && forall d :: 0 <= d < |s.records| && d != c ==> t.records[d] == s.records[d]
    requires t.ready == s.ready && t.flight == s.flight && t.sender == s.sender && t.held == s.held
    requires !s.handler.Releasing? && !t.handler.Releasing?
    ensures Carried(t)
  {
    CarriedFrame(s, t, c);
  }

  lemma EnqueueContent(cfg: Config, s: State)
    requires Content(cfg, s) && s.handler.Counted? && !DoEnqueue(cfg, s).handler.Crashed?
    ensures Content(cfg, DoEnqueue(cfg, s))
  {
    var t, c := DoEnqueue(cfg, s), s.handler.client;
    EnqueueMoves(cfg, s);
    MovesKeepLinks(s, t, 0, AtCounted, AfterCount(cfg, s));
    EnqueuedTurn(cfg, s);
    TurnsFrame(cfg, s, t, c);
    EnqueueCarried(cfg, s);
  }

  lemma EnqueuedTurn(cfg: Config, s: State)
    requires Content(cfg, s) && s.handler.Counted? && !DoEnqueue(cfg, s).handler.Crashed?
    ensures var c, t := s.handler.client, DoEnqueue(cfg, s);
            c < |cfg.totals| && OnlyClient(s, t, c)
            && TurnsOk(cfg.totals[c], cfg.api, cfg.prompts[c], t.records[c], t.phase[c], t.talks[c])
  {
    var c, t := s.handler.client, DoEnqueue(cfg, s);
    assert Queued(s.phase, Holders(s, AtCounted), AtCounted);
    assert c in Holders(s, AtCounted);
    assert TurnOk(cfg, s, c);
    EnqueueChanges(cfg, s);
    if s.records[c].round < cfg.totals[c] {
      TookTurn(cfg.totals[c], cfg.api, cfg.prompts[c], s.records[c], AfterCount(cfg, s), s.talks[c],
               s.questions[|s.questions| - 1]);
    }
  }

  /** The new prompt is the history: the last prompt, the reply to it and the next question. */
  lemma TookTurn(total: nat, api: ApiFormat, first: seq<Item>, rec: Record, x: Phase, talk: Talk, question: Question)
    requires TurnsOk(total, api, first, rec, AtCounted, talk) && rec.round < total && Unsent(x)
    ensures TurnsOk(total, api, first, rec.(history := rec.history + QuestionItems(api, question)), x,
                    talk.(asked := talk.asked + [question]))
  {
  }

  /** Where a client that is enqueued again has its next question from. */
  lemma EnqueueChanges(cfg: Config, s: State)
    requires Shape(cfg, s) && s.handler.Counted? && !DoEnqueue(cfg, s).handler.Crashed?
    ensures var c, t := s.handler.client, DoEnqueue(cfg, s);
            && c < |s.records| && OnlyClient(s, t, c)
            && t.phase[c] == AfterCount(cfg, s) && t.records[c].round == s.records[c].round
            && if s.records[c].round >= cfg.totals[c] then t.records[c] == s.records[c] && t.talks[c] == s.talks[c]
               else
                 && s.questions != []
                 && var q := s.questions[|s.questions| - 1];
                    && t.records[c].history == s.records[c].history + QuestionItems(cfg.api, q)
                    && t.talks[c] == s.talks[c].(asked := s.talks[c].asked + [q])
  {
  }

  lemma EnqueueCarried(cfg: Config, s: State)
    requires Content(cfg, s) && s.handler.Counted? && !DoEnqueue(cfg, s).handler.Crashed?
    ensures Carried(DoEnqueue(cfg, s))
  {
    var t, c := DoEnqueue(cfg, s), s.handler.client;
    assert Queued(s.phase, Holders(s, AtCounted), AtCounted);
    assert c in Holders(s, AtCounted);
    EnqueueQueues(cfg, s);
    CarriedFrame(s, t, c);
  }

  lemma EnqueueQueues(cfg: Config, s: State)
    requires s.handler.Counted? && !DoEnqueue(cfg, s).handler.Crashed?
    ensures var c, t := s.handler.client, DoEnqueue(cfg, s);
            && c < |s.records| == |t.records| && (forall d :: 0 <= d < |s.records| && d != c ==> t.records[d] == s.records[d])
            && t.sender == s.sender && t.flight == s.flight
            && (t.ready == s.ready || t.ready == s.ready + [Request(c, t.records[c].history)])
            && (Pending(t) == Pending(s) || Pending(t) == Pending(s) + [Request(c, t.records[c].history)])
  {
  }

  lemma ReleaseContent(cfg: Config, s: State)
    requires Content(cfg, s) && s.handler.Releasing? && s.handler.next < |s.held|
    ensures Content(cfg, DoRelease(s))
  {
    var t, r := DoRelease(s), s.held[s.handler.next];
    ReleaseMoves(s);
    MovesKeepLinks(s, t, 0, AtHeld, AtReady);
    assert Pending(s)[0] == r && r in Pending(s) && TurnOk(cfg, s, r.client);
    TurnsFrame(cfg, s, t, r.client);
    assert Pending(t) == Pending(s)[1..];
  }

  lemma FinishContent(cfg: Config, s: State)
    requires Content(cfg, s) && s.handler.Releasing? && s.handler.next == |s.held|
    ensures Content(cfg, DoFinishRelease(s))
  {
    var t := DoFinishRelease(s);
    assert Pending(t) == Pending(s) == [];
    forall x: Phase | !Settled(x) ensures Holders(t, x) == Holders(s, x) {}
    TurnsSame(cfg, s, t);
  }

  lemma ContentStep(cfg: Config, s: State, step: Step)
    requires Content(cfg, s) && Relayed(s) && Enabled(cfg, s, step) && !Apply(cfg, s, step).handler.Crashed?
    ensures Content(cfg, Apply(cfg, s, step))
  {
    match step
    case Pop(i) => PopContent(cfg, s, i);
    case Send => SendContent(cfg, s);
    case Answer(k, output) => ReplyContent(cfg, s, k, true, output, true);
    case Fail(k, counted) => ReplyContent(cfg, s, k, false, Output([], ""), counted);
    case Get => GetContent(cfg, s);
    case CountFailure => CountFailureContent(cfg, s);
    case CountSuccess => CountSuccessContent(cfg, s);
    case Enqueue => EnqueueContent(cfg, s);
    case Release => ReleaseContent(cfg, s);
    case FinishRelease => FinishContent(cfg, s);
    case Check => SenderContent(cfg, s, Checked);
    case PopEmpty => SenderContent(cfg, s, AfterSend(cfg, s));
    case Land => LandContent(cfg, s);
    case Expire => HandlerContent(cfg, s, Expired);
    case Look => HandlerContent(cfg, s, Apply(cfg, s, Look).handler);
  }

  lemma LandContent(cfg: Config, s: State)
    requires Content(cfg, s)
    ensures Content(cfg, s.(landing := false))
  {
    var t := s.(landing := false);
    forall x: Phase | !Settled(x) ensures Holders(t, x) == Holders(s, x) {}
    TurnsSame(cfg, s, t);
  }

  predicate Resting(h: Handler) { h.Waiting? || h.Expired? || h.Left? }

  lemma HandlerContent(cfg: Config, s: State, handler: Handler)
    requires Content(cfg, s) && Resting(s.handler) && Resting(handler)
    ensures Content(cfg, s.(handler := handler))
  {
    var t := s.(handler := handler);
    forall x: Phase | !Settled(x) ensures Holders(t, x) == Holders(s, x) {}
    TurnsSame(cfg, s, t);
  }

  lemma SenderContent(cfg: Config, s: State, sender: Sender)
    requires Content(cfg, s) && !s.sender.Popped? && !sender.Popped?
    ensures Content(cfg, s.(sender := sender))
  {
    var t := s.(sender := sender);
    forall x: Phase | !Settled(x) ensures Holders(t, x) == Holders(s, x) {}
    TurnsSame(cfg, s, t);
  }

  // ---- Responses ----

  lemma ReplyRelayed(cfg: Config, s: State, k: nat, success: bool, output: Output, counted: bool)
    requires Content(cfg, s) && Relayed(s) && k < |s.flight|
    ensures Relayed(DoReply(s, k, success, output, counted))
  {
    var t, c := DoReply(s, k, success, output, counted), s.flight[k].client;
    FlightPhase(s, k);
    forall r | r in s.responses ensures Latest(t.talks, r) { OtherResponder(s, s.responses, r, AtReplied, c); }
    if s.handler.Got? {
      assert Responders([s.handler.response]) == Holders(s, AtGot);
      OtherResponder(s, [s.handler.response], s.handler.response, AtGot, c);
    }
  }

  lemma FlightPhase(s: State, k: nat)
    requires Links(s) && k < |s.flight|
    ensures s.flight[k].client < |s.phase| && s.phase[s.flight[k].client] == AtFlight
  {
    assert Queued(s.phase, Holders(s, AtFlight), AtFlight);
    assert Holders(s, AtFlight)[k] in Holders(s, AtFlight);
  }

  lemma OtherResponder(s: State, q: seq<Response>, r: Response, x: Phase, c: nat)
    requires Links(s) && !Settled(x) && Responders(q) == Holders(s, x) && r in q
    requires c < |s.phase| && s.phase[c] != x
    ensures r.client != c
  {
    var i :| 0 <= i < |q| && q[i] == r;
    assert Queued(s.phase, Holders(s, x), x);
    assert Holders(s, x)[i] in Holders(s, x);
  }

  /** What enqueueing does to questions and conversations. */
  lemma EnqueueTakes(cfg: Config, s: State)
    requires s.handler.Counted? && !DoEnqueue(cfg, s).handler.Crashed?
    ensures var c, t, n := s.handler.client, DoEnqueue(cfg, s), |s.questions| - 1;
            && c < |s.records| && c < |cfg.totals|
            && if s.records[c].round < cfg.totals[c]
               then n >= 0 && t.questions == s.questions[..n] && t.talks == Took(s.talks, c, s.questions[n])
               else t.questions == s.questions && t.talks == s.talks
  {
  }

  lemma TookReplies(talks: seq<Talk>, c: nat, question: Question)
    ensures forall d :: 0 <= d < |talks| ==> Took(talks, c, question)[d].replies == talks[d].replies
  {
  }

  /** Steps that bring no reply. */
  lemma SameReplies(cfg: Config, s: State, step: Step)
    requires Enabled(cfg, s, step) && !step.Answer? && !step.Fail? && !Apply(cfg, s, step).handler.Crashed?
    ensures var t := Apply(cfg, s, step);
            && |t.talks| == |s.talks| && (forall d :: 0 <= d < |s.talks| ==> t.talks[d].replies == s.talks[d].replies)
            && (forall r :: r in t.responses ==> r in s.responses)
            && (t.handler.Got? ==> t.handler == s.handler || (s.responses != [] && t.handler.response == s.responses[0]))
  {
    if step.Enqueue? {
      EnqueueTakes(cfg, s);
      EnqueueCounters(cfg, s);
      if s.questions != [] { TookReplies(s.talks, s.handler.client, s.questions[|s.questions| - 1]); }
    } else {
      OthersReplies(cfg, s, step);
    }
  }

  lemma OthersReplies(cfg: Config, s: State, step: Step)
    requires Enabled(cfg, s, step) && !step.Answer? && !step.Fail? && !step.Enqueue? && !Apply(cfg, s, step).handler.Crashed?
    ensures var t := Apply(cfg, s, step);
            && |t.talks| == |s.talks| && (forall d :: 0 <= d < |s.talks| ==> t.talks[d].replies == s.talks[d].replies)
            && (forall r :: r in t.responses ==> r in s.responses)
            && (t.handler.Got? ==> t.handler == s.handler || (s.responses != [] && t.handler.response == s.responses[0]))
  {
  }

  lemma RelayedStep(cfg: Config, s: State, step: Step)
    requires Content(cfg, s) && Relayed(s) && Enabled(cfg, s, step) && !Apply(cfg, s, step).handler.Crashed?
    ensures Relayed(Apply(cfg, s, step))
  {
    match step
    case Answer(k, output) => ReplyRelayed(cfg, s, k, true, output, true);
    case Fail(k, counted) => ReplyRelayed(cfg, s, k, false, Output([], ""), counted);
    case _ => QuietRelayed(cfg, s, step);
  }

  lemma QuietRelayed(cfg: Config, s: State, step: Step)
    requires Relayed(s) && Enabled(cfg, s, step) && !step.Answer? && !step.Fail? && !Apply(cfg, s, step).handler.Crashed?
    ensures Relayed(Apply(cfg, s, step))
  {
    var t := Apply(cfg, s, step);
    SameReplies(cfg, s, step);
    forall r | r in t.responses ensures Latest(t.talks, r) { assert Latest(s.talks, r); }
    if t.handler.Got? { assert Latest(s.talks, t.handler.response); }
  }

  lemma ContentInit(cfg: Config)
    requires Wf(cfg)
    ensures Content(cfg, Init(cfg)) && Counters(cfg, Init(cfg)) && Relayed(Init(cfg))
  {
    var s := Init(cfg);
    forall x: Phase | !Settled(x) ensures Queued(s.phase, Holders(s, x), x) {
      if x == AtReady {
        forall c: nat ensures c in Clients(s.ready) <==> c < |s.phase| {
          if c < |s.phase| { assert Clients(s.ready)[c] == c; }
        }
      }
    }
  }
}
