/**
The multi-turn workload protocol: a sender and a response handler share a ready
queue, a response queue, two counters and the client records, with an optional
barrier between rounds (benchmark/hicache/bench_multiturn.py).

A `Step` is one action that the other thread can observe.  The sender checks
the window, pops and sends; a request in flight is answered or fails, which the
progress bar shows before the response is in the queue; the handler takes a
response, counts it, queues the next turn, and releases a held round one request
at a time; when no response has come in time it looks at the progress bar and may
leave.
 */
module Multiturn {
  import opened Wrappers
  import opened Indices
  import opened Tallies

  datatype ApiFormat = SGLang | OpenAI

  /** An element of a client's history: a token id, or a chat message. */
  datatype Item = TokenId(id: int) | Message(role: string, content: string)

  datatype Output = Output(ids: seq<int>, text: string)

  datatype Question = Question(ids: seq<int>, text: string)

  datatype Request = Request(client: nat, prompt: seq<Item>)

  datatype Response = Response(client: nat, success: bool, output: Output)

  datatype Record = Record(round: nat, history: seq<Item>)

  datatype Config = Config(
    api: ApiFormat, totals: seq<nat>, maxRounds: nat, maxParallel: int, barrier: bool, fifo: bool,
    prompts: seq<seq<Item>>, questions: seq<Question>)

  datatype Sender = Idle | Checked | Popped(request: Request) | Stopped

  datatype Handler =
    | Waiting | Got(response: Response) | Counted(client: nat) | Releasing(next: nat) | Expired | Left | Crashed

  /** Where a client's request is; an auxiliary variable, read by no step. */
  datatype Phase =
    | AtReady | AtPopped | AtFlight | AtReplied | AtGot | AtCounted | AtHeld | AtDone | AtFailed

  /** The prompts sent for a client, the outputs of its replies as they came, and the questions it took. */
  datatype Talk = Talk(prompts: seq<seq<Item>>, replies: seq<Output>, asked: seq<Question>)

  /** The last of `responses` is not in the queue yet while `landing` holds. */
  datatype State = State(
    records: seq<Record>, ready: seq<Request>, flight: seq<Request>, responses: seq<Response>, landing: bool,
    questions: seq<Question>, sent: int, completed: int, finished: int,
    sender: Sender, handler: Handler,
    held: seq<Request>, barrierRound: nat, barrierDone: nat, perRound: seq<nat>,
    // Observations: the phase of every client, and what was sent to and fro for it.
    phase: seq<Phase>, talks: seq<Talk>)

  datatype Step =
    | Check
    | PopEmpty
    | Pop(index: nat)
    | Send
    | Answer(index: nat, output: Output)
    | Fail(index: nat, counted: bool)
    | Land
    | Get
    | CountFailure
    | CountSuccess
    | Enqueue
    | Release
    | FinishRelease
    | Expire
    | Look

  // ---- Construction ----

  /** The per-client round bounds; `num` is the fallback for both. */
  function ResolveRounds(min: int, max: int, num: int): (r: Result<(int, int)>)
    ensures r.Success? ==> 1 <= r.value.0 <= r.value.1
    ensures 1 <= min <= max ==> r == Success((min, max))
    ensures min == 0 && max == 0 && 1 <= num ==> r == Success((num, num))
    ensures min == 0 && 1 <= max ==> r == Success((max, max))
    ensures max == 0 && 1 <= min ==> r == Success((min, min))
    ensures r.Success? <==> 1 <= min <= max || (min == 0 && 1 <= max) || (max == 0 && 1 <= min)
                            || (min == 0 && max == 0 && 1 <= num)
  {
    var lo := if min == 0 && max == 0 then num else if min == 0 then max else min;
    var hi := if min == 0 && max == 0 then num else if max == 0 then lo else max;
    if lo < 1 then Failure("ValueError")
    else if lo > hi then Failure("ValueError")
    else Success((lo, hi))
  }

  ghost predicate Wf(cfg: Config) {
    && |cfg.prompts| == |cfg.totals|
    && (forall c :: 0 <= c < |cfg.totals| ==> 1 <= cfg.totals[c] <= cfg.maxRounds)
    // the sampler returns as many follow-up questions as it was asked for
    && |cfg.questions| >= Sum(LessOne(cfg.totals))
  }

  function LessOne(totals: seq<nat>): (r: seq<nat>)
    ensures |r| == |totals| && forall c :: 0 <= c < |r| ==> r[c] == if totals[c] > 0 then totals[c] - 1 else 0
  {
    seq(|totals|, c requires 0 <= c < |totals| => if totals[c] > 0 then totals[c] - 1 else 0)
  }

  function Init(cfg: Config): State
    requires |cfg.prompts| == |cfg.totals|
  {
    var n := |cfg.totals|;
    State(
      seq(n, c requires 0 <= c < n => Record(0, cfg.prompts[c])),
      seq(n, c requires 0 <= c < n => Request(c, cfg.prompts[c])),
      [], [], false, cfg.questions, 0, 0, 0, Idle, Waiting, [], 0, 0, seq(cfg.maxRounds, _ => 0),
      seq(n, _ => AtReady), seq(n, _ => Talk([], [], [])))
  }

  // ---- The steps ----

  function TokenIds(ids: seq<int>): seq<Item> {
    seq(|ids|, i requires 0 <= i < |ids| => TokenId(ids[i]))
  }

  /** What a successful response adds to the history. */
  function AnswerItems(api: ApiFormat, output: Output): seq<Item> {
    match api
    case OpenAI => if output.text != "" then [Message("assistant", output.text)] else []
    case SGLang => TokenIds(output.ids)
  }

  /** What the next question adds to the history. */
  function QuestionItems(api: ApiFormat, question: Question): seq<Item> {
    match api
    case OpenAI => [Message("user", question.text)]
    case SGLang => TokenIds(question.ids)
  }

  /** The responses that are in the queue. */
  function Arrived(s: State): nat { if s.landing && s.responses != [] then |s.responses| - 1 else |s.responses| }

  /** The sender and the requests share one event loop, which is not left while a response lands. */
  predicate Enabled(cfg: Config, s: State, step: Step) {
    match step
    case Check => !s.landing && s.sender == Idle && s.sent - s.completed < cfg.maxParallel
    case PopEmpty => !s.landing && s.sender == Checked && s.ready == []
    case Pop(i) => !s.landing && s.sender == Checked && i < |s.ready| && (cfg.fifo ==> i == 0)
    case Send => !s.landing && s.sender.Popped?
    case Answer(k, _) => !s.landing && s.sender != Stopped && k < |s.flight|
    case Fail(k, _) => !s.landing && s.sender != Stopped && k < |s.flight|
    case Land => s.landing
    case Get => s.handler == Waiting && Arrived(s) > 0
    case CountFailure => s.handler.Got? && !s.handler.response.success
    case CountSuccess => s.handler.Got? && s.handler.response.success
    case Enqueue => s.handler.Counted?
    case Release => s.handler.Releasing? && s.handler.next < |s.held|
    case FinishRelease => s.handler.Releasing? && s.handler.next == |s.held|
    case Expire => s.handler == Waiting && Arrived(s) == 0
    case Look => s.handler == Expired
  }

  /** The sender reads the progress bar between two requests of its loop. */
  function AfterSend(cfg: Config, s: State): Sender {
    if s.finished == Sum(cfg.totals) then Stopped else Idle
  }

  function Apply(cfg: Config, s: State, step: Step): State
    requires Enabled(cfg, s, step)
  {
    match step
    case Check => s.(sender := Checked)
    case PopEmpty => s.(sender := AfterSend(cfg, s))
    case Pop(i) => DoPop(s, i)
    case Send => DoSend(cfg, s)
    case Answer(k, output) => DoReply(s, k, true, output, true)
    case Fail(k, counted) => DoReply(s, k, false, Output([], ""), counted)
    case Land => s.(landing := false)
    case Get => DoGet(s)
    case CountFailure => DoCountFailure(s)
    case CountSuccess => DoCountSuccess(cfg, s)
    case Enqueue => DoEnqueue(cfg, s)
    case Release => DoRelease(s)
    case FinishRelease => DoFinishRelease(s)
    case Expire => s.(handler := Expired)
    case Look => s.(handler := if s.finished == Sum(cfg.totals) then Left else Waiting)
  }

  function Move(phase: seq<Phase>, c: nat, to: Phase): (r: seq<Phase>)
    ensures |r| == |phase|
  {
    if c < |phase| then phase[c := to] else phase
  }

  function Sent(talks: seq<Talk>, c: nat, prompt: seq<Item>): (r: seq<Talk>)
    ensures |r| == |talks|
  {
    if c < |talks| then talks[c := talks[c].(prompts := talks[c].prompts + [prompt])] else talks
  }

  function Heard(talks: seq<Talk>, c: nat, output: Output): (r: seq<Talk>)
    ensures |r| == |talks|
  {
    if c < |talks| then talks[c := talks[c].(replies := talks[c].replies + [output])] else talks
  }

  function Took(talks: seq<Talk>, c: nat, question: Question): (r: seq<Talk>)
    ensures |r| == |talks|
  {
    if c < |talks| then talks[c := talks[c].(asked := talks[c].asked + [question])] else talks
  }

  function DoPop(s: State, i: nat): State
    requires i < |s.ready|
  {
    s.(sender := Popped(s.ready[i]), ready := RemoveAt(s.ready, i),
       phase := Move(s.phase, s.ready[i].client, AtPopped))
  }

  /** The coroutine is created and counted before it can run. */
  function DoSend(cfg: Config, s: State): State
    requires s.sender.Popped?
  {
    var r := s.sender.request;
    s.(sender := AfterSend(cfg, s), flight := s.flight + [r], sent := s.sent + 1,
       phase := Move(s.phase, r.client, AtFlight),
       talks := Sent(s.talks, r.client, r.prompt))
  }

  /** A failure that the progress bar does not show puts its response at once. */
  function DoReply(s: State, k: nat, success: bool, output: Output, counted: bool): State
    requires k < |s.flight|
  {
    var c := s.flight[k].client;
    s.(flight := RemoveAt(s.flight, k), responses := s.responses + [Response(c, success, output)], landing := counted,
       finished := if counted then s.finished + 1 else s.finished,
       phase := Move(s.phase, c, AtReplied), talks := Heard(s.talks, c, output))
  }

  function DoGet(s: State): State
    requires s.responses != []
  {
    s.(handler := Got(s.responses[0]), responses := s.responses[1..],
       phase := Move(s.phase, s.responses[0].client, AtGot))
  }

  function DoCountFailure(s: State): State
    requires s.handler.Got?
  {
    s.(handler := Waiting, completed := s.completed + 1,
       phase := Move(s.phase, s.handler.response.client, AtFailed))
  }

  /** A missing client or round key is a `KeyError`, which ends the handler thread. */
  function DoCountSuccess(cfg: Config, s: State): State
    requires s.handler.Got?
  {
    var c := s.handler.response.client;
    if c >= |s.records| || (cfg.barrier && s.records[c].round >= |s.perRound|) then s.(handler := Crashed)
    else
      var items := AnswerItems(cfg.api, s.handler.response.output);
      var round := s.records[c].round;
      s.(handler := Counted(c), completed := s.completed + 1,
         records := s.records[c := Record(round + 1, s.records[c].history + items)],
         perRound := if cfg.barrier then s.perRound[round := s.perRound[round] + 1] else s.perRound,
         phase := Move(s.phase, c, AtCounted))
  }

  /** The client's next turn, if it has one: a new question and a new request. */
  function NextTurn(cfg: Config, s: State): State
    requires s.handler.Counted? && s.handler.client < |s.records| && s.questions != []
  {
    var c := s.handler.client;
    var question := s.questions[|s.questions| - 1];
    var history := s.records[c].history + QuestionItems(cfg.api, question);
    var s' := s.(questions := s.questions[..|s.questions| - 1],
                 records := s.records[c := s.records[c].(history := history)],
                 talks := Took(s.talks, c, question));
    if cfg.barrier then s'.(held := s.held + [Request(c, history)], phase := Move(s.phase, c, AtHeld))
    else s'.(ready := s.ready + [Request(c, history)], phase := Move(s.phase, c, AtReady))
  }

  /** The barrier test at the end of the handler's loop body. */
  function Barrier(cfg: Config, s: State): State {
    if cfg.barrier && s.barrierRound < cfg.maxRounds then
      if s.barrierDone + 1 == CountAbove(cfg.totals, s.barrierRound) then
        s.(barrierDone := s.barrierDone + 1, handler := Releasing(0))
      else s.(barrierDone := s.barrierDone + 1, handler := Waiting)
    else s.(handler := Waiting)
  }

  function DoEnqueue(cfg: Config, s: State): State
    requires s.handler.Counted?
  {
    var c := s.handler.client;
    if c >= |s.records| || c >= |cfg.totals| then s.(handler := Crashed)
    else if s.records[c].round < cfg.totals[c] then
      if s.questions == [] then s.(handler := Crashed)  // IndexError is not caught
      else Barrier(cfg, NextTurn(cfg, s))
    else Barrier(cfg, s.(phase := Move(s.phase, c, AtDone)))
  }

  function DoRelease(s: State): State
    requires s.handler.Releasing? && s.handler.next < |s.held|
  {
    var r := s.held[s.handler.next];
    s.(handler := Releasing(s.handler.next + 1), ready := s.ready + [r], phase := Move(s.phase, r.client, AtReady))
  }

  function DoFinishRelease(s: State): State {
    s.(handler := Waiting, held := [], barrierRound := s.barrierRound + 1, barrierDone := 0)
  }

  /** `steps` lead from `s` to `t`. */
  ghost predicate Run(cfg: Config, s: State, steps: seq<Step>, t: State)
    decreases |steps|
  {
    if steps == [] then s == t
    else Enabled(cfg, s, steps[0]) && Run(cfg, Apply(cfg, s, steps[0]), steps[1..], t)
  }
}
