/**
The workload generator as an object: its fields are changed in place by the
sender thread, by replies, and by the handler thread.  Each method is one step,
and brings the object to the state that the protocol's step gives
(`WorkloadGenerator` and `ReadyQueue` of benchmark/hicache/bench_multiturn.py).
 */
module MultiturnWorkload {
  import opened Wrappers
  import opened Indices
  import opened Tallies
  import opened Multiturn
  import opened MultiturnRuns

  class ReadyQueue {
    var requests: seq<Request>
    const fifo: bool

    constructor (requests: seq<Request>, fifo: bool)
      ensures this.requests == requests && this.fifo == fifo
    {
      this.requests := requests;
      this.fifo := fifo;
    }

    method Append(item: Request)
      modifies this
      ensures requests == old(requests) + [item]
    {
      requests := requests + [item];
    }

    /** `choice` is the drawn index; the FIFO policy ignores it. */
    method Pop(choice: nat) returns (item: Option<Request>)
      modifies this
      ensures item.None? <==> old(requests) == []
      ensures item.None? ==> requests == []
      ensures item.Some? ==>
                exists i: nat :: i < |old(requests)| && (fifo ==> i == 0) && (!fifo ==> i == choice % |old(requests)|)
                  && item.value == old(requests)[i] && requests == RemoveAt(old(requests), i)
    {
      if requests == [] {
        return None;
      }
      var i := if fifo then 0 else choice % |requests|;
      item := Some(requests[i]);
      requests := RemoveAt(requests, i);
    }
  }

  class WorkloadGenerator {
    const cfg: Config
    const readyQueue: ReadyQueue
    var records: seq<Record>
    var flight: seq<Request>
    var responses: seq<Response>
    var landing: bool
    var questions: seq<Question>
    var sent: int
    var completed: int
    var finished: int
    var sender: Sender
    var handler: Handler
    var held: seq<Request>
    var barrierRound: nat
    var barrierDone: nat
    var perRound: seq<nat>
    ghost var phase: seq<Phase>
    ghost var talks: seq<Talk>

    ghost function Now(): State
      reads this, readyQueue
    {
      State(records, readyQueue.requests, flight, responses, landing, questions, sent, completed, finished, sender,
            handler, held, barrierRound, barrierDone, perRound, phase, talks)
    }

    /** The queue follows the configured policy, and the fields are a state that the protocol can reach. */
    ghost predicate Valid()
      reads this, readyQueue
    {
      readyQueue.fifo == cfg.fifo && Wf(cfg) && Reachable(cfg, Now())
    }

    constructor (cfg: Config)
      requires Wf(cfg)
      ensures Valid() && this.cfg == cfg && Now() == Init(cfg) && fresh(readyQueue)
    {
      InitIsReachable(cfg);
      var n := |cfg.totals|;
      this.cfg := cfg;
      var requests := seq(n, c requires 0 <= c < n => Request(c, cfg.prompts[c]));
      this.readyQueue := new ReadyQueue(requests, cfg.fifo);
      this.records := seq(n, c requires 0 <= c < n => Record(0, cfg.prompts[c]));
      this.flight, this.responses, this.landing, this.questions := [], [], false, cfg.questions;
      this.sent, this.completed, this.finished := 0, 0, 0;
      this.sender, this.handler := Idle, Waiting;
      this.held, this.barrierRound, this.barrierDone := [], 0, 0;
      this.perRound := seq(cfg.maxRounds, _ => 0);
      this.phase := seq(n, _ => AtReady);
      this.talks := seq(n, _ => Talk([], [], []));
    }

    // ---- The sender thread ----

    method SenderCheck()
      requires Valid() && !landing && sender == Idle
      modifies this`sender
      ensures Valid()
      ensures if Enabled(cfg, old(Now()), Check) then Now() == Apply(cfg, old(Now()), Check) else Now() == old(Now())
    {
      if sent - completed < cfg.maxParallel {
        sender := Checked;
        ReachableStep(cfg, old(Now()), Check);
      }
    }

    method SenderPop(choice: nat)
      requires Valid() && !landing && sender == Checked
      modifies this`sender, this`phase, readyQueue
      ensures Valid()
      ensures if old(readyQueue.requests) == [] then Now() == Apply(cfg, old(Now()), PopEmpty)
              else exists i :: Enabled(cfg, old(Now()), Pop(i)) && Now() == Apply(cfg, old(Now()), Pop(i))
    {
      ghost var before := Now();
      var item := readyQueue.Pop(choice);
      if item.Some? {
        ghost var i: nat :| i < |before.ready| && (readyQueue.fifo ==> i == 0)
          && item.value == before.ready[i] && readyQueue.requests == RemoveAt(before.ready, i);
        sender := Popped(item.value);
        phase := Move(phase, item.value.client, AtPopped);
        assert Enabled(cfg, before, Pop(i)) && Now() == Apply(cfg, before, Pop(i));
        ReachableStep(cfg, before, Pop(i));
      } else {
        sender := if finished == Sum(cfg.totals) then Stopped else Idle;
        assert Enabled(cfg, before, PopEmpty) && Now() == Apply(cfg, before, PopEmpty);
        ReachableStep(cfg, before, PopEmpty);
      }
    }

    method SenderSend()
      requires Valid() && !landing && sender.Popped?
      modifies this`sender, this`flight, this`sent, this`phase, this`talks
      ensures Valid()
      ensures Now() == Apply(cfg, old(Now()), Send)
    {
      CreateTask();
      ReachableStep(cfg, old(Now()), Send);
    }

    method CreateTask()
      requires sender.Popped?
      modifies this`sender, this`flight, this`sent, this`phase, this`talks
      ensures flight == old(flight) + [old(sender).request] && sent == old(sent) + 1
      ensures sender == if finished == Sum(cfg.totals) then Stopped else Idle
      ensures phase == Move(old(phase), old(sender).request.client, AtFlight)
      ensures talks == Sent(old(talks), old(sender).request.client, old(sender).request.prompt)
    {
      var request := sender.request;
      flight := flight + [request];
      sent := sent + 1;
      sender := if finished == Sum(cfg.totals) then Stopped else Idle;
      phase := Move(phase, request.client, AtFlight);
      talks := Sent(talks, request.client, request.prompt);
    }

    // ---- Replies ----

    /** The reply is there, and the progress bar shows it; `Land` puts it into the queue. */
    method Reply(k: nat, success: bool, output: Output, counted: bool)
      requires Valid() && !landing && sender != Stopped && k < |flight|
      modifies this`flight, this`responses, this`landing, this`finished, this`phase, this`talks
      ensures Valid()
      ensures Now() == Apply(cfg, old(Now()), if success then Answer(k, output) else Fail(k, counted))
    {
      TakeReply(k, success, if success then output else Output([], ""), success || counted);
      ReachableStep(cfg, old(Now()), if success then Answer(k, output) else Fail(k, counted));
    }

    method TakeReply(k: nat, success: bool, output: Output, counted: bool)
      requires k < |flight|
      modifies this`flight, this`responses, this`landing, this`finished, this`phase, this`talks
      ensures var c := old(flight)[k].client;
              && flight == RemoveAt(old(flight), k) && responses == old(responses) + [Response(c, success, output)]
              && landing == counted && finished == old(finished) + (if counted then 1 else 0)
              && phase == Move(old(phase), c, AtReplied) && talks == Heard(old(talks), c, output)
    {
      var client := flight[k].client;
      flight := RemoveAt(flight, k);
      responses := responses + [Response(client, success, output)];
      landing := counted;
      if counted {
        finished := finished + 1;
      }
      phase := Move(phase, client, AtReplied);
      talks := Heard(talks, client, output);
    }

    method PutResponse()
      requires Valid() && landing
      modifies this`landing
      ensures Valid()
      ensures Now() == Apply(cfg, old(Now()), Land)
    {
      landing := false;
      ReachableStep(cfg, old(Now()), Land);
    }

    // ---- The handler thread ----

    /** `get` with its time-out: a response, or `queue.Empty`. */
    method HandlerGet()
      requires Valid() && handler == Waiting
      modifies this`handler, this`responses, this`phase
      ensures Valid()
      ensures Now() == Apply(cfg, old(Now()), if Arrived(old(Now())) > 0 then Get else Expire)
    {
      if |responses| > (if landing then 1 else 0) {
        handler := Got(responses[0]);
        phase := Move(phase, responses[0].client, AtGot);
        responses := responses[1..];
        ReachableStep(cfg, old(Now()), Get);
      } else {
        handler := Expired;
        ReachableStep(cfg, old(Now()), Expire);
      }
    }

    /** The `queue.Empty` branch. */
    method HandlerLook()
      requires Valid() && handler == Expired
      modifies this`handler
      ensures Valid()
      ensures Now() == Apply(cfg, old(Now()), Look)
    {
      handler := if finished == Sum(cfg.totals) then Left else Waiting;
      ReachableStep(cfg, old(Now()), Look);
    }

    method HandlerCountFailure()
      requires Valid() && handler.Got? && !handler.response.success
      modifies this`handler, this`completed, this`phase
      ensures Valid()
      ensures Now() == Apply(cfg, old(Now()), CountFailure)
    {
      completed := completed + 1;
      phase := Move(phase, handler.response.client, AtFailed);
      handler := Waiting;
      ReachableStep(cfg, old(Now()), CountFailure);
    }

    method HandlerCountSuccess()
      requires Valid() && handler.Got? && handler.response.success
      modifies this`handler, this`completed, this`records, this`perRound, this`phase
      ensures Valid() && !handler.Crashed?
      ensures Now() == Apply(cfg, old(Now()), CountSuccess)
    {
      CountResponse();
      ReachableStep(cfg, old(Now()), CountSuccess);
      HandlerSurvives(cfg, Now());
    }

    /** The body of `HandlerCountSuccess`, with the error that a missing client or round would raise. */
    method CountResponse()
      requires handler.Got?
      modifies this`handler, this`completed, this`records, this`perRound, this`phase
      ensures Now() == DoCountSuccess(cfg, old(Now()))
    {
      var response := handler.response;
      var c := response.client;
      if c >= |records| || (cfg.barrier && records[c].round >= |perRound|) {
        handler := Crashed;
      } else {
        CountTurn(c, AnswerItems(cfg.api, response.output));
      }
    }

    method CountTurn(c: nat, items: seq<Item>)
      requires c < |records| && (cfg.barrier ==> records[c].round < |perRound|)
      modifies this`handler, this`completed, this`records, this`perRound, this`phase
      ensures handler == Counted(c) && completed == old(completed) + 1
      ensures records == old(records)[c := Record(old(records)[c].round + 1, old(records)[c].history + items)]
      ensures perRound == if cfg.barrier then var r := old(records)[c].round; old(perRound)[r := old(perRound)[r] + 1]
                          else old(perRound)
      ensures phase == Move(old(phase), c, AtCounted)
    {
      var round := records[c].round;
      records := records[c := Record(round + 1, records[c].history + items)];
      if cfg.barrier {
        perRound := perRound[round := perRound[round] + 1];
      }
      completed := completed + 1;
      handler := Counted(c);
      phase := Move(phase, c, AtCounted);
    }

    method HandlerEnqueue()
      requires Valid() && handler.Counted?
      modifies this`handler, this`questions, this`records, this`held, this`barrierDone, this`phase, this`talks, readyQueue
      ensures Valid() && !handler.Crashed?
      ensures Now() == Apply(cfg, old(Now()), Enqueue)
    {
      TakeNext();
      ReachableStep(cfg, old(Now()), Enqueue);
      HandlerSurvives(cfg, Now());
    }

    /** The body of `HandlerEnqueue`, with the errors that a missing client or question would raise. */
    method TakeNext()
      requires handler.Counted?
      modifies this`handler, this`questions, this`records, this`held, this`barrierDone, this`phase, this`talks, readyQueue
      ensures Now() == Apply(cfg, old(Now()), Enqueue)
    {
      var c := handler.client;
      if c >= |records| || c >= |cfg.totals| {
        handler := Crashed;
        return;
      }
      if records[c].round < cfg.totals[c] {
        if questions == [] {
          handler := Crashed;
          return;
        }
        NextRequest();
      } else {
        phase := Move(phase, c, AtDone);
      }
      BarrierTest();
    }

    method NextRequest()
      requires handler.Counted? && handler.client < |records| && questions != []
      modifies this`questions, this`records, this`held, this`phase, this`talks, readyQueue
      ensures Now() == NextTurn(cfg, old(Now()))
    {
      var c := handler.client;
      var question := questions[|questions| - 1];
      questions := questions[..|questions| - 1];
      var history := records[c].history + QuestionItems(cfg.api, question);
      records := records[c := records[c].(history := history)];
      talks := Took(talks, c, question);
      if cfg.barrier {
        held := held + [Request(c, history)];
        phase := Move(phase, c, AtHeld);
      } else {
        readyQueue.Append(Request(c, history));
        phase := Move(phase, c, AtReady);
      }
    }

    method BarrierTest()
      modifies this`handler, this`barrierDone
      ensures Now() == Barrier(cfg, old(Now()))
    {
      handler := Waiting;
      if cfg.barrier && barrierRound < cfg.maxRounds {
        barrierDone := barrierDone + 1;
        if barrierDone == CountAbove(cfg.totals, barrierRound) {
          handler := Releasing(0);
        }
      }
    }

    method HandlerRelease()
      requires Valid() && handler.Releasing? && handler.next <= |held|
      modifies this`handler, this`held, this`barrierRound, this`barrierDone, this`phase, readyQueue
      ensures Valid()
      ensures Now() == Apply(cfg, old(Now()), if old(handler).next < |old(held)| then Release else FinishRelease)
    {
      if handler.next < |held| {
        HandlerReleaseNext();
      } else {
        HandlerEndRelease();
      }
    }

    method HandlerReleaseNext()
      requires Valid() && handler.Releasing? && handler.next < |held|
      modifies this`handler, this`phase, readyQueue
      ensures Valid()
      ensures Now() == Apply(cfg, old(Now()), Release)
    {
      ReleaseNext();
      ReachableStep(cfg, old(Now()), Release);
    }

    method HandlerEndRelease()
      requires Valid() && handler.Releasing? && handler.next == |held|
      modifies this`handler, this`held, this`barrierRound, this`barrierDone
      ensures Valid()
      ensures Now() == Apply(cfg, old(Now()), FinishRelease)
    {
      EndRelease();
      ReachableStep(cfg, old(Now()), FinishRelease);
    }

    method EndRelease()
      modifies this`handler, this`held, this`barrierRound, this`barrierDone
      ensures handler == Waiting && held == [] && barrierRound == old(barrierRound) + 1 && barrierDone == 0
    {
      held := [];
      barrierRound := barrierRound + 1;
      barrierDone := 0;
      handler := Waiting;
    }

    method ReleaseNext()
      requires handler.Releasing? && handler.next < |held|
      modifies this`handler, this`phase, readyQueue
      ensures var r := held[old(handler).next];
              && handler == Releasing(old(handler).next + 1) && readyQueue.requests == old(readyQueue.requests) + [r]
              && phase == Move(old(phase), r.client, AtReady)
    {
      var next := handler.next;
      readyQueue.Append(held[next]);
      handler := Releasing(next + 1);
      phase := Move(phase, held[next].client, AtReady);
    }
  }
}
