/**
The serving benchmark in the form it is written: a conversation object whose
fields are changed by each turn, and a run that owns the queue
(benchmark/hicache/bench_serving.py).
 */
module ServingRun {
  import opened Wrappers
  import opened Indices
  import opened Serving

  class RequestFuncInput {
    var prompts: seq<Turn>
    var prevMessages: seq<Message>
    var finishedPrompts: nat

    ghost function Now(): Conversation
      reads this
    {
      Conversation(prompts, prevMessages, finishedPrompts)
    }

    constructor (prompts: seq<Turn>)
      ensures Now() == Conversation(prompts, [], 0)
    {
      this.prompts := prompts;
      this.prevMessages := [];
      this.finishedPrompts := 0;
    }

    /** Up to the request: the length of the whole prompt, and the new user message. */
    method BeginTurn() returns (promptLen: nat)
      requires finishedPrompts < |prompts|
      modifies this
      ensures promptLen == PromptLen(old(Now())) && Now() == StartTurn(old(Now()))
    {
      promptLen := 0;
      for i := 0 to finishedPrompts
        invariant promptLen == LengthBefore(prompts, i)
      {
        promptLen := promptLen + prompts[i].inputLen + prompts[i].outputLen;
      }
      promptLen := promptLen + prompts[finishedPrompts].inputLen;
      prevMessages := prevMessages + [Message("user", prompts[finishedPrompts].prompt)];
    }

    /** After a successful answer; the conversation goes back to the queue if it has another turn. */
    method EndTurn(text: string, actualOutputLen: nat) returns (again: bool)
      requires finishedPrompts < |prompts|
      modifies this
      ensures Now() == FinishTurn(old(Now()), text, actualOutputLen)
      ensures again <==> old(finishedPrompts) + 1 < |old(prompts)|
    {
      var k := finishedPrompts;
      prompts := prompts[k := prompts[k].(outputLen := actualOutputLen)];
      k := k + 1;
      prevMessages := prevMessages + [Message("assistant", text)];
      again := k < |prompts|;
      if again {
        finishedPrompts := k;
      }
    }
  }

  /** The conversations held by the first `n` objects. */
  ghost function Contents(inputs: seq<RequestFuncInput>, n: nat): (r: seq<Conversation>)
    requires n <= |inputs|
    reads inputs
    ensures |r| == n && forall i :: 0 <= i < n ==> r[i] == inputs[i].Now()
  {
    if n == 0 then [] else Contents(inputs, n - 1) + [inputs[n - 1].Now()]
  }

  /** The bounded queue and the request generator; conversations are named by their position. */
  class Benchmark {
    ghost const given: seq<seq<Turn>>
    const total: nat
    const capacity: nat
    const inputs: seq<RequestFuncInput>
    var queue: seq<nat>
    var yielded: nat
    ghost var phase: seq<Phase>
    ghost var issued: seq<seq<nat>>
    ghost var replied: seq<seq<Reply>>

    ghost function Now(): State
      reads this, inputs
    {
      State(Contents(inputs, |inputs|), queue, capacity, yielded, phase, issued, replied)
    }

    /** The objects are distinct, and the fields are a state that the protocol can reach. */
    ghost predicate Valid()
      reads this, inputs
    {
      NoRepeats(inputs) && Wf(given) && total == TotalTurns(given) && Reachable(given, Now())
    }

    constructor (requests: seq<seq<Turn>>)
      requires Wf(requests)
      ensures Valid() && Now() == Init(requests) && given == requests && fresh(inputs)
    {
      var n := |requests|;
      var made: seq<RequestFuncInput> := [];
      for i := 0 to n
        invariant |made| == i && NoRepeats(made) && fresh(made)
        invariant forall j :: 0 <= j < i ==> made[j].Now() == Conversation(requests[j], [], 0)
      {
        var input := new RequestFuncInput(requests[i]);
        assert input !in made;
        made := made + [input];
      }
      given := requests;
      total := TotalTurns(requests);
      capacity := n;
      inputs := made;
      queue := seq(n, i requires 0 <= i < n => i);
      yielded := 0;
      phase := seq(n, _ => InQueue);
      issued, replied := seq(n, _ => []), seq(n, _ => []);
      new;
      assert Now() == Init(requests);
      InitIsReachable(requests);
    }

    /** The next conversation, or none when the wait for one is given up or all turns are issued. */
    method GetRequest() returns (task: Option<nat>)
      requires Valid()
      modifies this`queue, this`yielded, this`phase
      ensures Valid()
      ensures task.Some? <==> Enabled(total, old(Now()), Yield)
      ensures if task.Some? then task.value == old(queue)[0] && Now() == Apply(total, old(Now()), Yield)
              else Now() == old(Now())
    {
      if queue == [] || yielded >= total {
        return None;
      }
      var c := queue[0];
      queue := queue[1..];
      yielded := yielded + 1;
      phase := if c < |phase| then phase[c := Taken] else phase;
      task := Some(c);
      ReachableStep(given, old(Now()), Yield);
    }

    /** Only the conversation of the task changes. */
    lemma OneChanged(c: nat, before: seq<Conversation>)
      requires NoRepeats(inputs) && c < |inputs| == |before|
      requires forall i :: 0 <= i < |inputs| && i != c ==> inputs[i].Now() == before[i]
      ensures Contents(inputs, |inputs|) == before[c := inputs[c].Now()]
    {
    }

    method StartTask(c: nat)
      requires Valid() && Enabled(total, Now(), Start(c))
      modifies this`phase, this`issued, inputs[c]
      ensures Valid()
      ensures Now() == Apply(total, old(Now()), Start(c))
    {
      ghost var before := Contents(inputs, |inputs|);
      if inputs[c].finishedPrompts >= |inputs[c].prompts| {
        phase := phase[c := Lost];
      } else {
        var promptLen := inputs[c].BeginTurn();
        OneChanged(c, before);
        issued := issued[c := issued[c] + [promptLen]];
        phase := phase[c := Running];
      }
      ReachableStep(given, old(Now()), Start(c));
    }

    /** A successful answer: the conversation ends or goes back to the queue, which always has room. */
    method FinishTask(c: nat, text: string, outputLen: nat)
      requires Valid() && Enabled(total, Now(), Succeed(c, text, outputLen))
      modifies this`phase, this`queue, this`replied, inputs[c]
      ensures Valid()
      ensures Now() == Apply(total, old(Now()), Succeed(c, text, outputLen))
      ensures c < |phase| && phase[c] != Blocked
    {
      ghost var before := Contents(inputs, |inputs|);
      var again := inputs[c].EndTurn(text, outputLen);
      OneChanged(c, before);
      replied := replied[c := replied[c] + [Reply(text, outputLen)]];
      PutBack(c, again);
      NeverBlocks(given, old(Now()), Succeed(c, text, outputLen));
      ReachableStep(given, old(Now()), Succeed(c, text, outputLen));
    }

    method PutBack(c: nat, again: bool)
      requires c < |phase|
      modifies this`phase, this`queue
      ensures queue == if again && |old(queue)| < capacity then old(queue) + [c] else old(queue)
      ensures phase == old(phase)[c := if !again then Over else if |old(queue)| < capacity then InQueue else Blocked]
    {
      if !again {
        phase := phase[c := Over];
      } else if |queue| < capacity {
        queue := queue + [c];
        phase := phase[c := InQueue];
      } else {
        phase := phase[c := Blocked];
      }
    }

    /** A failed request: its conversation is not put back. */
    method FailTask(c: nat)
      requires Valid() && Enabled(total, Now(), Fail(c))
      modifies this`phase
      ensures Valid() && Now() == Apply(total, old(Now()), Fail(c))
      ensures c !in queue
    {
      phase := phase[c := Lost];
      ReachableStep(given, old(Now()), Fail(c));
      ReachableQueue(given, Now());
    }
  }

  lemma ReachableQueue(given: seq<seq<Turn>>, s: State)
    requires Wf(given) && Reachable(given, s)
    ensures QueueOk(s)
  {
    var steps :| Run(TotalTurns(given), Init(given), steps, s);
    InvInit(given);
    InvRun(given, TotalTurns(given), Init(given), steps, s);
  }

  lemma NeverBlocks(given: seq<seq<Turn>>, s: State, step: Step)
    requires Wf(given) && Reachable(given, s) && Enabled(TotalTurns(given), s, step) && step.Succeed?
    ensures !Apply(TotalTurns(given), s, step).phase[step.task].Blocked?
  {
    ReachableQueue(given, s);
    QueueStep(TotalTurns(given), s, step);
  }
}
