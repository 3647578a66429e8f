/**
The multi-turn serving benchmark: a bounded queue of conversations, from which
one turn at a time is issued; a finished turn puts its own conversation back
(benchmark/hicache/bench_serving.py).
 */
module Serving {
  import opened Indices
  import opened Tallies

  /** (prompt, input_len, output_len); the last becomes the actual length once answered. */
  datatype Turn = Turn(prompt: string, inputLen: nat, outputLen: nat)

  datatype Message = Message(role: string, content: string)

  /** `RequestFuncInput`. */
  datatype Conversation = Conversation(prompts: seq<Turn>, messages: seq<Message>, finished: nat)

  /** Where a conversation is; an auxiliary variable, read by no step. */
  datatype Phase = InQueue | Taken | Running | Blocked | Over | Lost

  /** A successful answer, as it came in. */
  datatype Reply = Reply(text: string, outputLen: nat)

  datatype State = State(
    conversations: seq<Conversation>, queue: seq<nat>, capacity: nat, yielded: nat,
    // Observations: the phase of each conversation, the prompt lengths computed for its turns, and its answers.
    phase: seq<Phase>, issued: seq<seq<nat>>, replied: seq<seq<Reply>>)

  datatype Step =
    | Yield
    | Start(task: nat)
    | Succeed(task: nat, text: string, outputLen: nat)
    | Fail(task: nat)

  // ---- The run ----

  /** Every turn of a shared prefix becomes a conversation of its own. */
  function Flatten(requests: seq<seq<Turn>>): seq<seq<Turn>> {
    if requests == [] then [] else Singles(requests[0]) + Flatten(requests[1..])
  }

  function Singles(turns: seq<Turn>): (r: seq<seq<Turn>>)
    ensures |r| == |turns| && forall i :: 0 <= i < |r| ==> r[i] == [turns[i]]
  {
    seq(|turns|, i requires 0 <= i < |turns| => [turns[i]])
  }

  function Lengths(requests: seq<seq<Turn>>): (r: seq<nat>)
    ensures |r| == |requests| && forall i :: 0 <= i < |r| ==> r[i] == |requests[i]|
  {
    seq(|requests|, i requires 0 <= i < |requests| => |requests[i]|)
  }

  /** `num_actual_requests`. */
  function TotalTurns(requests: seq<seq<Turn>>): nat { Sum(Lengths(requests)) }

  function Init(requests: seq<seq<Turn>>): State {
    var n := |requests|;
    State(
      seq(n, i requires 0 <= i < n => Conversation(requests[i], [], 0)), seq(n, i requires 0 <= i < n => i), n, 0,
      seq(n, _ => InQueue), seq(n, _ => []), seq(n, _ => []))
  }

  predicate Enabled(total: nat, s: State, step: Step) {
    match step
    case Yield => s.queue != [] && s.yielded < total
    case Start(c) => c < |s.phase| && s.phase[c] == Taken && c < |s.conversations| && c < |s.issued|
    case Succeed(c, _, _) => c < |s.phase| && s.phase[c] == Running && c < |s.conversations| && c < |s.replied|
                             && s.conversations[c].finished < |s.conversations[c].prompts|
    case Fail(c) => c < |s.phase| && s.phase[c] == Running
  }

  /** Input lengths and (actual) output lengths of the turns before `k`. */
  function LengthBefore(turns: seq<Turn>, k: nat): nat
    requires k <= |turns|
  {
    if k == 0 then 0 else LengthBefore(turns, k - 1) + turns[k - 1].inputLen + turns[k - 1].outputLen
  }

  function PromptLen(conv: Conversation): nat
    requires conv.finished < |conv.prompts|
  {
    LengthBefore(conv.prompts, conv.finished) + conv.prompts[conv.finished].inputLen
  }

  function StartTurn(conv: Conversation): Conversation
    requires conv.finished < |conv.prompts|
  {
    conv.(messages := conv.messages + [Message("user", conv.prompts[conv.finished].prompt)])
  }

  /** `finished_prompts` only moves on if there is a next turn. */
  function FinishTurn(conv: Conversation, text: string, outputLen: nat): Conversation
    requires conv.finished < |conv.prompts|
  {
    var k := conv.finished;
    Conversation(
      conv.prompts[k := conv.prompts[k].(outputLen := outputLen)],
      conv.messages + [Message("assistant", text)],
      if k + 1 < |conv.prompts| then k + 1 else k)
  }

  function Apply(total: nat, s: State, step: Step): State
    requires Enabled(total, s, step)
  {
    match step
    case Yield =>
      s.(queue := s.queue[1..], yielded := s.yielded + 1,
         phase := if s.queue[0] < |s.phase| then s.phase[s.queue[0] := Taken] else s.phase)
    case Start(c) =>
      // an empty conversation has no turn to look up: the IndexError ends the coroutine
      if s.conversations[c].finished >= |s.conversations[c].prompts| then s.(phase := s.phase[c := Lost])
      else s.(conversations := s.conversations[c := StartTurn(s.conversations[c])],
              issued := s.issued[c := s.issued[c] + [PromptLen(s.conversations[c])]],
              phase := s.phase[c := Running])
    case Succeed(c, text, outputLen) => DoSucceed(s, c, text, outputLen)
    case Fail(c) => s.(phase := s.phase[c := Lost])
  }

  /** A `put` into a full queue would block its coroutine. */
  function DoSucceed(s: State, c: nat, text: string, outputLen: nat): State
    requires c < |s.phase| && c < |s.conversations| && c < |s.replied|
    requires s.conversations[c].finished < |s.conversations[c].prompts|
  {
    var conv := s.conversations[c];
    var s' := s.(conversations := s.conversations[c := FinishTurn(conv, text, outputLen)],
                 replied := s.replied[c := s.replied[c] + [Reply(text, outputLen)]]);
    if conv.finished + 1 >= |conv.prompts| then s'.(phase := s.phase[c := Over])
    else if |s.queue| < s.capacity then s'.(queue := s.queue + [c], phase := s.phase[c := InQueue])
    else s'.(phase := s.phase[c := Blocked])
  }

  ghost predicate Run(total: nat, s: State, steps: seq<Step>, t: State)
    decreases |steps|
  {
    if steps == [] then s == t
    else Enabled(total, s, steps[0]) && Run(total, Apply(total, s, steps[0]), steps[1..], t)
  }

  // ---- The queue ----

  ghost predicate QueueOk(s: State) {
    && NoRepeats(s.queue)
    && (forall c: nat :: c in s.queue <==> c < |s.phase| && s.phase[c] == InQueue)
    && s.capacity == |s.phase| && (forall c :: 0 <= c < |s.phase| ==> !s.phase[c].Blocked?)
  }

  /** A conversation that is held by a task leaves room for itself: the `put` never blocks. */
  lemma QueueStep(total: nat, s: State, step: Step)
    requires QueueOk(s) && Enabled(total, s, step)
    ensures QueueOk(Apply(total, s, step))
    ensures step.Succeed? ==> !Apply(total, s, step).phase[step.task].Blocked?
  {
    var t := Apply(total, s, step);
    match step
    case Yield =>
      assert forall c: nat :: c in t.queue <==> c in s.queue && c != s.queue[0];
    case Succeed(c, _, _) =>
      RoomForOne(s.queue, |s.phase|, c);
      assert t.queue == s.queue || t.queue == s.queue + [c];
    case _ =>
  }

  // ---- The conversations ----

  /** The questions as given and the answers as they came in, in turn. */
  ghost predicate Dialogue(messages: seq<Message>, given: seq<Turn>, replied: seq<Reply>) {
    && |messages| <= 2 * |given| && |replied| == |messages| / 2
    && forall i :: 0 <= i < |messages| ==>
         messages[i] == if i % 2 == 0 then Message("user", given[i / 2].prompt)
                        else Message("assistant", replied[i / 2].text)
  }

  /** How many messages, and how many issued turns, a conversation has in each phase. */
  function MessageCount(x: Phase, finished: nat): nat {
    match x
    case Running => 2 * finished + 1
    case Lost => 2 * finished + 1
    case Over => 2 * finished + 2
    case _ => 2 * finished
  }

  function IssuedCount(x: Phase, finished: nat): nat {
    if x.Running? || x.Lost? || x.Over? then finished + 1 else finished
  }

  /** What was asked and what was answered in the turns before `k`. */
  function TalkedBefore(given: seq<Turn>, replied: seq<Reply>, k: nat): nat
    requires k <= |given| && k <= |replied|
  {
    if k == 0 then 0 else TalkedBefore(given, replied, k - 1) + given[k - 1].inputLen + replied[k - 1].outputLen
  }

  /** Untouched turns are as given, and answered ones have the length of their answer. */
  ghost predicate TurnsOk(given: seq<Turn>, prompts: seq<Turn>, replied: seq<Reply>) {
    && |prompts| == |given| && |replied| <= |given|
    && forall i :: 0 <= i < |given| ==>
         prompts[i] == if i < |replied| then given[i].(outputLen := replied[i].outputLen) else given[i]
  }

  /** Each turn was issued with all that was said before it and its own question. */
  ghost predicate LengthsOk(given: seq<Turn>, issued: seq<nat>, replied: seq<Reply>) {
    && |issued| <= |given| && |issued| <= |replied| + 1
    && forall i :: 0 <= i < |issued| ==> LengthIs(given, replied, i, issued[i])
  }

  ghost predicate LengthIs(given: seq<Turn>, replied: seq<Reply>, i: nat, n: nat)
    requires i < |given| && i <= |replied|
  {
    n == TalkedBefore(given, replied, i) + given[i].inputLen
  }

  ghost predicate ConvOk(given: seq<Turn>, conv: Conversation, x: Phase, issued: seq<nat>, replied: seq<Reply>) {
    && conv.finished < |given| && (x.Over? ==> conv.finished + 1 == |given|)
    && TurnsOk(given, conv.prompts, replied)
    && Dialogue(conv.messages, given, replied) && |conv.messages| == MessageCount(x, conv.finished)
    && LengthsOk(given, issued, replied) && |issued| == IssuedCount(x, conv.finished)
  }

  lemma {:induction false} LengthIsTalked(given: seq<Turn>, prompts: seq<Turn>, replied: seq<Reply>, k: nat)
    requires TurnsOk(given, prompts, replied) && k <= |replied|
    ensures LengthBefore(prompts, k) == TalkedBefore(given, replied, k)
  {
    if k > 0 { LengthIsTalked(given, prompts, replied, k - 1); }
  }

  lemma {:induction false} TalkedStays(given: seq<Turn>, replied: seq<Reply>, r: Reply, k: nat)
    requires k <= |given| && k <= |replied|
    ensures TalkedBefore(given, replied + [r], k) == TalkedBefore(given, replied, k)
  {
    if k > 0 { TalkedStays(given, replied, r, k - 1); }
  }

  lemma StartOk(given: seq<Turn>, conv: Conversation, issued: seq<nat>, replied: seq<Reply>)
    requires ConvOk(given, conv, Taken, issued, replied)
    ensures ConvOk(given, StartTurn(conv), Running, issued + [PromptLen(conv)], replied)
  {
    PromptLenIs(given, conv, replied);
    LengthsNext(given, issued, replied, PromptLen(conv));
    AskedNext(conv.messages, given, replied, conv.finished);
  }

  lemma PromptLenIs(given: seq<Turn>, conv: Conversation, replied: seq<Reply>)
    requires TurnsOk(given, conv.prompts, replied) && conv.finished == |replied| < |given|
    ensures PromptLen(conv) == TalkedBefore(given, replied, |replied|) + given[|replied|].inputLen
  {
    LengthIsTalked(given, conv.prompts, replied, |replied|);
  }

  lemma LengthsNext(given: seq<Turn>, issued: seq<nat>, replied: seq<Reply>, n: nat)
    requires LengthsOk(given, issued, replied) && |issued| == |replied| < |given|
    requires n == TalkedBefore(given, replied, |replied|) + given[|replied|].inputLen
    ensures LengthsOk(given, issued + [n], replied)
  {
  }

  lemma AskedNext(messages: seq<Message>, given: seq<Turn>, replied: seq<Reply>, k: nat)
    requires Dialogue(messages, given, replied) && |messages| == 2 * k && k < |given|
    ensures Dialogue(messages + [Message("user", given[k].prompt)], given, replied)
  {
  }

  lemma FinishOk(given: seq<Turn>, conv: Conversation, issued: seq<nat>, replied: seq<Reply>, r: Reply)
    requires ConvOk(given, conv, Running, issued, replied)
    ensures ConvOk(given, FinishTurn(conv, r.text, r.outputLen),
                   if conv.finished + 1 < |given| then InQueue else Over, issued, replied + [r])
  {
    forall i | 0 <= i < |issued| ensures LengthIs(given, replied + [r], i, issued[i]) {
      TalkedStays(given, replied, r, i);
      assert LengthIs(given, replied, i, issued[i]);
    }
  }

  ghost predicate Shape(given: seq<seq<Turn>>, s: State) {
    |s.conversations| == |s.phase| == |s.issued| == |s.replied| == |given|
  }

  ghost predicate TalksOk(given: seq<seq<Turn>>, s: State)
    requires Shape(given, s)
  {
    forall c :: 0 <= c < |given| ==> ConvOk(given[c], s.conversations[c], s.phase[c], s.issued[c], s.replied[c])
  }

  function Taken1(x: Phase, finished: nat): nat { if x.InQueue? || x.Blocked? then finished else finished + 1 }

  function Takes(given: seq<seq<Turn>>, s: State): (r: seq<nat>)
    requires Shape(given, s)
    ensures |r| == |given| && forall c :: 0 <= c < |r| ==> r[c] == Taken1(s.phase[c], s.conversations[c].finished)
  {
    seq(|given|, c requires 0 <= c < |given| => Taken1(s.phase[c], s.conversations[c].finished))
  }

  ghost predicate Inv(given: seq<seq<Turn>>, s: State) {
    Shape(given, s) && QueueOk(s) && TalksOk(given, s) && s.yielded == Sum(Takes(given, s))
  }

  lemma TaskTalks(given: seq<Turn>, total: nat, s: State, step: Step)
    requires Enabled(total, s, step) && !step.Yield? && step.task < |s.conversations|
    requires step.task < |s.issued| && step.task < |s.replied|
    requires ConvOk(given, s.conversations[step.task], s.phase[step.task], s.issued[step.task], s.replied[step.task])
    requires step.Succeed? ==> !Apply(total, s, step).phase[step.task].Blocked?
    ensures var t := Apply(total, s, step);
            ConvOk(given, t.conversations[step.task], t.phase[step.task], t.issued[step.task], t.replied[step.task])
  {
    var c := step.task;
    match step {
      case Start(_) => StartOk(given, s.conversations[c], s.issued[c], s.replied[c]);
      case Succeed(_, text, outputLen) =>
        FinishOk(given, s.conversations[c], s.issued[c], s.replied[c], Reply(text, outputLen));
      case Fail(_) =>
    }
  }

  lemma TalksStep(given: seq<seq<Turn>>, total: nat, s: State, step: Step)
    requires Inv(given, s) && Enabled(total, s, step)
    ensures Shape(given, Apply(total, s, step)) && TalksOk(given, Apply(total, s, step))
  {
    var t := Apply(total, s, step);
    FirstIsMember(s.queue);
    var c := if step.Yield? then s.queue[0] else step.task;
    assert ConvOk(given[c], s.conversations[c], s.phase[c], s.issued[c], s.replied[c]);
    if !step.Yield? {
      QueueStep(total, s, step);
      TaskTalks(given[c], total, s, step);
    }
    TalksFrame(given, s, t, c);
  }

  lemma TalksFrame(given: seq<seq<Turn>>, s: State, t: State, c: nat)
    requires Shape(given, s) && TalksOk(given, s) && Shape(given, t) && c < |given|
    requires forall d :: 0 <= d < |given| && d != c ==>
               t.conversations[d] == s.conversations[d] && t.phase[d] == s.phase[d]
               && t.issued[d] == s.issued[d] && t.replied[d] == s.replied[d]
    requires ConvOk(given[c], t.conversations[c], t.phase[c], t.issued[c], t.replied[c])
    ensures TalksOk(given, t)
  {
  }

  lemma YieldTakes(given: seq<seq<Turn>>, total: nat, s: State)
    requires Shape(given, s) && QueueOk(s) && s.yielded == Sum(Takes(given, s)) && Enabled(total, s, Yield)
    ensures Shape(given, Apply(total, s, Yield))
    ensures Apply(total, s, Yield).yielded == Sum(Takes(given, Apply(total, s, Yield)))
  {
    var c, t := s.queue[0], Apply(total, s, Yield);
    FirstIsMember(s.queue);
    assert Takes(given, t) == Takes(given, s)[c := Takes(given, s)[c] + 1];
    SumUpdate(Takes(given, s), c, Takes(given, s)[c] + 1);
  }

  /** A task's own steps take no conversation: what it has taken is counted already. */
  lemma TaskTakes(given: seq<seq<Turn>>, total: nat, s: State, step: Step)
    requires Shape(given, s) && Enabled(total, s, step) && !step.Yield? && step.task < |given|
    requires s.conversations[step.task].finished < |s.conversations[step.task].prompts|
    requires step.Succeed? ==> !Apply(total, s, step).phase[step.task].Blocked?
    ensures Shape(given, Apply(total, s, step)) && Takes(given, Apply(total, s, step)) == Takes(given, s)
  {
    var t, c := Apply(total, s, step), step.task;
    assert Taken1(t.phase[c], t.conversations[c].finished) == Taken1(s.phase[c], s.conversations[c].finished);
  }

  lemma TakesStep(given: seq<seq<Turn>>, total: nat, s: State, step: Step)
    requires Inv(given, s) && Enabled(total, s, step)
    requires Shape(given, Apply(total, s, step))
    ensures Apply(total, s, step).yielded == Sum(Takes(given, Apply(total, s, step)))
  {
    if step.Yield? {
      YieldTakes(given, total, s);
    } else {
      QueueStep(total, s, step);
      assert ConvOk(given[step.task], s.conversations[step.task], s.phase[step.task], s.issued[step.task], s.replied[step.task]);
      TaskTakes(given, total, s, step);
    }
  }

  lemma InvStep(given: seq<seq<Turn>>, total: nat, s: State, step: Step)
    requires Inv(given, s) && Enabled(total, s, step)
    ensures Inv(given, Apply(total, s, step))
  {
    QueueStep(total, s, step);
    TalksStep(given, total, s, step);
    TakesStep(given, total, s, step);
  }

  lemma InvInit(given: seq<seq<Turn>>)
    requires forall c :: 0 <= c < |given| ==> given[c] != []
    ensures Inv(given, Init(given))
  {
    var s := Init(given);
    forall c: nat ensures c in s.queue <==> c < |s.phase| {
      if c < |s.phase| { assert s.queue[c] == c; }
    }
    ZeroTallies(Takes(given, s), 0);
  }

  lemma {:induction false} InvRun(given: seq<seq<Turn>>, total: nat, s: State, steps: seq<Step>, t: State)
    requires Inv(given, s) && Run(total, s, steps, t)
    ensures Inv(given, t)
    decreases |steps|
  {
    if steps != [] {
      InvStep(given, total, s, steps[0]);
      InvRun(given, total, Apply(total, s, steps[0]), steps[1..], t);
    }
  }

  lemma {:induction false} RunAppend(total: nat, s: State, steps: seq<Step>, t: State, step: Step)
    requires Run(total, s, steps, t) && Enabled(total, t, step)
    ensures Run(total, s, steps + [step], Apply(total, t, step))
    decreases |steps|
  {
    if steps == [] {
      assert Run(total, Apply(total, t, step), [step][1..], Apply(total, t, step));
      assert steps + [step] == [step];
    } else {
      RunAppend(total, Apply(total, s, steps[0]), steps[1..], t, step);
      assert (steps + [step])[1..] == steps[1..] + [step];
    }
  }

  function Yields(steps: seq<Step>): nat {
    if steps == [] then 0 else (if steps[0].Yield? then 1 else 0) + Yields(steps[1..])
  }

  /** First come, first served: a waiting conversation moves up by one with every request taken, and otherwise stays. */
  lemma {:induction false} QueueMovesUp(total: nat, s: State, steps: seq<Step>, t: State, k: nat)
    requires Run(total, s, steps, t) && Yields(steps) <= k < |s.queue|
    ensures k - Yields(steps) < |t.queue| && t.queue[k - Yields(steps)] == s.queue[k]
    decreases |steps|
  {
    if steps != [] {
      var next := Apply(total, s, steps[0]);
      QueueMovesUp(total, next, steps[1..], t, if steps[0].Yield? then k - 1 else k);
    }
  }

  /** A state of some run over these conversations. */
  ghost predicate Reachable(given: seq<seq<Turn>>, s: State) {
    exists steps :: Run(TotalTurns(given), Init(given), steps, s)
  }

  lemma InitIsReachable(given: seq<seq<Turn>>)
    ensures Reachable(given, Init(given))
  {
    assert Run(TotalTurns(given), Init(given), [], Init(given));
  }

  lemma ReachableStep(given: seq<seq<Turn>>, s: State, step: Step)
    requires Reachable(given, s) && Enabled(TotalTurns(given), s, step)
    ensures Reachable(given, Apply(TotalTurns(given), s, step))
  {
    var steps :| Run(TotalTurns(given), Init(given), steps, s);
    RunAppend(TotalTurns(given), Init(given), steps, s, step);
  }

  /** Conversations as the filters produce them: none is empty. */
  ghost predicate Wf(given: seq<seq<Turn>>) { forall c :: 0 <= c < |given| ==> given[c] != [] }

  /**
  In every run, failures included: a conversation is queued at most once and never while a
  task holds it, and no `put` finds the queue full. Its turns are issued once each, in order,
  with the lengths of the earlier questions and of the answers that came in; its messages are
  those questions and those answers.
   */
  lemma RequeueIsSafe(given: seq<seq<Turn>>, steps: seq<Step>, s: State, c: nat)
    requires Wf(given) && Run(TotalTurns(given), Init(given), steps, s) && c < |given|
    ensures Shape(given, s) && NoRepeats(s.queue) && (c in s.queue <==> s.phase[c] == InQueue)
    ensures !s.phase[c].Blocked? && |s.queue| <= s.capacity
    ensures |s.issued[c]| <= |given[c]| && |s.issued[c]| <= |s.replied[c]| + 1 <= |s.issued[c]| + 1
    ensures forall i :: 0 <= i < |s.issued[c]| ==>
      s.issued[c][i] == TalkedBefore(given[c], s.replied[c], i) + given[c][i].inputLen
    ensures var messages := s.conversations[c].messages;
            && |messages| == |s.issued[c]| + |s.replied[c]|
            && (forall i :: 0 <= i < |s.issued[c]| ==> messages[2 * i] == Message("user", given[c][i].prompt))
            && (forall i :: 0 <= i < |s.replied[c]| ==> messages[2 * i + 1] == Message("assistant", s.replied[c][i].text))
  {
    InvInit(given);
    InvRun(given, TotalTurns(given), Init(given), steps, s);
    DistinctSize(s.queue);
    SubsetSize(Members(s.queue), Upto(|s.phase|));
    TalkIs(given[c], s.conversations[c], s.phase[c], s.issued[c], s.replied[c]);
  }

  lemma TalkIs(given: seq<Turn>, conv: Conversation, x: Phase, issued: seq<nat>, replied: seq<Reply>)
    requires ConvOk(given, conv, x, issued, replied)
    ensures |issued| <= |given| && |issued| <= |replied| + 1 <= |issued| + 1
    ensures |conv.messages| == |issued| + |replied|
    ensures forall i :: 0 <= i < |issued| ==> conv.messages[2 * i] == Message("user", given[i].prompt)
    ensures forall i :: 0 <= i < |replied| ==> conv.messages[2 * i + 1] == Message("assistant", replied[i].text)
  {
    forall i | 0 <= i < |issued| ensures conv.messages[2 * i] == Message("user", given[i].prompt) {
      assert (2 * i) % 2 == 0 && (2 * i) / 2 == i;
    }
    forall i | 0 <= i < |replied| ensures conv.messages[2 * i + 1] == Message("assistant", replied[i].text) {
      assert (2 * i + 1) % 2 == 1 && (2 * i + 1) / 2 == i;
    }
  }

  ghost predicate FailureFree(steps: seq<Step>) { forall i :: 0 <= i < |steps| ==> !steps[i].Fail? }

  lemma NothingLostStep(given: seq<seq<Turn>>, total: nat, s: State, step: Step)
    requires Inv(given, s) && Enabled(total, s, step) && !step.Fail?
    requires forall c :: 0 <= c < |s.phase| ==> !s.phase[c].Lost?
    ensures var t := Apply(total, s, step); forall c :: 0 <= c < |t.phase| ==> !t.phase[c].Lost?
  {
    if step.Start? {
      assert ConvOk(given[step.task], s.conversations[step.task], s.phase[step.task], s.issued[step.task], s.replied[step.task]);
    }
  }

  lemma {:induction false} NothingLost(given: seq<seq<Turn>>, total: nat, s: State, steps: seq<Step>, t: State)
    requires Inv(given, s) && Run(total, s, steps, t) && FailureFree(steps)
    requires forall c :: 0 <= c < |s.phase| ==> !s.phase[c].Lost?
    ensures forall c :: 0 <= c < |t.phase| ==> !t.phase[c].Lost?
    decreases |steps|
  {
    if steps != [] {
      InvStep(given, total, s, steps[0]);
      NothingLostStep(given, total, s, steps[0]);
      NothingLost(given, total, Apply(total, s, steps[0]), steps[1..], t);
    }
  }

  /** A task holds conversation `c`. */
  predicate InFlight(s: State, c: nat) { c < |s.phase| && (s.phase[c].Taken? || s.phase[c].Running?) }

  /**
  Without failures the generator never starves: an empty queue before the last
  request means that some turn is in flight, and when none is, exactly
  `num_actual_requests` turns have been issued and every conversation is over.
   */
  lemma NeverStarves(given: seq<seq<Turn>>, steps: seq<Step>, s: State)
    requires Wf(given) && FailureFree(steps) && Run(TotalTurns(given), Init(given), steps, s) && s.queue == []
    ensures s.yielded < TotalTurns(given) ==> exists c :: InFlight(s, c)
    ensures (forall c :: !InFlight(s, c)) ==>
              s.yielded == TotalTurns(given) && forall c :: 0 <= c < |s.phase| ==> s.phase[c] == Over
  {
    InvInit(given);
    InvRun(given, TotalTurns(given), Init(given), steps, s);
    NothingLost(given, TotalTurns(given), Init(given), steps, s);
    if forall c :: !InFlight(s, c) {
      forall c: nat | c < |s.phase| ensures s.phase[c] == Over && Takes(given, s)[c] == |given[c]| {
        assert c !in s.queue && !InFlight(s, c);
        assert ConvOk(given[c], s.conversations[c], s.phase[c], s.issued[c], s.replied[c]);
      }
      assert Takes(given, s) == Lengths(given);
    }
  }

  /** The number of turns that were issued, by conversation. */
  function TurnsIssued(s: State): (r: seq<nat>)
    ensures |r| == |s.issued| && forall c :: 0 <= c < |r| ==> r[c] == |s.issued[c]|
  {
    seq(|s.issued|, c requires 0 <= c < |s.issued| => |s.issued[c]|)
  }

  /**
  Failures included, once nothing is queued or in flight: the requests taken are the turns issued,
  and they are as many as planned if and only if no conversation was given up before its last turn.
   */
  lemma IdleIsCompleteIff(given: seq<seq<Turn>>, steps: seq<Step>, s: State)
    requires Wf(given) && Run(TotalTurns(given), Init(given), steps, s) && s.queue == [] && forall c :: !InFlight(s, c)
    ensures Shape(given, s) && s.yielded == Sum(TurnsIssued(s)) <= TotalTurns(given)
    ensures s.yielded == TotalTurns(given) <==> forall c :: 0 <= c < |given| ==> |s.issued[c]| == |given[c]|
    ensures forall c :: 0 <= c < |given| ==> |s.issued[c]| == |given[c]| || s.phase[c] == Lost
  {
    InvInit(given);
    InvRun(given, TotalTurns(given), Init(given), steps, s);
    forall c: nat | c < |given|
      ensures Takes(given, s)[c] == |s.issued[c]| <= |given[c]|
      ensures |s.issued[c]| == |given[c]| || s.phase[c] == Lost
    {
      assert c !in s.queue && !InFlight(s, c);
      assert ConvOk(given[c], s.conversations[c], s.phase[c], s.issued[c], s.replied[c]);
    }
    assert Takes(given, s) == TurnsIssued(s);
    SumMonotone(TurnsIssued(s), Lengths(given));
    if forall c :: 0 <= c < |given| ==> |s.issued[c]| == |given[c]| { assert TurnsIssued(s) == Lengths(given); }
  }

  /** No more requests are taken than were asked for, whatever the conversations are. */
  lemma {:induction false} YieldsAreLimited(total: nat, s: State, steps: seq<Step>, t: State)
    requires Run(total, s, steps, t) && s.yielded <= total
    ensures t.yielded <= total && t.yielded == s.yielded + Yields(steps)
    decreases |steps|
  {
    if steps != [] { YieldsAreLimited(total, Apply(total, s, steps[0]), steps[1..], t); }
  }

  /** Splitting shared prefixes into single turns keeps the number of requests. */
  lemma {:induction false} FlattenKeepsTotal(requests: seq<seq<Turn>>)
    ensures TotalTurns(Flatten(requests)) == TotalTurns(requests) == |Flatten(requests)|
    ensures Wf(Flatten(requests))
  {
    if requests != [] {
      FlattenKeepsTotal(requests[1..]);
      var first := Singles(requests[0]);
      SumOfOnes(Lengths(first));
      assert Lengths(first + Flatten(requests[1..])) == Lengths(first) + Lengths(Flatten(requests[1..]));
      SumConcat(Lengths(first), Lengths(Flatten(requests[1..])));
      assert Lengths(requests)[1..] == Lengths(requests[1..]);
    }
  }

  lemma {:induction false} SumOfOnes(xs: seq<nat>)
    requires forall i :: 0 <= i < |xs| ==> xs[i] == 1
    ensures Sum(xs) == |xs|
  {
    if xs != [] { SumOfOnes(xs[1..]); }
  }
}
