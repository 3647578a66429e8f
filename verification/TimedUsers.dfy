/**
The mixed-round workload: users with a drawn number of rounds, a queue ordered
by the time at which a user may continue, and per-round statistics
(`UserGenerator` of benchmark/hicache/bench_mix.py).
 */
module TimedUsers {
  import opened Indices
  import opened Tallies

  // ---- The timed queue ----

  datatype Entry = Entry(user: nat, start: real)

  ghost predicate InOrder(q: seq<Entry>) {
    forall i, j :: 0 <= i < j < |q| ==> q[i].start <= q[j].start
  }

  function InsertAt(q: seq<Entry>, k: nat, e: Entry): (r: seq<Entry>)
    requires k <= |q|
    ensures |r| == |q| + 1
    ensures forall i :: 0 <= i < |r| ==> r[i] == if i < k then q[i] else if i == k then e else q[i - 1]
  {
    q[..k] + [e] + q[k..]
  }

  /** The first entry that starts later, or the end of the queue: the variable `i` of `push`. */
  function Position(q: seq<Entry>, start: real, from: nat := 0): (k: nat)
    requires from <= |q|
    ensures from <= k <= |q|
    ensures forall i :: from <= i < k ==> q[i].start <= start
    ensures k < |q| ==> start < q[k].start
    decreases |q| - from
  {
    if from == |q| then from else if start < q[from].start then from else Position(q, start, from + 1)
  }

  /** The last index the scan looked at: the variable `idx` of `push`. */
  function LastLooked(q: seq<Entry>, start: real): (k: nat)
    requires q != []
    ensures k < |q|
  {
    var i := Position(q, start);
    if i < |q| then i else |q| - 1
  }

  function InsertAtPosition(q: seq<Entry>, e: Entry): seq<Entry> { InsertAt(q, Position(q, e.start), e) }

  /** The insertion as written uses the scan index, not the position it computed. */
  function InsertAsWritten(q: seq<Entry>, e: Entry): seq<Entry> {
    if q == [] then [e] else InsertAt(q, LastLooked(q, e.start), e)
  }

  lemma PositionKeepsOrder(q: seq<Entry>, e: Entry)
    requires InOrder(q)
    ensures InOrder(InsertAtPosition(q, e))
  {
    var k, r := Position(q, e.start), InsertAtPosition(q, e);
    forall i, j | 0 <= i < j < |r| ensures r[i].start <= r[j].start {
      assert k < |q| && j > k ==> q[k].start <= q[j - 1].start;
    }
  }

  /**
  As written, the order of the queue is kept exactly when the queue was empty
  or the new start is at most the last one.
   */
  lemma AsWrittenKeepsOrderIff(q: seq<Entry>, e: Entry)
    requires InOrder(q)
    ensures InOrder(InsertAsWritten(q, e)) <==> q == [] || e.start <= q[|q| - 1].start
  {
    if q != [] {
      var n, r := |q|, InsertAsWritten(q, e);
      if Position(q, e.start) < n {
        PositionKeepsOrder(q, e);
        assert q[Position(q, e.start)].start <= q[n - 1].start;
      } else {
        assert r[n - 1] == e && r[n] == q[n - 1];
        if e.start <= q[n - 1].start {
          forall i, j | 0 <= i < j < |r| ensures r[i].start <= r[j].start {
            assert i < n - 1 ==> r[i] == q[i];
          }
        }
      }
    }
  }

  /** Two users pushed in time order leave the later one at the head. */
  lemma AsWrittenReverses(a: Entry, b: Entry)
    requires a.start < b.start
    ensures InsertAsWritten(InsertAsWritten([], a), b) == [b, a]
  {
    assert Position([a], b.start, 1) == 1;
  }

  /** A push or a pop of the queue; a pop only looks at the head. */
  datatype QueueOp = PushOp(entry: Entry) | PopOp(now: real)

  function QueueRun(q: seq<Entry>, ops: seq<QueueOp>): seq<Entry>
    decreases |ops|
  {
    if ops == [] then q
    else
      var q' := match ops[0]
                case PushOp(e) => InsertAtPosition(q, e)
                case PopOp(now) => if q != [] && now > q[0].start then q[1..] else q;
      QueueRun(q', ops[1..])
  }

  /** With the computed position the queue stays ordered over every run, so the head is the earliest user. */
  lemma {:induction false} QueueRunKeepsOrder(q: seq<Entry>, ops: seq<QueueOp>)
    requires InOrder(q)
    ensures InOrder(QueueRun(q, ops))
    ensures forall e :: e in QueueRun(q, ops) ==> QueueRun(q, ops)[0].start <= e.start
    decreases |ops|
  {
    if ops != [] {
      match ops[0] {
        case PushOp(e) =>
          PositionKeepsOrder(q, e);
          QueueRunKeepsOrder(InsertAtPosition(q, e), ops[1..]);
        case PopOp(now) =>
          QueueRunKeepsOrder(if q != [] && now > q[0].start then q[1..] else q, ops[1..]);
      }
    }
  }

  // ---- Users and statistics ----

  datatype User = User(currentRound: nat, totalRounds: nat, prompt: string)

  datatype Place = InQueue | Out | Lost | Retired

  datatype Stat = Stat(tokens: int, count: int)

  datatype State = State(
    users: seq<User>, places: seq<Place>, queue: seq<Entry>,
    inputs: seq<Stat>, outputs: seq<Stat>, userStats: seq<nat>)

  datatype Step =
    | Gen(ratio: int, prompt: string, promptLen: nat)
    | Pop(now: real)
    | Push(user: nat, text: string, itl: nat, prompt: string, promptLen: nat, start: real)
    | Lose(user: nat)

  /** The 1-based index of the first cumulative ratio above the drawn value, or the last one. */
  function DrawRounds(cumulative: seq<int>, ratio: int, from: nat := 0): (k: nat)
    requires from <= |cumulative|
    ensures k <= |cumulative| && (|cumulative| > 0 ==> 1 <= k)
    ensures forall i :: from <= i < k - 1 ==> cumulative[i] <= ratio
    ensures k < |cumulative| ==> k > from && ratio < cumulative[k - 1]
    decreases |cumulative| - from
  {
    if from == |cumulative| then |cumulative|
    else if ratio >= cumulative[from] then DrawRounds(cumulative, ratio, from + 1)
    else from + 1
  }

  function Bump(stats: seq<Stat>, r: nat, tokens: int): (s: seq<Stat>)
    requires r < |stats|
    ensures |s| == |stats|
  {
    stats[r := Stat(stats[r].tokens + tokens, stats[r].count + 1)]
  }

  function Init(rounds: nat): State {
    State([], [], [], seq(rounds, _ => Stat(0, 0)), seq(rounds, _ => Stat(0, 0)), seq(rounds, _ => 0))
  }

  /** The guards of a run: `push` is called for a user that a response came back for. */
  predicate Enabled(s: State, step: Step) {
    match step
    case Gen(_, _, _) => true
    case Pop(now) => s.queue != [] && now > s.queue[0].start
    case Push(u, _, _, _, _, _) => u < |s.users| == |s.places| && s.places[u] == Out
    case Lose(u) => u < |s.users| == |s.places| && s.places[u] == Out
  }

  /** Every list index that the step uses exists. */
  predicate IndicesOk(s: State, step: Step) {
    match step
    case Gen(_, _, _) => |s.inputs| > 0 && |s.userStats| > 0
    case Pop(_) => s.queue != [] && s.queue[0].user < |s.places|
    case Push(u, _, _, _, _, _) =>
      u < |s.users| == |s.places| && s.users[u].currentRound < |s.outputs|
      && (s.users[u].currentRound + 1 < s.users[u].totalRounds ==> s.users[u].currentRound + 1 < |s.inputs|)
    case Lose(u) => u < |s.users| == |s.places|
  }

  function Apply(cumulative: seq<int>, s: State, step: Step): State
    requires IndicesOk(s, step) && |cumulative| == |s.userStats|
  {
    match step
    case Gen(ratio, prompt, promptLen) =>
      var rounds := DrawRounds(cumulative, ratio);
      s.(users := s.users + [User(0, rounds, prompt)], places := s.places + [Out],
         inputs := Bump(s.inputs, 0, promptLen), userStats := s.userStats[rounds - 1 := s.userStats[rounds - 1] + 1])
    case Pop(_) => s.(queue := s.queue[1..], places := s.places[s.queue[0].user := Out])
    case Push(u, text, itl, prompt, promptLen, start) =>
      var user := s.users[u].(currentRound := s.users[u].currentRound + 1);
      var s' := s.(outputs := Bump(s.outputs, s.users[u].currentRound, itl + 1));
      if user.currentRound >= user.totalRounds then s'.(users := s.users[u := user], places := s.places[u := Retired])
      else
        s'.(users := s.users[u := user.(prompt := user.prompt + text + prompt)],
            places := s.places[u := InQueue],
            inputs := Bump(s.inputs, user.currentRound, promptLen),
            queue := InsertAsWritten(s.queue, Entry(u, start)))
    case Lose(u) => s.(places := s.places[u := Lost])
  }

  // ---- Accounting ----

  /** The round an unfinished user is in; finished users are counted under `rounds`. */
  function RoundOf(user: User, rounds: nat): nat {
    if user.currentRound < user.totalRounds then user.currentRound else rounds
  }

  function RoundsOf(s: State): (r: seq<nat>)
    ensures |r| == |s.users| && forall u :: 0 <= u < |r| ==> r[u] == RoundOf(s.users[u], |s.inputs|)
  {
    seq(|s.users|, u requires 0 <= u < |s.users| => RoundOf(s.users[u], |s.inputs|))
  }

  function TotalsOf(s: State): (r: seq<nat>)
    ensures |r| == |s.users| && forall u :: 0 <= u < |r| ==> r[u] == s.users[u].totalRounds
  {
    seq(|s.users|, u requires 0 <= u < |s.users| => s.users[u].totalRounds)
  }

  /** Rounds are in range, and a user is retired exactly when its rounds are done. */
  ghost predicate UsersOk(s: State) {
    && |s.users| == |s.places|
    && (forall u :: 0 <= u < |s.users| ==>
          && 1 <= s.users[u].totalRounds <= |s.inputs| && s.users[u].currentRound <= s.users[u].totalRounds
          && (s.places[u] == Retired <==> s.users[u].currentRound == s.users[u].totalRounds))
    && (forall e :: e in s.queue ==> e.user < |s.users| && s.places[e.user] == InQueue)
    && (forall i, j :: 0 <= i < j < |s.queue| ==> s.queue[i].user != s.queue[j].user)
  }

  ghost predicate StatsOk(s: State) {
    && |s.inputs| == |s.outputs| == |s.userStats|
    && (forall r :: 0 <= r < |s.inputs| ==>
          s.inputs[r].count - s.outputs[r].count == CountEqual(RoundsOf(s), r))
    && (forall k :: 0 <= k < |s.userStats| ==> s.userStats[k] == CountEqual(TotalsOf(s), k + 1))
    && Sum(s.userStats) == |s.users|
  }

  /** There are as many ratios as rounds, which the loading of the configuration asserts. */
  ghost predicate Inv(cumulative: seq<int>, s: State) {
    |cumulative| >= 1 && |s.inputs| == |cumulative| && UsersOk(s) && StatsOk(s)
  }

  /** No round or user index is ever out of range. */
  lemma IndicesInRange(cumulative: seq<int>, s: State, step: Step)
    requires Inv(cumulative, s) && Enabled(s, step)
    ensures IndicesOk(s, step)
  {
    FirstIsMember(s.queue);
  }

  lemma InsertedEntries(q: seq<Entry>, e: Entry)
    ensures forall d :: d in InsertAsWritten(q, e) <==> d in q || d == e
    ensures (forall i, j :: 0 <= i < j < |q| ==> q[i].user != q[j].user) && (forall d :: d in q ==> d.user != e.user) ==>
              forall i, j :: 0 <= i < j < |q| + 1 ==> InsertAsWritten(q, e)[i].user != InsertAsWritten(q, e)[j].user
  {
    if q != [] {
      var k, r := LastLooked(q, e.start), InsertAsWritten(q, e);
      forall d ensures d in r <==> d in q || d == e {
        if d in q {
          var i :| 0 <= i < |q| && q[i] == d;
          assert r[if i < k then i else i + 1] == d;
        } else if d == e {
          assert r[k] == d;
        }
      }
    }
  }

  lemma GenUsers(cumulative: seq<int>, s: State, ratio: int, prompt: string, promptLen: nat)
    requires UsersOk(s) && |s.inputs| == |s.userStats| == |cumulative| >= 1
    ensures UsersOk(Apply(cumulative, s, Gen(ratio, prompt, promptLen)))
  {
  }

  lemma PopUsers(cumulative: seq<int>, s: State, now: real)
    requires UsersOk(s) && |s.userStats| == |cumulative| && IndicesOk(s, Pop(now))
    ensures UsersOk(Apply(cumulative, s, Pop(now)))
  {
    FirstIsMember(s.queue);
  }

  lemma PushUsers(cumulative: seq<int>, s: State, step: Step)
    requires UsersOk(s) && |s.userStats| == |cumulative| && step.Push? && Enabled(s, step) && IndicesOk(s, step)
    ensures UsersOk(Apply(cumulative, s, step))
  {
    InsertedEntries(s.queue, Entry(step.user, step.start));
  }

  lemma UsersStep(cumulative: seq<int>, s: State, step: Step)
    requires Inv(cumulative, s) && Enabled(s, step) && IndicesOk(s, step)
    ensures UsersOk(Apply(cumulative, s, step))
  {
    match step
    case Gen(ratio, prompt, promptLen) => GenUsers(cumulative, s, ratio, prompt, promptLen);
    case Pop(now) => PopUsers(cumulative, s, now);
    case Push(_, _, _, _, _, _) => PushUsers(cumulative, s, step);
    case Lose(_) =>
  }

  lemma GenStats(cumulative: seq<int>, s: State, ratio: int, prompt: string, promptLen: nat)
    requires Inv(cumulative, s)
    ensures StatsOk(Apply(cumulative, s, Gen(ratio, prompt, promptLen)))
  {
    var t, k := Apply(cumulative, s, Gen(ratio, prompt, promptLen)), DrawRounds(cumulative, ratio);
    assert RoundsOf(t) == RoundsOf(s) + [0] && TotalsOf(t) == TotalsOf(s) + [k];
    forall r | 0 <= r < |t.inputs| ensures t.inputs[r].count - t.outputs[r].count == CountEqual(RoundsOf(t), r) {
      CountEqualAppend(RoundsOf(s), 0, r);
    }
    forall j | 0 <= j < |t.userStats| ensures t.userStats[j] == CountEqual(TotalsOf(t), j + 1) {
      CountEqualAppend(TotalsOf(s), k, j + 1);
    }
    SumUpdate(s.userStats, k - 1, s.userStats[k - 1] + 1);
  }

  lemma PushStats(cumulative: seq<int>, s: State, step: Step)
    requires Inv(cumulative, s) && step.Push? && Enabled(s, step) && IndicesOk(s, step)
    ensures StatsOk(Apply(cumulative, s, step))
  {
    var t, u := Apply(cumulative, s, step), step.user;
    var next := RoundOf(t.users[u], |t.inputs|);
    assert RoundsOf(t) == RoundsOf(s)[u := next] && TotalsOf(t) == TotalsOf(s);
    forall r | 0 <= r < |t.inputs| ensures t.inputs[r].count - t.outputs[r].count == CountEqual(RoundsOf(t), r) {
      CountEqualUpdate(RoundsOf(s), u, next, r);
    }
  }

  lemma InvStep(cumulative: seq<int>, s: State, step: Step)
    requires Inv(cumulative, s) && Enabled(s, step)
    ensures IndicesOk(s, step) && Inv(cumulative, Apply(cumulative, s, step))
  {
    IndicesInRange(cumulative, s, step);
    UsersStep(cumulative, s, step);
    var t := Apply(cumulative, s, step);
    match step
    case Gen(ratio, prompt, promptLen) => GenStats(cumulative, s, ratio, prompt, promptLen);
    case Push(_, _, _, _, _, _) => PushStats(cumulative, s, step);
    case _ => assert RoundsOf(t) == RoundsOf(s) && TotalsOf(t) == TotalsOf(s);
  }

  lemma InvInit(cumulative: seq<int>)
    requires |cumulative| >= 1
    ensures Inv(cumulative, Init(|cumulative|))
  {
    ZeroTallies(Init(|cumulative|).userStats, 0);
  }

  ghost predicate Run(cumulative: seq<int>, s: State, steps: seq<Step>, t: State)
    requires |cumulative| == |s.userStats|
    decreases |steps|
  {
    if steps == [] then s == t
    else
      Enabled(s, steps[0]) && IndicesOk(s, steps[0])
      && Run(cumulative, Apply(cumulative, s, steps[0]), steps[1..], t)
  }

  lemma {:induction false} InvRun(cumulative: seq<int>, s: State, steps: seq<Step>, t: State)
    requires Inv(cumulative, s) && Run(cumulative, s, steps, t)
    ensures Inv(cumulative, t)
    decreases |steps|
  {
    if steps != [] {
      InvStep(cumulative, s, steps[0]);
      InvRun(cumulative, Apply(cumulative, s, steps[0]), steps[1..], t);
    }
  }

  /**
  Accounting in every run, lost responses included: for each round, the turns
  begun and not answered are the unfinished users now in that round; the users
  are tallied by their number of rounds, which is always in range.
   */
  lemma AccountsBalance(cumulative: seq<int>, steps: seq<Step>, t: State, r: nat)
    requires |cumulative| >= 1 && r < |cumulative| && Run(cumulative, Init(|cumulative|), steps, t)
    ensures |t.inputs| == |t.outputs| == |t.userStats| == |cumulative|
    ensures t.inputs[r].count - t.outputs[r].count == CountEqual(RoundsOf(t), r)
    ensures t.userStats[r] == CountEqual(TotalsOf(t), r + 1) && Sum(t.userStats) == |t.users|
    ensures forall u :: 0 <= u < |t.users| ==> 1 <= t.users[u].totalRounds <= |cumulative|
  {
    InvInit(cumulative);
    InvRun(cumulative, Init(|cumulative|), steps, t);
  }

  // ---- What the steps of a run add ----

  /** The user has another round after the one that is pushed. */
  predicate Continues(s: State, u: nat) {
    u < |s.users| && s.users[u].currentRound + 1 < s.users[u].totalRounds
  }

  /** The prompt tokens that a step adds to round `r`. */
  function InputOf(s: State, step: Step, r: nat): nat {
    match step
    case Gen(_, _, promptLen) => if r == 0 then promptLen else 0
    case Push(u, _, _, _, promptLen, _) =>
      if Continues(s, u) && s.users[u].currentRound + 1 == r then promptLen else 0
    case _ => 0
  }

  /** The generated tokens that a step adds to round `r`: one more than the latencies. */
  function OutputOf(s: State, step: Step, r: nat): nat {
    match step
    case Push(u, _, itl, _, _, _) => if u < |s.users| && s.users[u].currentRound == r then itl + 1 else 0
    case _ => 0
  }

  /** What a step adds to the prompt of user `u`: the first prompt, or an answer and the next prompt. */
  function TextOf(s: State, step: Step, u: nat): string {
    match step
    case Gen(_, prompt, _) => if u == |s.users| then prompt else ""
    case Push(v, text, _, prompt, _, _) => if v == u && Continues(s, u) then text + prompt else ""
    case _ => ""
  }

  function PromptOf(s: State, u: nat): string { if u < |s.users| then s.users[u].prompt else "" }

  lemma StepAdds(cumulative: seq<int>, s: State, step: Step, r: nat, u: nat)
    requires Inv(cumulative, s) && Enabled(s, step) && IndicesOk(s, step) && r < |cumulative|
    ensures var t := Apply(cumulative, s, step);
            && |t.inputs| == |t.outputs| == |cumulative|
            && t.inputs[r].tokens == s.inputs[r].tokens + InputOf(s, step, r)
            && t.outputs[r].tokens == s.outputs[r].tokens + OutputOf(s, step, r)
            && PromptOf(t, u) == PromptOf(s, u) + TextOf(s, step, u)
  {
  }

  ghost function InputsAlong(cumulative: seq<int>, s: State, steps: seq<Step>, t: State, r: nat): nat
    requires |cumulative| == |s.userStats| && Run(cumulative, s, steps, t)
    decreases |steps|
  {
    if steps == [] then 0
    else InputOf(s, steps[0], r) + InputsAlong(cumulative, Apply(cumulative, s, steps[0]), steps[1..], t, r)
  }

  ghost function OutputsAlong(cumulative: seq<int>, s: State, steps: seq<Step>, t: State, r: nat): nat
    requires |cumulative| == |s.userStats| && Run(cumulative, s, steps, t)
    decreases |steps|
  {
    if steps == [] then 0
    else OutputOf(s, steps[0], r) + OutputsAlong(cumulative, Apply(cumulative, s, steps[0]), steps[1..], t, r)
  }

  ghost function TextAlong(cumulative: seq<int>, s: State, steps: seq<Step>, t: State, u: nat): string
    requires |cumulative| == |s.userStats| && Run(cumulative, s, steps, t)
    decreases |steps|
  {
    if steps == [] then ""
    else TextOf(s, steps[0], u) + TextAlong(cumulative, Apply(cumulative, s, steps[0]), steps[1..], t, u)
  }

  lemma {:induction false} TokensAdd(cumulative: seq<int>, s: State, steps: seq<Step>, t: State, r: nat)
    requires Inv(cumulative, s) && Run(cumulative, s, steps, t) && r < |cumulative|
    ensures |t.inputs| == |t.outputs| == |cumulative|
    ensures t.inputs[r].tokens == s.inputs[r].tokens + InputsAlong(cumulative, s, steps, t, r)
    ensures t.outputs[r].tokens == s.outputs[r].tokens + OutputsAlong(cumulative, s, steps, t, r)
    decreases |steps|
  {
    if steps != [] {
      StepAdds(cumulative, s, steps[0], r, 0);
      InvStep(cumulative, s, steps[0]);
      TokensAdd(cumulative, Apply(cumulative, s, steps[0]), steps[1..], t, r);
    }
  }

  lemma {:induction false} TextAdds(cumulative: seq<int>, s: State, steps: seq<Step>, t: State, u: nat)
    requires Inv(cumulative, s) && Run(cumulative, s, steps, t)
    ensures PromptOf(t, u) == PromptOf(s, u) + TextAlong(cumulative, s, steps, t, u)
    decreases |steps|
  {
    if steps == [] {
      assert PromptOf(s, u) + "" == PromptOf(s, u);
    } else {
      var v := Apply(cumulative, s, steps[0]);
      StepAdds(cumulative, s, steps[0], 0, u);
      InvStep(cumulative, s, steps[0]);
      TextAdds(cumulative, v, steps[1..], t, u);
      Reassociate(PromptOf(s, u), TextOf(s, steps[0], u), TextAlong(cumulative, v, steps[1..], t, u));
    }
  }

  lemma Reassociate(a: string, b: string, c: string)
    ensures a + b + c == a + (b + c)
  {
  }

  /**
  In every run, lost responses included: the token statistics of a round are the tokens of the
  prompts sent and of the answers pushed in that round.
   */
  lemma TokensAreRecorded(cumulative: seq<int>, steps: seq<Step>, t: State, r: nat)
    requires |cumulative| >= 1 && r < |cumulative| && Run(cumulative, Init(|cumulative|), steps, t)
    ensures |t.inputs| == |t.outputs| == |cumulative|
    ensures t.inputs[r].tokens == InputsAlong(cumulative, Init(|cumulative|), steps, t, r)
    ensures t.outputs[r].tokens == OutputsAlong(cumulative, Init(|cumulative|), steps, t, r)
  {
    InvInit(cumulative);
    TokensAdd(cumulative, Init(|cumulative|), steps, t, r);
  }

  /** The prompt of a user is its first prompt and then, for each further round, the answer and the next prompt. */
  lemma PromptIsRecorded(cumulative: seq<int>, steps: seq<Step>, t: State, u: nat)
    requires |cumulative| >= 1 && Run(cumulative, Init(|cumulative|), steps, t) && u < |t.users|
    ensures t.users[u].prompt == TextAlong(cumulative, Init(|cumulative|), steps, t, u)
  {
    InvInit(cumulative);
    TextAdds(cumulative, Init(|cumulative|), steps, t, u);
    Blank(TextAlong(cumulative, Init(|cumulative|), steps, t, u));
  }

  lemma Blank(a: string)
    ensures "" + a == a
  {
  }

  // ---- The generator as written ----

  class UserGenerator {
    const cumulative: seq<int>
    var users: seq<User>
    var queue: seq<Entry>
    var inputs: seq<Stat>
    var outputs: seq<Stat>
    var userStats: seq<nat>
    ghost var places: seq<Place>

    ghost function Now(): State
      reads this
    {
      State(users, places, queue, inputs, outputs, userStats)
    }

    constructor (cumulative: seq<int>)
      ensures this.cumulative == cumulative && Now() == Init(|cumulative|)
    {
      this.cumulative := cumulative;
      users, queue := [], [];
      inputs := seq(|cumulative|, _ => Stat(0, 0));
      outputs := seq(|cumulative|, _ => Stat(0, 0));
      userStats := seq(|cumulative|, _ => 0);
      places := [];
    }

    /** The scan over the cumulative ratios. */
    method TotalRounds(ratio: int) returns (i: nat)
      ensures i == DrawRounds(cumulative, ratio)
    {
      i := |cumulative|;
      var idx := 0;
      while idx < |cumulative|
        invariant 0 <= idx <= |cumulative| && i == |cumulative|
        invariant DrawRounds(cumulative, ratio, idx) == DrawRounds(cumulative, ratio)
      {
        if ratio >= cumulative[idx] {
          idx := idx + 1;
          continue;
        }
        return idx + 1;
      }
    }

    method Gen(ratio: int, prompt: string, promptLen: nat) returns (user: nat)
      requires |cumulative| == |userStats| && IndicesOk(Now(), Step.Gen(ratio, prompt, promptLen))
      modifies this
      ensures Now() == Apply(cumulative, old(Now()), Step.Gen(ratio, prompt, promptLen))
      ensures user == |old(users)|
    {
      user := |users|;
      var rounds := TotalRounds(ratio);
      inputs := Bump(inputs, 0, promptLen);
      users := users + [User(0, rounds, prompt)];
      places := places + [Out];
      userStats := userStats[rounds - 1 := userStats[rounds - 1] + 1];
    }

    method Push(u: nat, text: string, itl: nat, prompt: string, promptLen: nat, start: real)
      requires |cumulative| == |userStats|
      requires IndicesOk(Now(), Step.Push(u, text, itl, prompt, promptLen, start))
      modifies this
      ensures Now() == Apply(cumulative, old(Now()), Step.Push(u, text, itl, prompt, promptLen, start))
    {
      outputs := Bump(outputs, users[u].currentRound, itl + 1);
      users := users[u := users[u].(currentRound := users[u].currentRound + 1)];
      if users[u].currentRound >= users[u].totalRounds {
        places := places[u := Retired];
        return;
      }
      inputs := Bump(inputs, users[u].currentRound, promptLen);
      users := users[u := users[u].(prompt := users[u].prompt + text + prompt)];
      places := places[u := InQueue];
      Enqueue(Entry(u, start));
    }

    /** The insertion loop: `i` is computed, `idx` is used. */
    method Enqueue(e: Entry)
      modifies this`queue
      ensures queue == InsertAsWritten(old(queue), e)
    {
      if |queue| == 0 {
        queue := [e];
        return;
      }
      var i, idx := |queue|, 0;
      while true
        invariant 0 <= idx < |queue| && i == |queue|
        invariant Position(queue, e.start, idx) == Position(queue, e.start)
        decreases |queue| - idx
      {
        if e.start < queue[idx].start {
          i := idx;
          break;
        }
        if idx + 1 == |queue| {
          break;
        }
        idx := idx + 1;
      }
      assert idx == LastLooked(queue, e.start);
      queue := queue[..idx] + [e] + queue[idx..];
    }

    /** A user whose time has come, or else a new one. */
    method Pop(now: real, ratio: int, prompt: string, promptLen: nat) returns (user: nat)
      requires |cumulative| == |userStats| && IndicesOk(Now(), Step.Gen(ratio, prompt, promptLen))
      requires queue != [] ==> queue[0].user < |places|
      modifies this
      ensures if old(queue) != [] && now > old(queue)[0].start
              then user == old(queue)[0].user && Now() == Apply(cumulative, old(Now()), Step.Pop(now))
              else Now() == Apply(cumulative, old(Now()), Step.Gen(ratio, prompt, promptLen))
    {
      if |queue| > 0 && now > queue[0].start {
        user := queue[0].user;
        queue := queue[1..];
        places := places[user := Out];
        return;
      }
      user := Gen(ratio, prompt, promptLen);
    }
  }
}
