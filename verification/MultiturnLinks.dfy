/**
Every client is in at most one place: the phase of a client is the one queue or
thread that holds its request, in every interleaving of the two threads.
 */
module MultiturnLinks {
  import opened Indices
  import opened Multiturn

  // ---- Queues of distinct clients ----

  function Clients(q: seq<Request>): (r: seq<nat>)
    ensures |r| == |q| && forall i :: 0 <= i < |q| ==> r[i] == q[i].client
  {
    seq(|q|, i requires 0 <= i < |q| => q[i].client)
  }

  function Responders(q: seq<Response>): (r: seq<nat>)
    ensures |r| == |q| && forall i :: 0 <= i < |q| ==> r[i] == q[i].client
  {
    seq(|q|, i requires 0 <= i < |q| => q[i].client)
  }

  /** `q` lists the clients in phase `x`, each once. */
  ghost predicate Queued(phase: seq<Phase>, q: seq<nat>, x: Phase) {
    && NoRepeats(q)
    && (forall c: nat :: c in q <==> c < |phase| && phase[c] == x)
  }

  lemma QueuedAppend(phase: seq<Phase>, q: seq<nat>, x: Phase, c: nat)
    requires Queued(phase, q, x) && c < |phase| && phase[c] != x
    ensures Queued(phase[c := x], q + [c], x)
  {
    forall d: nat ensures d in q + [c] <==> d < |phase| && phase[c := x][d] == x {
      assert d in q + [c] <==> d in q || d == c;
    }
    assert forall a :: 0 <= a < |q| ==> q[a] in q;
  }

  lemma QueuedRemove(phase: seq<Phase>, q: seq<nat>, x: Phase, i: nat, to: Phase)
    requires Queued(phase, q, x) && i < |q| && to != x
    ensures q[i] < |phase| && phase[q[i]] == x && Queued(phase[q[i] := to], RemoveAt(q, i), x)
  {
    var c, q' := q[i], RemoveAt(q, i);
    assert c in q;
    assert forall a :: 0 <= a < |q'| ==> q'[a] == q[if a < i then a else a + 1];
    forall d: nat ensures d in q' <==> d < |phase| && phase[c := to][d] == x {
      RemovedMember(q, i, d);
    }
  }

  lemma RemovedMember(q: seq<nat>, i: nat, d: nat)
    requires NoRepeats(q) && i < |q|
    ensures d in RemoveAt(q, i) <==> d in q && d != q[i]
  {
    var q' := RemoveAt(q, i);
    assert forall a :: 0 <= a < |q'| ==> q'[a] == q[if a < i then a else a + 1];
    if d in q && d != q[i] {
      var k :| 0 <= k < |q| && q[k] == d;
      assert q'[if k < i then k else k - 1] == d;
    }
  }

  lemma QueuedOther(phase: seq<Phase>, q: seq<nat>, x: Phase, c: nat, to: Phase)
    requires Queued(phase, q, x) && c < |phase| && phase[c] != x && to != x
    ensures Queued(phase[c := to], q, x)
  {
  }

  // ---- Who holds what ----

  /** The held requests that are still to be released. */
  function Pending(s: State): seq<Request> {
    if s.handler.Releasing? && s.handler.next <= |s.held| then s.held[s.handler.next..] else s.held
  }

  function Holders(s: State, x: Phase): seq<nat> {
    match x
    case AtReady => Clients(s.ready)
    case AtPopped => if s.sender.Popped? then [s.sender.request.client] else []
    case AtFlight => Clients(s.flight)
    case AtReplied => Responders(s.responses)
    case AtGot => if s.handler.Got? then [s.handler.response.client] else []
    case AtCounted => if s.handler.Counted? then [s.handler.client] else []
    case AtHeld => Clients(Pending(s))
    case AtDone => []
    case AtFailed => []
  }

  predicate Settled(x: Phase) { x.AtDone? || x.AtFailed? }

  ghost predicate Links(s: State) {
    && (forall x: Phase :: !Settled(x) ==> Queued(s.phase, Holders(s, x), x))
    && (s.handler.Releasing? ==> s.handler.next <= |s.held|)
    && !s.handler.Crashed?
  }

  /** One client goes from phase `x` to phase `y`; the other places are untouched. */
  ghost predicate Moves(s: State, t: State, i: nat, x: Phase, y: Phase) {
    && x != y && !Settled(x)
    && i < |Holders(s, x)| && Holders(t, x) == RemoveAt(Holders(s, x), i)
    && (!Settled(y) ==> Holders(t, y) == Holders(s, y) + [Holders(s, x)[i]])
    && (forall z: Phase :: z != x && z != y && !Settled(z) ==> Holders(t, z) == Holders(s, z))
    && t.phase == Move(s.phase, Holders(s, x)[i], y)
  }

  lemma MovesKeepLinks(s: State, t: State, i: nat, x: Phase, y: Phase)
    requires Links(s) && Moves(s, t, i, x, y)
    requires (t.handler.Releasing? ==> t.handler.next <= |t.held|) && !t.handler.Crashed?
    ensures Links(t)
    ensures Holders(s, x)[i] < |s.phase| && s.phase[Holders(s, x)[i]] == x
  {
    var c := Holders(s, x)[i];
    assert Queued(s.phase, Holders(s, x), x);
    QueuedRemove(s.phase, Holders(s, x), x, i, y);
    forall z: Phase | !Settled(z) ensures Queued(t.phase, Holders(t, z), z) {
      assert Queued(s.phase, Holders(s, z), z);
      if z == y {
        QueuedAppend(s.phase, Holders(s, y), y, c);
      } else if z != x {
        QueuedOther(s.phase, Holders(s, z), z, c, y);
      }
    }
  }

  lemma ClientsRemove(q: seq<Request>, i: nat)
    requires i < |q|
    ensures Clients(RemoveAt(q, i)) == RemoveAt(Clients(q), i)
  {
  }

  lemma ClientsAppend(q: seq<Request>, r: Request)
    ensures Clients(q + [r]) == Clients(q) + [r.client]
  {
  }

  // ---- The steps as moves ----

  lemma PopMoves(s: State, i: nat)
    requires i < |s.ready| && s.sender == Checked
    ensures Moves(s, DoPop(s, i), i, AtReady, AtPopped)
  {
    ClientsRemove(s.ready, i);
  }

  lemma SendMoves(cfg: Config, s: State)
    requires s.sender.Popped?
    ensures Moves(s, DoSend(cfg, s), 0, AtPopped, AtFlight)
  {
    ClientsAppend(s.flight, s.sender.request);
  }

  lemma ReplyMoves(s: State, k: nat, success: bool, output: Output, counted: bool)
    requires k < |s.flight|
    ensures Moves(s, DoReply(s, k, success, output, counted), k, AtFlight, AtReplied)
  {
    var r := Response(s.flight[k].client, success, output);
    ClientsRemove(s.flight, k);
    assert Responders(s.responses + [r]) == Responders(s.responses) + [r.client];
  }

  lemma GetMoves(s: State)
    requires s.responses != [] && s.handler == Waiting
    ensures Moves(s, DoGet(s), 0, AtReplied, AtGot)
  {
    assert Responders(s.responses[1..]) == RemoveAt(Responders(s.responses), 0);
  }

  lemma CountFailureMoves(s: State)
    requires s.handler.Got?
    ensures Moves(s, DoCountFailure(s), 0, AtGot, AtFailed)
  {
  }

  lemma CountSuccessMoves(cfg: Config, s: State)
    requires s.handler.Got? && !DoCountSuccess(cfg, s).handler.Crashed?
    ensures Moves(s, DoCountSuccess(cfg, s), 0, AtGot, AtCounted)
  {
  }

  /** Where the handler puts a client whose success it has counted. */
  function AfterCount(cfg: Config, s: State): Phase
    requires s.handler.Counted? && s.handler.client < |s.records| && s.handler.client < |cfg.totals|
  {
    if s.records[s.handler.client].round >= cfg.totals[s.handler.client] then AtDone
    else if cfg.barrier then AtHeld else AtReady
  }

  lemma EnqueueReadyMoves(cfg: Config, s: State)
    requires s.handler.Counted? && !DoEnqueue(cfg, s).handler.Crashed? && !cfg.barrier
    requires s.handler.client < |s.records| && s.handler.client < |cfg.totals|
    requires s.records[s.handler.client].round < cfg.totals[s.handler.client]
    ensures Moves(s, DoEnqueue(cfg, s), 0, AtCounted, AfterCount(cfg, s))
  {
    ClientsAppend(s.ready, Request(s.handler.client, NextTurn(cfg, s).records[s.handler.client].history));
    assert Pending(DoEnqueue(cfg, s)) == s.held;
  }

  lemma EnqueueHeldMoves(cfg: Config, s: State)
    requires s.handler.Counted? && !DoEnqueue(cfg, s).handler.Crashed? && cfg.barrier
    requires s.handler.client < |s.records| && s.handler.client < |cfg.totals|
    requires s.records[s.handler.client].round < cfg.totals[s.handler.client]
    ensures Moves(s, DoEnqueue(cfg, s), 0, AtCounted, AfterCount(cfg, s))
  {
    var r := Request(s.handler.client, NextTurn(cfg, s).records[s.handler.client].history);
    ClientsAppend(s.held, r);
    assert Pending(DoEnqueue(cfg, s)) == s.held + [r];
  }

  lemma EnqueueMoves(cfg: Config, s: State)
    requires s.handler.Counted? && !DoEnqueue(cfg, s).handler.Crashed?
    ensures s.handler.client < |s.records| && s.handler.client < |cfg.totals|
    ensures Moves(s, DoEnqueue(cfg, s), 0, AtCounted, AfterCount(cfg, s))
  {
    if s.records[s.handler.client].round >= cfg.totals[s.handler.client] {
      assert Pending(DoEnqueue(cfg, s)) == s.held;
    } else if cfg.barrier {
      EnqueueHeldMoves(cfg, s);
    } else {
      EnqueueReadyMoves(cfg, s);
    }
  }

  lemma PendingDrop(held: seq<Request>, k: nat)
    requires k < |held|
    ensures held[k + 1..] == RemoveAt(held[k..], 0) && held[k..][0] == held[k]
  {
  }

  lemma ReleaseMoves(s: State)
    requires s.handler.Releasing? && s.handler.next < |s.held|
    ensures Moves(s, DoRelease(s), 0, AtHeld, AtReady)
  {
    var r := s.held[s.handler.next];
    ClientsAppend(s.ready, r);
    PendingDrop(s.held, s.handler.next);
    ClientsRemove(Pending(s), 0);
  }
}
