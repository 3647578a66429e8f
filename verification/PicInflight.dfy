/**
The in-flight counters of the segment cache, which are clamped at zero: when they
count what the requests hold, and by how much they miss it.
 */
module PicInflight {
  import opened PicCache
  import opened PicLedger

  const NONE := Counts(0, 0)

  // The parts of the prompt that a request was granted slots for.

  function CachedPart(r: Request, kv: bool): nat { Amount(r.misses, {Cached}, kv) }

  function LatePart(r: Request, kv: bool): nat { Amount(r.misses, {Query, Brief}, kv) }

  function StrandedPart(r: Request, kv: bool): nat { Amount(r.misses, {Stranded}, kv) }

  function WholePart(r: Request, kv: bool): nat { Amount(r.misses, ALL_KINDS, kv) }

  /**
  What request `r` adds to a counter, of KV slots or of state slots, if its cached
  segments leave the counter when they are registered (`early`) or when it finishes.
   */
  function Share(early: bool, r: Request, kv: bool): nat {
    if early then
      var first := if r.rounds == 0 then CachedPart(r, kv) else 0;
      var late := if r.stage == Running then LatePart(r, kv) else 0;
      first + late + StrandedPart(r, kv)
    else if r.stage == Running then WholePart(r, kv)
    else 0
  }

  function Total(early: bool, requests: seq<Request>, kv: bool): nat {
    if requests == [] then 0
    else Total(early, requests[..|requests| - 1], kv) + Share(early, requests[|requests| - 1], kv)
  }

  /** The prompt slots that requests hold, in either mode: neither in an entry nor given back. */
  function Claimed(requests: seq<Request>, kv: bool): nat { Total(true, requests, kv) }

  function Reading(c: Counts, kv: bool): nat { if kv then c.kv else c.states }

  /** The counter says exactly what the requests hold. */
  ghost predicate Exact(w: World, kv: bool) { Reading(w.cache.busy, kv) == Claimed(w.requests, kv) }

  lemma {:induction false} TotalUpdate(early: bool, requests: seq<Request>, i: nat, r: Request, kv: bool)
    requires i < |requests|
    ensures Total(early, requests[i := r], kv) + Share(early, requests[i], kv)
         == Total(early, requests, kv) + Share(early, r, kv)
    ensures Share(early, requests[i], kv) <= Total(early, requests, kv)
  {
    var n := |requests| - 1;
    if i < n {
      TotalUpdate(early, requests[..n], i, r, kv);
      assert requests[i := r][..n] == requests[..n][i := r];
    } else {
      assert requests[i := r][..n] == requests[..n];
    }
  }

  lemma TotalAppend(early: bool, requests: seq<Request>, r: Request, kv: bool)
    ensures Total(early, requests + [r], kv) == Total(early, requests, kv) + Share(early, r, kv)
  {
    assert (requests + [r])[..|requests|] == requests;
  }

  lemma {:induction false} AmountSplit(misses: seq<Miss>, kv: bool)
    ensures Amount(misses, ALL_KINDS, kv)
         == Amount(misses, {Cached}, kv) + Amount(misses, {Query, Brief}, kv) + Amount(misses, {Stranded}, kv)
  {
    if misses != [] { AmountSplit(misses[..|misses| - 1], kv); }
  }

  lemma {:induction false} NoneOfKindCounted(misses: seq<Miss>, kind: Kind, kv: bool)
    requires !HasKind(misses, kind)
    ensures Amount(misses, {kind}, kv) == 0
  {
    if misses != [] {
      FrontHasNone(misses, kind);
      NoneOfKindCounted(misses[..|misses| - 1], kind, kv);
    }
  }

  lemma FrontHasNone(misses: seq<Miss>, kind: Kind)
    requires misses != [] && !HasKind(misses, kind)
    ensures !HasKind(misses[..|misses| - 1], kind) && misses[|misses| - 1].kind != kind
  {
    var n := |misses| - 1;
    assert misses[n] in misses && forall m :: m in misses[..n] ==> m in misses;
  }

  // ---- The counters and the totals after each step ----

  lemma {:induction false} RegisterAllBusy(cfg: Config, c: Cache, refs: map<nat, nat>, misses: seq<Miss>, now: int)
    requires forall m :: m in misses && m.kind == Cached ==> m.state.Some?
    ensures RegisterAll(cfg, c, refs, misses, now).0.busy == c.busy
  {
    if misses != [] { RegisterAllBusy(cfg, c, refs, misses[..|misses| - 1], now); }
  }

  lemma {:induction false} DropAllBusy(c: Cache, victims: seq<Entry>)
    ensures DropAll(c, victims).busy == c.busy
  {
    if victims != [] { DropAllBusy(c, victims[..|victims| - 1]); }
  }

  function Clamped(n: int): nat { if n > 0 then n else 0 }

  lemma RegisterBusy(cfg: Config, w: World, i: nat, now: int, kv: bool)
    requires i < |w.requests| && Granted(w.requests[i].misses)
    ensures Reading(Registered(cfg, w, i, now).cache.busy, kv)
         == if cfg.transition then Clamped(Reading(w.cache.busy, kv) - CachedPart(w.requests[i], kv))
            else Reading(w.cache.busy, kv)
  {
    RegisterAllBusy(cfg, w.cache, w.requests[i].refs, w.requests[i].misses, now);
  }

  lemma RegisterTotal(cfg: Config, w: World, i: nat, now: int, early: bool, kv: bool)
    requires i < |w.requests| && Granted(w.requests[i].misses)
    ensures Total(early, w.requests, kv) == Total(early, Registered(cfg, w, i, now).requests, kv)
         + if early && w.requests[i].rounds == 0 then CachedPart(w.requests[i], kv) else 0
  {
    var v := Registered(cfg, w, i, now);
    assert v.requests == w.requests[i := v.requests[i]];
    TotalUpdate(early, w.requests, i, v.requests[i], kv);
  }

  lemma ReleaseBusy(cfg: Config, w: World, i: nat, kv: bool)
    requires i < |w.requests|
    ensures Reading(Released(cfg, w, i).cache.busy, kv)
         == Clamped(Reading(w.cache.busy, kv)
                    - Amount(w.requests[i].misses, if cfg.transition then {Query, Brief} else ALL_KINDS, kv))
  {
  }

  lemma ReleaseTotal(cfg: Config, w: World, i: nat, early: bool, kv: bool)
    requires i < |w.requests| && w.requests[i].stage == Running
    ensures Total(early, w.requests, kv) == Total(early, Released(cfg, w, i).requests, kv)
         + Amount(w.requests[i].misses, if early then {Query, Brief} else ALL_KINDS, kv)
  {
    var r := w.requests[i];
    TotalUpdate(early, w.requests, i, r.(stage := Finished), kv);
  }

  /** What finishing takes off a counter, and off the total. */
  function TakenOff(cfg: Config, r: Request, insert: bool, kv: bool): nat {
    if !cfg.transition then WholePart(r, kv) else LatePart(r, kv) + if insert then CachedPart(r, kv) else 0
  }

  function GivenUp(early: bool, r: Request, insert: bool, kv: bool): nat {
    if !early then WholePart(r, kv)
    else LatePart(r, kv) + if insert && r.rounds == 0 then CachedPart(r, kv) else 0
  }

  lemma FinishBusy(cfg: Config, w: World, i: nat, insert: bool, now: int, kv: bool)
    requires WellFormed(w) && Enabled(cfg, w, Finish(i, insert, now))
    ensures Reading(Apply(cfg, w, Finish(i, insert, now)).cache.busy, kv)
         == Clamped(Reading(w.cache.busy, kv) - TakenOff(cfg, w.requests[i], insert, kv))
  {
    if insert {
      var v := Registered(cfg, w, i, now);
      RegisterBusy(cfg, w, i, now, kv);
      ReleaseBusy(cfg, v, i, kv);
      assert v.requests[i].misses == w.requests[i].misses;
    } else {
      ReleaseBusy(cfg, w, i, kv);
    }
  }

  lemma FinishTotal(cfg: Config, w: World, i: nat, insert: bool, now: int, early: bool, kv: bool)
    requires WellFormed(w) && Enabled(cfg, w, Finish(i, insert, now))
    ensures Total(early, w.requests, kv)
         == Total(early, Apply(cfg, w, Finish(i, insert, now)).requests, kv)
            + GivenUp(early, w.requests[i], insert, kv)
  {
    if insert {
      RegisterTotal(cfg, w, i, now, early, kv);
      ReleaseTotal(cfg, Registered(cfg, w, i, now), i, early, kv);
    } else {
      ReleaseTotal(cfg, w, i, early, kv);
    }
  }

  /** The steps that register or finish nothing. */
  lemma OtherSteps(cfg: Config, w: World, step: Step, early: bool, kv: bool)
    requires Ordinary(w) && Enabled(cfg, w, step) && !step.Register? && !step.Finish?
    ensures Reading(Apply(cfg, w, step).cache.busy, kv) + Total(early, w.requests, kv)
         == Reading(w.cache.busy, kv) + Total(early, Apply(cfg, w, step).requests, kv)
  {
    var v := Apply(cfg, w, step);
    match step
    case Admit(prompt, now) => TotalAppend(early, w.requests, v.requests[|w.requests|], kv);
    case Alloc(i, misses, own) =>
      AmountSplit(misses, kv);
      TotalUpdate(early, w.requests, i, v.requests[i], kv);
    case Decode(i, slots) => TotalUpdate(early, w.requests, i, v.requests[i], kv);
    case Reclaim(needKv, needState) => DropAllBusy(w.cache, Victims(Candidates(w.cache), needKv, needState));
  }

  // ---- When a step keeps an exact counter exact ----

  /**
  There is nothing to hand over; or the mode takes it off the counter, and this is the
  first time or the counter is at zero; or the mode leaves it on the counter to the end,
  and this is not the first time.
   */
  ghost predicate RegisterKeeps(cfg: Config, r: Request, busy: nat, kv: bool) {
    CachedPart(r, kv) == 0 || if cfg.transition then r.rounds == 0 || busy == 0 else r.rounds > 0
  }

  /**
  The transition mode goes wrong where a second registration takes off what is no longer
  counted. The other mode takes off everything at the end: that is right if the segments
  were handed over just now and none is stranded.
   */
  ghost predicate FinishKeeps(cfg: Config, r: Request, insert: bool, busy: nat, kv: bool) {
    var cached, late := CachedPart(r, kv), LatePart(r, kv);
    var left := StrandedPart(r, kv);
    if cfg.transition then !insert || r.rounds == 0 || cached == 0 || busy == late
    else if insert && r.rounds == 0 then left == 0
    else cached + left == 0 || busy == late
  }

  ghost predicate StepKeeps(cfg: Config, w: World, step: Step, kv: bool)
    requires Enabled(cfg, w, step)
  {
    match step
    case Register(i, _) => RegisterKeeps(cfg, w.requests[i], Reading(w.cache.busy, kv), kv)
    case Finish(i, insert, _) => FinishKeeps(cfg, w.requests[i], insert, Reading(w.cache.busy, kv), kv)
    case _ => true
  }

  lemma RegisterCountsIff(cfg: Config, w: World, i: nat, now: int, kv: bool)
    requires Exact(w, kv) && i < |w.requests| && Granted(w.requests[i].misses)
    ensures Exact(Registered(cfg, w, i, now), kv)
       <==> RegisterKeeps(cfg, w.requests[i], Reading(w.cache.busy, kv), kv)
  {
    RegisterBusy(cfg, w, i, now, kv);
    RegisterTotal(cfg, w, i, now, true, kv);
  }

  lemma FinishArithmetic(cfg: Config, r: Request, insert: bool, busy: nat, kv: bool)
    requires Share(true, r, kv) <= busy && r.stage == Running
    ensures GivenUp(true, r, insert, kv) <= busy
    ensures Clamped(busy - TakenOff(cfg, r, insert, kv)) == busy - GivenUp(true, r, insert, kv)
       <==> FinishKeeps(cfg, r, insert, busy, kv)
  {
    AmountSplit(r.misses, kv);
  }

  lemma FinishCountsIff(cfg: Config, w: World, i: nat, insert: bool, now: int, kv: bool)
    requires Exact(w, kv) && WellFormed(w) && Enabled(cfg, w, Finish(i, insert, now))
    ensures Exact(Apply(cfg, w, Finish(i, insert, now)), kv) <==>
      FinishKeeps(cfg, w.requests[i], insert, Reading(w.cache.busy, kv), kv)
  {
    FinishBusy(cfg, w, i, insert, now, kv);
    FinishTotal(cfg, w, i, insert, now, true, kv);
    TotalUpdate(true, w.requests, i, w.requests[i], kv);
    FinishArithmetic(cfg, w.requests[i], insert, Reading(w.cache.busy, kv), kv);
  }

  /** Every step, in either mode: from an exact counter, it is exact afterwards if and only if the condition holds. */
  lemma StepCountsIff(cfg: Config, w: World, step: Step, kv: bool)
    requires Exact(w, kv) && Ordinary(w) && Enabled(cfg, w, step)
    ensures Exact(Apply(cfg, w, step), kv) <==> StepKeeps(cfg, w, step, kv)
  {
    if step.Register? {
      RegisterCountsIff(cfg, w, step.i, step.now, kv);
      assert Apply(cfg, w, step) == Registered(cfg, w, step.i, step.now);
    } else if step.Finish? {
      FinishCountsIff(cfg, w, step.i, step.insert, step.now, kv);
    } else {
      OtherSteps(cfg, w, step, true, kv);
    }
  }

  // ---- The mode that counts at the end: what its counters show in every run ----

  ghost predicate ShowsRunning(w: World, kv: bool) { Reading(w.cache.busy, kv) == Total(false, w.requests, kv) }

  lemma AdditionStep(cfg: Config, w: World, step: Step, kv: bool)
    requires !cfg.transition && ShowsRunning(w, kv) && Ordinary(w) && Enabled(cfg, w, step)
    ensures ShowsRunning(Apply(cfg, w, step), kv)
  {
    match step
    case Register(i, now) =>
      RegisterBusy(cfg, w, i, now, kv);
      RegisterTotal(cfg, w, i, now, false, kv);
    case Finish(i, insert, now) =>
      FinishBusy(cfg, w, i, insert, now, kv);
      FinishTotal(cfg, w, i, insert, now, false, kv);
    case _ => OtherSteps(cfg, w, step, false, kv);
  }

  /**
  In the mode without the transition operator a counter is, in every run, the prompt slots
  of the running requests, whether they are in entries by now or not.
   */
  lemma {:induction false} AdditionShowsRunning(cfg: Config, w: World, steps: seq<Step>, end: World, kv: bool)
    requires !cfg.transition && ShowsRunning(w, kv) && Ordinary(w) && Run(cfg, w, steps, end)
    ensures ShowsRunning(end, kv)
    decreases |steps|
  {
    if steps != [] {
      AdditionStep(cfg, w, steps[0], kv);
      OrdinaryStep(cfg, w, steps[0]);
      AdditionShowsRunning(cfg, Apply(cfg, w, steps[0]), steps[1..], end, kv);
    }
  }

  // ---- What was handed over more than once ----

  /** What a request has handed over more than once. */
  function Repeated(r: Request, kv: bool): nat {
    if r.rounds == 0 then 0 else Times(r.rounds - 1, CachedPart(r, kv))
  }

  function RepeatedBy(requests: seq<Request>, kv: bool): nat {
    if requests == [] then 0
    else RepeatedBy(requests[..|requests| - 1], kv) + Repeated(requests[|requests| - 1], kv)
  }

  lemma {:induction false} RepeatedUpdate(requests: seq<Request>, i: nat, r: Request, kv: bool)
    requires i < |requests|
    ensures RepeatedBy(requests[i := r], kv) + Repeated(requests[i], kv)
         == RepeatedBy(requests, kv) + Repeated(r, kv)
  {
    var n := |requests| - 1;
    if i < n {
      RepeatedUpdate(requests[..n], i, r, kv);
      assert requests[i := r][..n] == requests[..n][i := r];
    } else {
      assert requests[i := r][..n] == requests[..n];
    }
  }

  lemma RepeatedAppend(requests: seq<Request>, r: Request, kv: bool)
    ensures RepeatedBy(requests + [r], kv) == RepeatedBy(requests, kv) + Repeated(r, kv)
  {
    assert (requests + [r])[..|requests|] == requests;
  }

  lemma RegisterRepeats(cfg: Config, w: World, i: nat, now: int, kv: bool)
    requires i < |w.requests| && Granted(w.requests[i].misses)
    ensures RepeatedBy(Registered(cfg, w, i, now).requests, kv) == RepeatedBy(w.requests, kv)
         + if w.requests[i].rounds == 0 then 0 else CachedPart(w.requests[i], kv)
  {
    var v := Registered(cfg, w, i, now);
    assert v.requests == w.requests[i := v.requests[i]];
    RepeatedUpdate(w.requests, i, v.requests[i], kv);
    RepeatedAgain(w.requests[i], v.requests[i].refs, kv);
  }

  lemma RepeatedAgain(r: Request, refs: map<nat, nat>, kv: bool)
    ensures Repeated(r.(refs := refs, rounds := r.rounds + 1), kv)
         == Repeated(r, kv) + if r.rounds == 0 then 0 else CachedPart(r, kv)
  {
  }

  lemma OthersRepeatNothing(cfg: Config, w: World, step: Step, kv: bool)
    requires Ordinary(w) && Enabled(cfg, w, step) && !step.Register? && !step.Finish?
    ensures RepeatedBy(Apply(cfg, w, step).requests, kv) == RepeatedBy(w.requests, kv)
  {
    var v := Apply(cfg, w, step);
    match step
    case Admit(prompt, now) => RepeatedAppend(w.requests, v.requests[|w.requests|], kv);
    case Alloc(i, misses, own) => RepeatedUpdate(w.requests, i, v.requests[i], kv);
    case Decode(i, slots) => RepeatedUpdate(w.requests, i, v.requests[i], kv);
    case Reclaim(needKv, needState) =>
  }

  // ---- The transition mode: what its counters show in every run ----

  function Max(a: int, b: int): int { if a < b then b else a }

  /** What was handed over again, less what is held: how far below zero the counter would be without its clamp. */
  function Excess(requests: seq<Request>, kv: bool): int { RepeatedBy(requests, kv) - Claimed(requests, kv) }

  /** The largest excess of any state of the run. */
  ghost function Peak(cfg: Config, w: World, steps: seq<Step>, end: World, kv: bool): int
    requires Run(cfg, w, steps, end)
    decreases |steps|
  {
    if steps == [] then Excess(w.requests, kv)
    else Max(Excess(w.requests, kv), Peak(cfg, Apply(cfg, w, steps[0]), steps[1..], end, kv))
  }

  /** What the clamp has swallowed in the course of the run. */
  ghost function Hides(cfg: Config, w: World, steps: seq<Step>, end: World, kv: bool): nat
    requires Run(cfg, w, steps, end)
  {
    Max(0, Peak(cfg, w, steps, end, kv))
  }

  /** The counter without its clamp, and `h` swallowed so far. */
  ghost predicate Shows(w: World, h: nat, kv: bool) {
    h >= Excess(w.requests, kv) && Reading(w.cache.busy, kv) == h - Excess(w.requests, kv)
  }

  lemma RegisterShows(cfg: Config, w: World, i: nat, now: int, h: nat, kv: bool)
    requires cfg.transition && Shows(w, h, kv) && i < |w.requests| && Granted(w.requests[i].misses)
    ensures Shows(Registered(cfg, w, i, now), Max(h, Excess(Registered(cfg, w, i, now).requests, kv)), kv)
    ensures RepeatedBy(w.requests, kv) <= RepeatedBy(Registered(cfg, w, i, now).requests, kv)
    ensures Excess(w.requests, kv) <= Excess(Registered(cfg, w, i, now).requests, kv)
  {
    RegisterBusy(cfg, w, i, now, kv);
    RegisterTotal(cfg, w, i, now, true, kv);
    RegisterRepeats(cfg, w, i, now, kv);
  }

  lemma ReleaseShows(cfg: Config, w: World, i: nat, h: nat, kv: bool)
    requires cfg.transition && Shows(w, h, kv) && i < |w.requests| && w.requests[i].stage == Running
    ensures Shows(Released(cfg, w, i), Max(h, Excess(Released(cfg, w, i).requests, kv)), kv)
    ensures RepeatedBy(w.requests, kv) == RepeatedBy(Released(cfg, w, i).requests, kv)
    ensures Excess(w.requests, kv) <= Excess(Released(cfg, w, i).requests, kv)
  {
    ReleaseBusy(cfg, w, i, kv);
    ReleaseTotal(cfg, w, i, true, kv);
    RepeatedUpdate(w.requests, i, w.requests[i].(stage := Finished), kv);
  }

  lemma TransitionStep(cfg: Config, w: World, step: Step, h: nat, kv: bool)
    requires cfg.transition && Shows(w, h, kv) && Ordinary(w) && Enabled(cfg, w, step)
    ensures Shows(Apply(cfg, w, step), Max(h, Excess(Apply(cfg, w, step).requests, kv)), kv)
    ensures RepeatedBy(w.requests, kv) <= RepeatedBy(Apply(cfg, w, step).requests, kv)
  {
    match step
    case Register(i, now) => RegisterShows(cfg, w, i, now, h, kv);
    case Finish(i, insert, now) =>
      if insert {
        var v := Registered(cfg, w, i, now);
        RegisterShows(cfg, w, i, now, h, kv);
        ReleaseShows(cfg, v, i, Max(h, Excess(v.requests, kv)), kv);
      } else {
        ReleaseShows(cfg, w, i, h, kv);
      }
    case _ =>
      OtherSteps(cfg, w, step, true, kv);
      OthersRepeatNothing(cfg, w, step, kv);
  }

  lemma {:induction false} TransitionRun(cfg: Config, w: World, steps: seq<Step>, end: World, h: nat, kv: bool)
    requires cfg.transition && Shows(w, h, kv) && Ordinary(w) && Run(cfg, w, steps, end)
    ensures Shows(end, Max(h, Peak(cfg, w, steps, end, kv)), kv)
    ensures RepeatedBy(w.requests, kv) <= RepeatedBy(end.requests, kv)
    ensures Excess(end.requests, kv) <= Peak(cfg, w, steps, end, kv) <= RepeatedBy(end.requests, kv)
    decreases |steps|
  {
    if steps != [] {
      var v := Apply(cfg, w, steps[0]);
      TransitionStep(cfg, w, steps[0], h, kv);
      OrdinaryStep(cfg, w, steps[0]);
      TransitionRun(cfg, v, steps[1..], end, Max(h, Excess(v.requests, kv)), kv);
    }
  }

  /**
  In the transition mode a counter is, after every run and however often requests were
  registered: what is held, less what was handed over again, plus what the clamp has
  swallowed, which is the largest amount by which the latter two ever differed.
   */
  lemma TransitionCounterIs(cfg: Config, w: World, steps: seq<Step>, end: World, kv: bool)
    requires cfg.transition && w.requests == [] && w.cache.busy == NONE && Run(cfg, w, steps, end)
    ensures Reading(end.cache.busy, kv)
         == Claimed(end.requests, kv) - RepeatedBy(end.requests, kv) + Hides(cfg, w, steps, end, kv)
    ensures Excess(end.requests, kv) <= Hides(cfg, w, steps, end, kv) <= RepeatedBy(end.requests, kv)
  {
    TransitionRun(cfg, w, steps, end, 0, kv);
  }

  /** Registered at most once, or without anything to register. */
  ghost predicate Once(r: Request) { r.rounds <= 1 || !HasKind(r.misses, Cached) }

  lemma {:induction false} OnceRepeatsNothing(requests: seq<Request>, kv: bool)
    requires forall i :: 0 <= i < |requests| ==> Once(requests[i])
    ensures RepeatedBy(requests, kv) == 0
  {
    if requests != [] {
      var n := |requests| - 1;
      OnceRepeatsNothing(requests[..n], kv);
      if requests[n].rounds > 1 {
        NoneOfKindCounted(requests[n].misses, Cached, kv);
        TimesPositive(requests[n].rounds - 1, 0);
      }
    }
  }

  /** So nothing is swallowed in a run that registers no request twice. */
  lemma OnceHidesNothing(cfg: Config, w: World, steps: seq<Step>, end: World, kv: bool)
    requires cfg.transition && w.requests == [] && w.cache.busy == NONE && Run(cfg, w, steps, end)
    requires forall i :: 0 <= i < |end.requests| ==> Once(end.requests[i])
    ensures Hides(cfg, w, steps, end, kv) == 0
  {
    TransitionCounterIs(cfg, w, steps, end, kv);
    OnceRepeatsNothing(end.requests, kv);
  }

  // ---- After the requests have finished ----

  /** Finished, with everything handed over at least once and nothing stranded. */
  ghost predicate Through(r: Request) {
    r.stage == Finished && (r.rounds >= 1 || !HasKind(r.misses, Cached)) && !HasKind(r.misses, Stranded)
  }

  lemma {:induction false} ThroughClaimsNothing(early: bool, requests: seq<Request>, kv: bool)
    requires forall i :: 0 <= i < |requests| ==> Through(requests[i])
    ensures Total(early, requests, kv) == 0
  {
    if requests != [] {
      var n := |requests| - 1;
      ThroughClaimsNothing(early, requests[..n], kv);
      NoneOfKindCounted(requests[n].misses, Stranded, kv);
      if !HasKind(requests[n].misses, Cached) { NoneOfKindCounted(requests[n].misses, Cached, kv); }
    }
  }

  /**
  In either mode the counters are back at zero when all requests are through; in the
  transition mode what was handed over again is then exactly what the clamp has swallowed.
   */
  lemma ThroughCountsNothing(cfg: Config, w: World, steps: seq<Step>, end: World, kv: bool)
    requires w.requests == [] && w.cache.busy == NONE && Run(cfg, w, steps, end)
    requires forall i :: 0 <= i < |end.requests| ==> Through(end.requests[i])
    ensures Reading(end.cache.busy, kv) == 0
    ensures cfg.transition ==> Hides(cfg, w, steps, end, kv) == RepeatedBy(end.requests, kv)
  {
    ThroughClaimsNothing(cfg.transition, end.requests, kv);
    if cfg.transition {
      TransitionCounterIs(cfg, w, steps, end, kv);
    } else {
      AdditionShowsRunning(cfg, w, steps, end, kv);
    }
  }
}
