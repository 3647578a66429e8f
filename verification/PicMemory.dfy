/**
The memory check of the scheduler for the segment cache: free slots, slots in entries
and in-flight counters are added up and compared with the size of each pool
(python/sglang/srt/managers/scheduler_components/invariant_checker.py). What the check
computes is given for every run, and so is when it raises the alarm.
 */
module PicMemory {
  import opened PicCache
  import opened PicLedger
  import opened PicInflight

  // ---- The number of slots of one pool ----

  ghost function OfKind(s: multiset<Slot>, kv: bool): (r: multiset<Slot>)
    ensures forall x :: r[x] == if x.Kv? == kv then s[x] else 0
    decreases |s|
  {
    if s == multiset{} then multiset{}
    else
      var x :| x in s;
      var rest := OfKind(s[x := 0], kv);
      if x.Kv? == kv then rest[x := s[x]] else rest
  }

  ghost function Size(s: multiset<Slot>, kv: bool): nat { |OfKind(s, kv)| }

  lemma SizePlus(a: multiset<Slot>, b: multiset<Slot>, kv: bool)
    ensures Size(a + b, kv) == Size(a, kv) + Size(b, kv)
  {
    assert OfKind(a + b, kv) == OfKind(a, kv) + OfKind(b, kv);
  }

  lemma SizeNone(kv: bool)
    ensures Size(multiset{}, kv) == 0
  {
  }

  lemma SizeSame(a: multiset<Slot>, b: multiset<Slot>, kv: bool)
    requires forall x :: a[x] == b[x]
    ensures Size(a, kv) == Size(b, kv)
  {
    assert a == b;
  }

  lemma SizeKv(slots: seq<Slot>, kv: bool)
    requires forall x :: x in slots ==> x.Kv?
    ensures Size(multiset(slots), kv) == if kv then |slots| else 0
  {
    var s := multiset(slots);
    forall x ensures OfKind(s, kv)[x] == if kv then s[x] else 0 {
      assert x in s ==> x in slots;
    }
    assert OfKind(s, kv) == if kv then s else multiset{};
  }

  lemma SizeState(x: Slot, kv: bool)
    requires x.State?
    ensures Size(multiset{x}, kv) == if kv then 0 else 1
  {
    assert OfKind(multiset{x}, kv) == if kv then multiset{} else multiset{x};
  }

  // ---- What the check computes ----

  /** `total_size` and the number of entries. */
  function InEntries(entries: seq<Entry>, kv: bool): nat {
    if entries == [] then 0
    else InEntries(entries[..|entries| - 1], kv) + if kv then |entries[|entries| - 1].kv| else 1
  }

  /** The slots of a pool that are free or in an entry. */
  ghost function Seen(c: Cache, kv: bool): nat { Size(c.free, kv) + InEntries(c.entries, kv) }

  /** The size of a pool less free slots, slots in entries and the in-flight counter. */
  ghost function Leak(total: nat, c: Cache, kv: bool): int { total - (Seen(c, kv) + Reading(c.busy, kv)) }

  /** Any KV slot, or more than three state slots, missing; before the run nothing was in flight. */
  ghost predicate Alarm(before: Cache, c: Cache) {
    Leak(Seen(before, true), c, true) > 0 || Leak(Seen(before, false), c, false) > 3
  }

  /** Nothing is in flight and nothing was lost yet. */
  ghost predicate Start(w: World) {
    w.requests == [] && TypedEntries(w.cache.entries) && w.cache.lost == multiset{} && w.cache.busy == NONE
  }

  // ---- Every slot is of the kind of its pool ----

  ghost predicate TypedEntry(e: Entry) { (forall x :: x in e.kv ==> x.Kv?) && e.state.State? }

  ghost predicate TypedEntries(entries: seq<Entry>) { forall k :: 0 <= k < |entries| ==> TypedEntry(entries[k]) }

  ghost predicate TypedMisses(misses: seq<Miss>) { forall j :: 0 <= j < |misses| ==> misses[j].Typed() }

  ghost predicate Typed(w: World) {
    TypedEntries(w.cache.entries) && forall i :: 0 <= i < |w.requests| ==> TypedMisses(w.requests[i].misses)
  }

  lemma RegisterOneTyped(cfg: Config, c: Cache, m: Miss, now: int)
    requires TypedEntries(c.entries) && m.Typed() && m.state.Some?
    ensures TypedEntries(RegisterOne(cfg, c, m, now).entries)
  {
  }

  lemma {:induction false} RegisterAllTyped(cfg: Config, c: Cache, refs: map<nat, nat>, misses: seq<Miss>, now: int)
    requires TypedEntries(c.entries) && TypedMisses(misses)
    requires forall m :: m in misses && m.kind == Cached ==> m.state.Some?
    ensures TypedEntries(RegisterAll(cfg, c, refs, misses, now).0.entries)
  {
    if misses != [] {
      var front, m := misses[..|misses| - 1], misses[|misses| - 1];
      RegisterAllTyped(cfg, c, refs, front, now);
      if m.kind == Cached { RegisterOneTyped(cfg, RegisterAll(cfg, c, refs, front, now).0, m, now); }
    }
  }

  lemma {:induction false} DropAllTyped(c: Cache, victims: seq<Entry>)
    requires TypedEntries(c.entries)
    ensures TypedEntries(DropAll(c, victims).entries)
  {
    if victims != [] { DropAllTyped(c, victims[..|victims| - 1]); }
  }

  lemma RegisteredTyped(cfg: Config, w: World, i: nat, now: int)
    requires Typed(w) && i < |w.requests| && Granted(w.requests[i].misses)
    ensures Typed(Registered(cfg, w, i, now))
  {
    RegisterAllTyped(cfg, w.cache, w.requests[i].refs, w.requests[i].misses, now);
  }

  lemma ReleasedTyped(cfg: Config, w: World, i: nat)
    requires Typed(w) && i < |w.requests|
    ensures Typed(Released(cfg, w, i))
  {
  }

  lemma TypedStep(cfg: Config, w: World, step: Step)
    requires Typed(w) && WellFormed(w) && Enabled(cfg, w, step)
    ensures Typed(Apply(cfg, w, step))
  {
    match step
    case Register(i, now) => RegisteredTyped(cfg, w, i, now);
    case Finish(i, insert, now) =>
      if insert { RegisteredTyped(cfg, w, i, now); }
      ReleasedTyped(cfg, if insert then Registered(cfg, w, i, now) else w, i);
    case Reclaim(needKv, needState) => DropAllTyped(w.cache, Victims(Candidates(w.cache), needKv, needState));
    case _ =>
  }

  lemma {:induction false} TypedRun(cfg: Config, w: World, steps: seq<Step>, end: World)
    requires Typed(w) && Run(cfg, w, steps, end)
    ensures Typed(end)
    decreases |steps|
  {
    if steps != [] {
      TypedStep(cfg, w, steps[0]);
      TypedRun(cfg, Apply(cfg, w, steps[0]), steps[1..], end);
    }
  }

  // ---- From slots to sizes ----

  function EntrySlots(entries: seq<Entry>): multiset<Slot> {
    if entries == [] then multiset{}
    else EntrySlots(entries[..|entries| - 1]) + entries[|entries| - 1].Footprint()
  }

  lemma {:induction false} EntrySlotsCount(entries: seq<Entry>, x: Slot)
    ensures EntrySlots(entries)[x] == EntryCount(entries, x)
  {
    if entries != [] { EntrySlotsCount(entries[..|entries| - 1], x); }
  }

  lemma {:induction false} EntrySlotsSize(entries: seq<Entry>, kv: bool)
    requires TypedEntries(entries)
    ensures Size(EntrySlots(entries), kv) == InEntries(entries, kv)
  {
    if entries == [] {
      SizeNone(kv);
    } else {
      var n := |entries| - 1;
      EntrySlotsSize(entries[..n], kv);
      SizePlus(EntrySlots(entries[..n]), entries[n].Footprint(), kv);
      FootprintSize(entries[n], kv);
    }
  }

  lemma FootprintSize(e: Entry, kv: bool)
    requires TypedEntry(e)
    ensures Size(e.Footprint(), kv) == if kv then |e.kv| else 1
  {
    SizePlus(multiset(e.kv), multiset{e.state}, kv);
    SizeKv(e.kv, kv);
    SizeState(e.state, kv);
  }

  lemma MissSize(m: Miss, kinds: set<Kind>, kv: bool)
    requires m.Typed()
    ensures Size(if m.kind in kinds then m.Footprint() else multiset{}, kv) == AmountOne(m, kinds, kv)
  {
    SizeNone(kv);
    SizeKv(m.kv, kv);
    if m.state.Some? {
      SizePlus(multiset(m.kv), multiset{m.state.value}, kv);
      SizeState(m.state.value, kv);
    } else {
      SizePlus(multiset(m.kv), multiset{}, kv);
    }
  }

  lemma {:induction false} MissesSize(misses: seq<Miss>, kinds: set<Kind>, kv: bool)
    requires TypedMisses(misses)
    ensures Size(SlotsOf(misses, kinds), kv) == Amount(misses, kinds, kv)
  {
    if misses == [] {
      SizeNone(kv);
    } else {
      var n := |misses| - 1;
      MissesSize(misses[..n], kinds, kv);
      MissSize(misses[n], kinds, kv);
      SizePlus(SlotsOf(misses[..n], kinds), if misses[n].kind in kinds then misses[n].Footprint() else multiset{}, kv);
    }
  }

  // ---- What the requests hold, and what they have handed over again ----

  function HeldPrompt(r: Request): multiset<Slot> {
    (if r.rounds == 0 then SlotsOf(r.misses, {Cached}) else multiset{})
    + (if r.stage == Running then SlotsOf(r.misses, {Query, Brief}) else multiset{})
    + SlotsOf(r.misses, {Stranded})
  }

  /** The slots a running request decodes with. */
  function Decoding(r: Request): multiset<Slot> { if r.stage == Running then r.decoded else multiset{} }

  function Copies(n: nat, s: multiset<Slot>): multiset<Slot> {
    if n == 0 then multiset{} else s + Copies(n - 1, s)
  }

  function Again(r: Request): multiset<Slot> {
    if r.rounds == 0 then multiset{} else Copies(r.rounds - 1, SlotsOf(r.misses, {Cached}))
  }

  lemma {:induction false} CopiesCount(n: nat, s: multiset<Slot>, x: Slot)
    ensures Copies(n, s)[x] == Times(n, s[x])
  {
    if n > 0 { CopiesCount(n - 1, s, x); }
  }

  lemma {:induction false} CopiesSize(n: nat, s: multiset<Slot>, kv: bool)
    ensures Size(Copies(n, s), kv) == Times(n, Size(s, kv))
  {
    if n == 0 {
      SizeNone(kv);
    } else {
      CopiesSize(n - 1, s, kv);
      SizePlus(s, Copies(n - 1, s), kv);
    }
  }

  lemma OwesIs(r: Request, x: Slot)
    ensures Owes(r, x) + Again(r)[x] == HeldPrompt(r)[x] + Decoding(r)[x]
  {
    if r.rounds > 0 { CopiesCount(r.rounds - 1, SlotsOf(r.misses, {Cached}), x); }
  }

  lemma HeldSize(r: Request, kv: bool)
    requires TypedMisses(r.misses)
    ensures Size(HeldPrompt(r), kv) == Share(true, r, kv)
  {
    var first := if r.rounds == 0 then SlotsOf(r.misses, {Cached}) else multiset{};
    var late := if r.stage == Running then SlotsOf(r.misses, {Query, Brief}) else multiset{};
    SizePlus(first + late, SlotsOf(r.misses, {Stranded}), kv);
    SizePlus(first, late, kv);
    SizeNone(kv);
    MissesSize(r.misses, {Cached}, kv);
    MissesSize(r.misses, {Query, Brief}, kv);
    MissesSize(r.misses, {Stranded}, kv);
  }

  lemma AgainSize(r: Request, kv: bool)
    requires TypedMisses(r.misses)
    ensures Size(Again(r), kv) == Repeated(r, kv)
  {
    SizeNone(kv);
    MissesSize(r.misses, {Cached}, kv);
    if r.rounds > 0 { CopiesSize(r.rounds - 1, SlotsOf(r.misses, {Cached}), kv); }
  }

  /** The slots of one pool that running requests decode with. */
  ghost function DecodedBy(requests: seq<Request>, kv: bool): nat {
    if requests == [] then 0
    else DecodedBy(requests[..|requests| - 1], kv) + Size(Decoding(requests[|requests| - 1]), kv)
  }

  function HeldSlots(requests: seq<Request>): multiset<Slot> {
    if requests == [] then multiset{}
    else HeldSlots(requests[..|requests| - 1]) + (HeldPrompt(requests[|requests| - 1]) + Decoding(requests[|requests| - 1]))
  }

  function AgainSlots(requests: seq<Request>): multiset<Slot> {
    if requests == [] then multiset{}
    else AgainSlots(requests[..|requests| - 1]) + Again(requests[|requests| - 1])
  }

  lemma {:induction false} OwedByIs(requests: seq<Request>, x: Slot)
    ensures OwedBy(requests, x) + AgainSlots(requests)[x] == HeldSlots(requests)[x]
  {
    if requests != [] {
      OwedByIs(requests[..|requests| - 1], x);
      OwesIs(requests[|requests| - 1], x);
    }
  }

  lemma {:induction false} HeldSlotsSize(requests: seq<Request>, kv: bool)
    requires forall i :: 0 <= i < |requests| ==> TypedMisses(requests[i].misses)
    ensures Size(HeldSlots(requests), kv) == Claimed(requests, kv) + DecodedBy(requests, kv)
  {
    if requests == [] {
      SizeNone(kv);
    } else {
      var n := |requests| - 1;
      var r := requests[n];
      HeldSlotsSize(requests[..n], kv);
      HeldSize(r, kv);
      SizePlus(HeldPrompt(r), Decoding(r), kv);
      SizePlus(HeldSlots(requests[..n]), HeldPrompt(r) + Decoding(r), kv);
    }
  }

  lemma {:induction false} AgainSlotsSize(requests: seq<Request>, kv: bool)
    requires forall i :: 0 <= i < |requests| ==> TypedMisses(requests[i].misses)
    ensures Size(AgainSlots(requests), kv) == RepeatedBy(requests, kv)
  {
    if requests == [] {
      SizeNone(kv);
    } else {
      var n := |requests| - 1;
      AgainSlotsSize(requests[..n], kv);
      AgainSize(requests[n], kv);
      SizePlus(AgainSlots(requests[..n]), Again(requests[n]), kv);
    }
  }

  // ---- The law of the check ----

  lemma SlotsInBalance(cfg: Config, w: World, steps: seq<Step>, end: World, x: Slot)
    requires Start(w) && Run(cfg, w, steps, end)
    ensures end.cache.free[x] + EntrySlots(end.cache.entries)[x] + end.cache.lost[x] + HeldSlots(end.requests)[x]
         == w.cache.free[x] + EntrySlots(w.cache.entries)[x] + AgainSlots(end.requests)[x]
  {
    BalanceRun(cfg, w, steps, end, x);
    OwedByIs(end.requests, x);
    EntrySlotsCount(end.cache.entries, x);
    EntrySlotsCount(w.cache.entries, x);
  }

  lemma SizesInBalance(free: multiset<Slot>, entries: multiset<Slot>, lost: multiset<Slot>, held: multiset<Slot>,
                       free0: multiset<Slot>, entries0: multiset<Slot>, again: multiset<Slot>, kv: bool)
    requires forall x :: free[x] + entries[x] + lost[x] + held[x] == free0[x] + entries0[x] + again[x]
    ensures Size(free, kv) + Size(entries, kv) + Size(lost, kv) + Size(held, kv)
         == Size(free0, kv) + Size(entries0, kv) + Size(again, kv)
  {
    SizeSame(free + entries + lost + held, free0 + entries0 + again, kv);
    SizePlus(free + entries + lost, held, kv);
    SizePlus(free + entries, lost, kv);
    SizePlus(free, entries, kv);
    SizePlus(free0 + entries0, again, kv);
    SizePlus(free0, entries0, kv);
  }

  /**
  Every run, in either mode, at every moment: what the check misses is what was lost with
  overwritten entries, what running requests decode with, and what the counter falls
  short of what is held, less what was handed over again.
   */
  lemma LeakIs(cfg: Config, w: World, steps: seq<Step>, end: World, kv: bool)
    requires Start(w) && Run(cfg, w, steps, end)
    ensures Leak(Seen(w.cache, kv), end.cache, kv)
         == Size(end.cache.lost, kv) + DecodedBy(end.requests, kv)
            + (Claimed(end.requests, kv) - Reading(end.cache.busy, kv)) - RepeatedBy(end.requests, kv)
  {
    forall x ensures end.cache.free[x] + EntrySlots(end.cache.entries)[x] + end.cache.lost[x] + HeldSlots(end.requests)[x]
                  == w.cache.free[x] + EntrySlots(w.cache.entries)[x] + AgainSlots(end.requests)[x] {
      SlotsInBalance(cfg, w, steps, end, x);
    }
    SizesInBalance(end.cache.free, EntrySlots(end.cache.entries), end.cache.lost, HeldSlots(end.requests),
                   w.cache.free, EntrySlots(w.cache.entries), AgainSlots(end.requests), kv);
    TypedRun(cfg, w, steps, end);
    EntrySlotsSize(w.cache.entries, kv);
    EntrySlotsSize(end.cache.entries, kv);
    HeldSlotsSize(end.requests, kv);
    AgainSlotsSize(end.requests, kv);
  }

  // ---- The transition mode ----

  /**
  Every run, however often requests are registered: the check misses what was lost and what
  running requests decode with, less what the clamp of the counter has swallowed.
   */
  lemma TransitionLeakIs(cfg: Config, w: World, steps: seq<Step>, end: World, kv: bool)
    requires cfg.transition && Start(w) && Run(cfg, w, steps, end)
    ensures Leak(Seen(w.cache, kv), end.cache, kv)
         == Size(end.cache.lost, kv) + DecodedBy(end.requests, kv) - Hides(cfg, w, steps, end, kv)
  {
    LeakIs(cfg, w, steps, end, kv);
    TransitionCounterIs(cfg, w, steps, end, kv);
  }

  /**
  Every run: the alarm is raised if and only if more KV slots were lost or are decoded with
  than the clamp has swallowed, or over three more state slots.
   */
  lemma TransitionAlarmIff(cfg: Config, w: World, steps: seq<Step>, end: World)
    requires cfg.transition && Start(w) && Run(cfg, w, steps, end)
    ensures Alarm(w.cache, end.cache)
       <==> Size(end.cache.lost, true) + DecodedBy(end.requests, true) > Hides(cfg, w, steps, end, true)
            || Size(end.cache.lost, false) + DecodedBy(end.requests, false) > Hides(cfg, w, steps, end, false) + 3
  {
    TransitionLeakIs(cfg, w, steps, end, true);
    TransitionLeakIs(cfg, w, steps, end, false);
  }

  lemma {:induction false} DecodedWithin(requests: seq<Request>, i: nat, kv: bool)
    requires i < |requests|
    ensures Size(Decoding(requests[i]), kv) <= DecodedBy(requests, kv)
  {
    if i < |requests| - 1 { DecodedWithin(requests[..|requests| - 1], i, kv); }
  }

  lemma SizePositive(s: multiset<Slot>, x: Slot)
    requires x in s
    ensures Size(s, x.Kv?) > 0
  {
    assert OfKind(s, x.Kv?)[x] > 0;
  }

  /**
  The check is also asserted while requests run, and then the generated tokens of one of
  them fail it as soon as there are more of them than the clamp has swallowed.
   */
  lemma TokensFailTheCheck(cfg: Config, w: World, steps: seq<Step>, end: World, i: nat)
    requires cfg.transition && Start(w) && Run(cfg, w, steps, end)
    requires i < |end.requests| && end.requests[i].stage == Running
    requires Size(end.requests[i].decoded, true) > Hides(cfg, w, steps, end, true)
    ensures Alarm(w.cache, end.cache)
  {
    TransitionAlarmIff(cfg, w, steps, end);
    DecodedWithin(end.requests, i, true);
  }

  /** If no request was registered twice so far, that is the first token. */
  lemma FirstTokenFailsTheCheck(cfg: Config, w: World, steps: seq<Step>, end: World, i: nat, x: Slot)
    requires cfg.transition && Start(w) && Run(cfg, w, steps, end)
    requires forall j :: 0 <= j < |end.requests| ==> Once(end.requests[j])
    requires i < |end.requests| && end.requests[i].stage == Running && x in end.requests[i].decoded && x.Kv?
    ensures Alarm(w.cache, end.cache)
  {
    OnceHidesNothing(cfg, w, steps, end, true);
    SizePositive(end.requests[i].decoded, x);
    TokensFailTheCheck(cfg, w, steps, end, i);
  }

  // ---- The state slots of running requests ----

  /** Every running request has a state slot of its own. */
  ghost predicate OwnStates(requests: seq<Request>) {
    forall i :: 0 <= i < |requests| && requests[i].stage == Running ==> HasState(requests[i].decoded)
  }

  ghost predicate HasState(s: multiset<Slot>) { exists x :: x in s && x.State? }

  lemma OwnStatesStep(cfg: Config, w: World, step: Step)
    requires OwnStates(w.requests) && WellFormed(w) && Enabled(cfg, w, step)
    ensures OwnStates(Apply(cfg, w, step).requests)
  {
    if step.Alloc? { assert step.own in multiset{step.own}; }
    if step.Decode? { HasStateStill(w.requests[step.i].decoded, step.slots); }
  }

  lemma HasStateStill(s: multiset<Slot>, more: multiset<Slot>)
    requires HasState(s)
    ensures HasState(s + more)
  {
    var x :| x in s && x.State?;
    assert x in s + more;
  }

  lemma {:induction false} OwnStatesRun(cfg: Config, w: World, steps: seq<Step>, end: World)
    requires OwnStates(w.requests) && Run(cfg, w, steps, end)
    ensures OwnStates(end.requests)
    decreases |steps|
  {
    if steps != [] {
      OwnStatesStep(cfg, w, steps[0]);
      OwnStatesRun(cfg, Apply(cfg, w, steps[0]), steps[1..], end);
    }
  }

  function RunningCount(requests: seq<Request>): nat {
    if requests == [] then 0
    else RunningCount(requests[..|requests| - 1]) + if requests[|requests| - 1].stage == Running then 1 else 0
  }

  lemma {:induction false} OneStateEach(requests: seq<Request>)
    requires OwnStates(requests)
    ensures RunningCount(requests) <= DecodedBy(requests, false)
  {
    if requests != [] {
      var n := |requests| - 1;
      OneStateEach(requests[..n]);
      if requests[n].stage == Running {
        var x :| x in requests[n].decoded && x.State?;
        SizePositive(requests[n].decoded, x);
      }
    }
  }

  /** A request that only prefills has its state slot already: over three more than were swallowed fail the check. */
  lemma CrowdFailsTheCheck(cfg: Config, w: World, steps: seq<Step>, end: World)
    requires cfg.transition && Start(w) && Run(cfg, w, steps, end)
    requires RunningCount(end.requests) > Hides(cfg, w, steps, end, false) + 3
    ensures Alarm(w.cache, end.cache)
  {
    OwnStatesRun(cfg, w, steps, end);
    OneStateEach(end.requests);
    TransitionAlarmIff(cfg, w, steps, end);
  }

  // ---- The mode that counts at the end ----

  /**
  By how much a request distorts the sums: while it runs, its cached segments are counted
  in flight and in the entries; when it has finished, what it did not hand over is missing
  and what it handed over again is there twice.
   */
  function Distortion(r: Request, kv: bool): int {
    if r.stage == Running then 0 - Times(r.rounds, CachedPart(r, kv))
    else StrandedPart(r, kv) + if r.rounds == 0 then CachedPart(r, kv) else 0 - Times(r.rounds - 1, CachedPart(r, kv))
  }

  function DistortionBy(requests: seq<Request>, kv: bool): int {
    if requests == [] then 0
    else DistortionBy(requests[..|requests| - 1], kv) + Distortion(requests[|requests| - 1], kv)
  }

  lemma DistortionIs(r: Request, kv: bool)
    ensures Distortion(r, kv) == Share(true, r, kv) - Share(false, r, kv) - Repeated(r, kv)
  {
    AmountSplit(r.misses, kv);
  }

  lemma {:induction false} DistortionByIs(requests: seq<Request>, kv: bool)
    ensures DistortionBy(requests, kv) == Total(true, requests, kv) - Total(false, requests, kv) - RepeatedBy(requests, kv)
  {
    if requests != [] {
      DistortionByIs(requests[..|requests| - 1], kv);
      DistortionIs(requests[|requests| - 1], kv);
    }
  }

  /** Without the transition operator, what the check misses in every run, however requests are registered. */
  lemma AdditionLeakIs(cfg: Config, w: World, steps: seq<Step>, end: World, kv: bool)
    requires !cfg.transition && Start(w) && Run(cfg, w, steps, end)
    ensures Leak(Seen(w.cache, kv), end.cache, kv)
         == Size(end.cache.lost, kv) + DecodedBy(end.requests, kv) + DistortionBy(end.requests, kv)
  {
    LeakIs(cfg, w, steps, end, kv);
    AdditionShowsRunning(cfg, w, steps, end, kv);
    DistortionByIs(end.requests, kv);
  }

  // ---- The idle check ----

  lemma {:induction false} FinishedDecodesNothing(requests: seq<Request>, kv: bool)
    requires forall i :: 0 <= i < |requests| ==> requests[i].stage == Finished
    ensures DecodedBy(requests, kv) == 0
  {
    if requests != [] {
      FinishedDecodesNothing(requests[..|requests| - 1], kv);
      SizeNone(kv);
    }
  }

  lemma ThroughLeakIs(cfg: Config, w: World, steps: seq<Step>, end: World, kv: bool)
    requires Start(w) && Run(cfg, w, steps, end)
    requires forall i :: 0 <= i < |end.requests| ==> Through(end.requests[i])
    ensures Leak(Seen(w.cache, kv), end.cache, kv) == Size(end.cache.lost, kv) - RepeatedBy(end.requests, kv)
  {
    LeakIs(cfg, w, steps, end, kv);
    ThroughCountsNothing(cfg, w, steps, end, kv);
    ThroughClaimsNothing(true, end.requests, kv);
    FinishedDecodesNothing(end.requests, kv);
  }

  /**
  The idle check in either mode, after a run whose requests have all finished, handed over
  what they had to and left nothing stranded: the counters are at zero, and the alarm is
  raised if and only if more KV slots were lost than were handed over again, or over three
  more state slots.
   */
  lemma IdleAlarmIff(cfg: Config, w: World, steps: seq<Step>, end: World)
    requires Start(w) && Run(cfg, w, steps, end)
    requires forall i :: 0 <= i < |end.requests| ==> Through(end.requests[i])
    ensures end.cache.busy == NONE
    ensures Alarm(w.cache, end.cache)
       <==> Size(end.cache.lost, true) > RepeatedBy(end.requests, true)
            || Size(end.cache.lost, false) > RepeatedBy(end.requests, false) + 3
  {
    ThroughCountsNothing(cfg, w, steps, end, true);
    ThroughCountsNothing(cfg, w, steps, end, false);
    ThroughLeakIs(cfg, w, steps, end, true);
    ThroughLeakIs(cfg, w, steps, end, false);
  }

  /**
  If each of them handed over once only, the alarm is raised if and only if a KV slot or more
  than three state slots were lost, and none was if and only if no registration overwrote
  an entry.
   */
  lemma IdleCheckPasses(cfg: Config, w: World, steps: seq<Step>, end: World)
    requires Start(w) && Run(cfg, w, steps, end)
    requires forall i :: 0 <= i < |end.requests| ==> end.requests[i].stage == Finished && Settles(end.requests[i])
    ensures end.cache.busy == NONE
    ensures Alarm(w.cache, end.cache)
       <==> Size(end.cache.lost, true) > 0 || Size(end.cache.lost, false) > 3
    ensures end.cache.lost == multiset{} <==> RunKeepsEntries(cfg, w, steps, end)
    ensures SameSlots(end.cache, w.cache) <==> RunKeepsEntries(cfg, w, steps, end)
  {
    IdleAlarmIff(cfg, w, steps, end);
    OnceRepeatsNothing(end.requests, true);
    OnceRepeatsNothing(end.requests, false);
    RunLosesIff(cfg, w, steps, end);
    SettledRunIsExact(cfg, w, steps, end);
  }

  /** In the transition mode an idle alarm is never false: some registration overwrote an entry. */
  lemma IdleAlarmMeansLoss(cfg: Config, w: World, steps: seq<Step>, end: World)
    requires cfg.transition && Start(w) && Run(cfg, w, steps, end)
    requires forall i :: 0 <= i < |end.requests| ==> end.requests[i].stage == Finished
    requires Alarm(w.cache, end.cache)
    ensures !RunKeepsEntries(cfg, w, steps, end)
  {
    TransitionAlarmIff(cfg, w, steps, end);
    FinishedDecodesNothing(end.requests, true);
    FinishedDecodesNothing(end.requests, false);
    SizeNone(true);
    SizeNone(false);
    RunLosesIff(cfg, w, steps, end);
  }
}
