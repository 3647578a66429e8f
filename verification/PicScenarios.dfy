/**
Short runs of the segment cache, from an empty index, that show what goes wrong where
the conditions on registrations are not met. They are families: any segments, slots,
free list and mode (without rope) that fit.
 */
module PicScenarios {
  import opened Wrappers
  import opened Indices
  import opened PicCache
  import opened PicEviction
  import opened PicLedger
  import opened PicLocks

  /** What a run is about; the counters, identities and overwritten slots follow from it. */
  ghost predicate At(w: World, entries: seq<Entry>, free: multiset<Slot>, nextId: nat, requests: seq<Request>) {
    w.cache.entries == entries && w.cache.free == free && w.cache.nextId == nextId && w.requests == requests
  }

  /** A miss that is a whole prompt and long enough to be cached. */
  ghost predicate Whole(cfg: Config, m: Miss) {
    !Short(cfg, m.segment) && m.kind == Cached && m.state.Some? && |m.kv| == |m.segment.tokens| && m.Typed()
  }

  function Waiting(m: Miss): Request { Request(Locked, map[], [m.segment], [0], [], multiset{}, 0) }

  function Loaded(m: Miss, own: Slot, refs: map<nat, nat>, rounds: nat): Request {
    Request(Running, refs, [m.segment], [0], [m], multiset{own}, rounds)
  }

  /** What an allocation takes: the slots of the miss and the state slot of the request. */
  function Taken(m: Miss, own: Slot): multiset<Slot> { m.Footprint() + multiset{own} }

  function Made(cfg: Config, m: Miss, id: nat, locks: nat, now: int): Entry
    requires m.state.Some?
  {
    Entry(id, m.segment, m.kv, m.state.value, locks, now)
  }

  // ---- Steps of a request with one segment ----

  /** A prompt of one segment is never looked up. */
  lemma AdmitSingle(cfg: Config, w: World, m: Miss, now: int)
    requires WellFormed(w)
    ensures At(Apply(cfg, w, Admit([m.segment], now)), w.cache.entries, w.cache.free, w.cache.nextId,
               w.requests + [Waiting(m)])
  {
    var prompt := [m.segment];
    assert !Hit(cfg, w.cache.entries, prompt, 0);
    assert Lock(cfg, w.cache.entries, prompt, now) == w.cache.entries;
    assert HitRefs(cfg, w.cache.entries, prompt) == map[];
    assert Misses(cfg, w.cache.entries, prompt, 1) == [];
    assert Misses(cfg, w.cache.entries, prompt) == [0];
  }

  lemma SingleSlots(m: Miss)
    requires m.kind == Cached
    ensures SlotsOf([m], ALL_KINDS) == m.Footprint() && SlotsOf([m], {Query, Brief}) == multiset{}
  {
    assert [m][..0] == [];
  }

  lemma AllocSingle(cfg: Config, w: World, i: nat, m: Miss, own: Slot)
    requires WellFormed(w) && i < |w.requests| && w.requests[i] == Waiting(m)
    requires Whole(cfg, m) && own.State? && Taken(m, own) <= w.cache.free
    ensures Enabled(cfg, w, Alloc(i, [m], own))
    ensures At(Apply(cfg, w, Alloc(i, [m], own)), w.cache.entries, w.cache.free - Taken(m, own), w.cache.nextId,
               w.requests[i := Loaded(m, own, map[], 0)])
    ensures Apply(cfg, w, Alloc(i, [m], own)).cache.lost == w.cache.lost
  {
    SingleSlots(m);
  }

  lemma RegisterSingle(cfg: Config, w: World, i: nat, m: Miss, own: Slot, refs: map<nat, nat>, rounds: nat, now: int)
    requires i < |w.requests| && w.requests[i] == Loaded(m, own, refs, rounds) && Whole(cfg, m)
    ensures var v, c := Registered(cfg, w, i, now), RegisterOne(cfg, w.cache, m, now);
            && At(v, c.entries, c.free, c.nextId,
                  w.requests[i := Loaded(m, own, refs[m.segment.hash := RegisteredId(w.cache, m)], rounds + 1)])
            && v.cache.lost == c.lost
  {
    assert [m][..0] == [];
    assert RegisterAll(cfg, w.cache, refs, [m][..0], now) == (w.cache, refs);
  }

  lemma ReleaseSingle(cfg: Config, w: World, i: nat, m: Miss, own: Slot, refs: map<nat, nat>, rounds: nat)
    requires i < |w.requests| && w.requests[i] == Loaded(m, own, refs, rounds) && m.kind == Cached
    ensures At(Released(cfg, w, i), Unlock(w.cache.entries, refs), w.cache.free + multiset{own}, w.cache.nextId,
               w.requests[i := Loaded(m, own, refs, rounds).(stage := Finished)])
    ensures Released(cfg, w, i).cache.lost == w.cache.lost
  {
    SingleSlots(m);
  }

  ghost predicate Absent(entries: seq<Entry>, hash: nat) {
    forall k :: 0 <= k < |entries| ==> entries[k].segment.hash != hash
  }

  /** The first registration into an empty index. */
  lemma InsertFirst(cfg: Config, w: World, i: nat, m: Miss, own: Slot, now: int)
    requires i < |w.requests| && w.requests[i] == Loaded(m, own, map[], 0) && Whole(cfg, m) && w.cache.entries == []
    ensures At(Registered(cfg, w, i, now), [Made(cfg, m, w.cache.nextId, if cfg.transition then 1 else 0, now)],
               w.cache.free, w.cache.nextId + 1,
               w.requests[i := Loaded(m, own, map[m.segment.hash := w.cache.nextId], 1)])
    ensures Registered(cfg, w, i, now).cache.lost == w.cache.lost
  {
    RegisterSingle(cfg, w, i, m, own, map[], 0, now);
  }

  /** A registration that finds the segment in the index. */
  lemma RepeatSingle(cfg: Config, w: World, i: nat, m: Miss, own: Slot, refs: map<nat, nat>, rounds: nat, e: Entry,
                     now: int)
    requires i < |w.requests| && w.requests[i] == Loaded(m, own, refs, rounds) && Whole(cfg, m)
    requires w.cache.entries == [e] && e.segment == m.segment
    ensures At(Registered(cfg, w, i, now), [e.(access := now)], w.cache.free + m.Footprint(), w.cache.nextId,
               w.requests[i := Loaded(m, own, refs[m.segment.hash := e.id], rounds + 1)])
    ensures Registered(cfg, w, i, now).cache.lost == w.cache.lost
  {
    RegisterSingle(cfg, w, i, m, own, refs, rounds, now);
    assert Find([e], m.segment.hash) == 0;
  }

  // ---- Putting runs together ----

  /** Where the steps lead, if each is enabled when its turn comes. */
  ghost function After(cfg: Config, w: World, steps: seq<Step>): Option<World>
    decreases |steps|
  {
    if steps == [] then Some(w)
    else if WellFormed(w) && Enabled(cfg, w, steps[0]) then After(cfg, Apply(cfg, w, steps[0]), steps[1..])
    else None
  }

  lemma {:induction false} AfterIsRun(cfg: Config, w: World, steps: seq<Step>, end: World)
    ensures After(cfg, w, steps) == Some(end) <==> Run(cfg, w, steps, end)
    decreases |steps|
  {
    if steps != [] && WellFormed(w) && Enabled(cfg, w, steps[0]) {
      AfterIsRun(cfg, Apply(cfg, w, steps[0]), steps[1..], end);
    }
  }

  lemma AfterOneStep(cfg: Config, w: World, step: Step)
    requires WellFormed(w) && Enabled(cfg, w, step)
    ensures After(cfg, w, [step]) == Some(Apply(cfg, w, step))
  {
    assert After(cfg, Apply(cfg, w, step), [step][1..]) == Some(Apply(cfg, w, step));
  }

  lemma {:induction false} AfterConcat(cfg: Config, w: World, first: seq<Step>, second: seq<Step>)
    requires After(cfg, w, first).Some?
    ensures After(cfg, w, first + second) == After(cfg, After(cfg, w, first).value, second)
    decreases |first|
  {
    if first == [] {
      assert first + second == second;
    } else {
      TailOfConcat(first, second);
      AfterConcat(cfg, Apply(cfg, w, first[0]), first[1..], second);
    }
  }

  lemma TailOfConcat<T>(a: seq<T>, b: seq<T>)
    requires a != []
    ensures (a + b)[0] == a[0] && (a + b)[1..] == a[1..] + b
  {
  }

  lemma AfterPair(cfg: Config, w: World, first: Step, second: Step)
    requires WellFormed(w) && Enabled(cfg, w, first)
    requires WellFormed(Apply(cfg, w, first)) && Enabled(cfg, Apply(cfg, w, first), second)
    ensures After(cfg, w, [first, second]) == Some(Apply(cfg, Apply(cfg, w, first), second))
  {
    AfterOneStep(cfg, w, first);
    AfterOneStep(cfg, Apply(cfg, w, first), second);
    AfterConcat(cfg, w, [first], [second]);
    assert [first] + [second] == [first, second];
  }

  lemma AfterTwo(cfg: Config, w: World, a: seq<Step>, v: World, b: seq<Step>, end: World)
    requires After(cfg, w, a) == Some(v) && After(cfg, v, b) == Some(end)
    ensures After(cfg, w, a + b) == Some(end)
  {
    AfterConcat(cfg, w, a, b);
  }

  /** Every request has at most one miss, and that is granted what it needs. */
  ghost predicate Singles(cfg: Config, requests: seq<Request>) {
    forall r :: r in requests ==> r.misses == [] || (|r.misses| == 1 && Whole(cfg, r.misses[0]))
  }

  lemma SinglesAreWellFormed(cfg: Config, w: World)
    requires Singles(cfg, w.requests)
    ensures WellFormed(w)
  {
  }

  function LoadSteps(m: Miss, own: Slot, i: nat, t: int): seq<Step> { [Admit([m.segment], t), Alloc(i, [m], own)] }

  /** A request is admitted and gets its slots. */
  lemma LoadSingle(cfg: Config, w: World, m: Miss, own: Slot, t: int) returns (v: World)
    requires Singles(cfg, w.requests) && Whole(cfg, m) && own.State? && Taken(m, own) <= w.cache.free
    ensures At(v, w.cache.entries, w.cache.free - Taken(m, own), w.cache.nextId, w.requests + [Loaded(m, own, map[], 0)])
    ensures v.cache.lost == w.cache.lost
    ensures Singles(cfg, v.requests) && After(cfg, w, LoadSteps(m, own, |w.requests|, t)) == Some(v)
  {
    SinglesAreWellFormed(cfg, w);
    var u := Apply(cfg, w, Admit([m.segment], t));
    AdmitSingle(cfg, w, m, t);
    SinglesAreWellFormed(cfg, u);
    AllocSingle(cfg, u, |w.requests|, m, own);
    v := Apply(cfg, u, Alloc(|w.requests|, [m], own));
    assert u.requests[|w.requests| := Loaded(m, own, map[], 0)] == w.requests + [Loaded(m, own, map[], 0)];
    AfterPair(cfg, w, Admit([m.segment], t), Alloc(|w.requests|, [m], own));
  }

  // ---- A slot that is free and in an entry ----

  /** An empty index. */
  ghost predicate Fresh(w: World) { At(w, [], w.cache.free, 0, []) }

  lemma RegisterTwice(cfg: Config, w: World, m: Miss, own: Slot, t1: int, t2: int)
    requires Whole(cfg, m) && At(w, [], w.cache.free, 0, [Loaded(m, own, map[], 0)])
    ensures Singles(cfg, Registered(cfg, w, 0, t1).requests) && |Registered(cfg, w, 0, t1).requests| == 1
    ensures Registered(cfg, w, 0, t1).requests[0].stage == Running
    ensures WellFormed(Registered(cfg, w, 0, t1))
    ensures var u := Registered(cfg, Registered(cfg, w, 0, t1), 0, t2);
            && At(u, [Made(cfg, m, 0, if cfg.transition then 1 else 0, t2)], w.cache.free + m.Footprint(), 1,
                  [Loaded(m, own, map[m.segment.hash := 0], 2)])
            && u.cache.lost == w.cache.lost
  {
    var refs: map<nat, nat> := map[m.segment.hash := 0];
    InsertFirst(cfg, w, 0, m, own, t1);
    var v := Registered(cfg, w, 0, t1);
    RepeatSingle(cfg, v, 0, m, own, refs, 1, Made(cfg, m, 0, if cfg.transition then 1 else 0, t1), t2);
    assert refs[m.segment.hash := 0] == refs;
    SinglesAreWellFormed(cfg, v);
  }

  lemma RegisterAndFinish(cfg: Config, w: World, m: Miss, own: Slot, t1: int, t2: int) returns (end: World)
    requires Whole(cfg, m) && At(w, [], w.cache.free, 0, [Loaded(m, own, map[], 0)])
    ensures After(cfg, w, [Register(0, t1), Finish(0, true, t2)]) == Some(end)
    ensures At(end, [Made(cfg, m, 0, 0, t2)], w.cache.free + m.Footprint() + multiset{own}, 1,
               [Loaded(m, own, map[m.segment.hash := 0], 2).(stage := Finished)])
    ensures end.cache.lost == w.cache.lost
  {
    RegisterTwice(cfg, w, m, own, t1, t2);
    var u := Registered(cfg, Registered(cfg, w, 0, t1), 0, t2);
    ReleaseSingle(cfg, u, 0, m, own, map[m.segment.hash := 0], 2);
    UnlockOnly(cfg, m, 0, if cfg.transition then 1 else 0, t2);
    end := Released(cfg, u, 0);
    SinglesAreWellFormed(cfg, w);
    AfterPair(cfg, w, Register(0, t1), Finish(0, true, t2));
  }

  /** The ordinary life of a request: admitted, allocated, registered after the prefill, finished with insertion. */
  function OrdinaryLife(m: Miss, own: Slot, t0: int, t1: int, t2: int): (steps: seq<Step>)
    ensures steps == LoadSteps(m, own, 0, t0) + [Register(0, t1), Finish(0, true, t2)]
  {
    [Admit([m.segment], t0), Alloc(0, [m], own), Register(0, t1), Finish(0, true, t2)]
  }

  lemma LiveOrdinarily(cfg: Config, w: World, m: Miss, own: Slot, t0: int, t1: int, t2: int) returns (end: World)
    requires Fresh(w) && Whole(cfg, m) && own.State? && Taken(m, own) <= w.cache.free
    ensures After(cfg, w, OrdinaryLife(m, own, t0, t1, t2)) == Some(end)
    ensures At(end, [Made(cfg, m, 0, 0, t2)], w.cache.free, 1,
               [Loaded(m, own, map[m.segment.hash := 0], 2).(stage := Finished)])
    ensures end.cache.lost == w.cache.lost
  {
    var v := LoadSingle(cfg, w, m, own, t0);
    end := RegisterAndFinish(cfg, v, m, own, t1, t2);
    assert v.cache.free + m.Footprint() + multiset{own} == w.cache.free;
    AfterTwo(cfg, w, LoadSteps(m, own, 0, t0), v, [Register(0, t1), Finish(0, true, t2)], end);
  }

  /**
  The ordinary life of a request, in either mode: its slots end up on the free list although
  the entry in the index still holds them.
   */
  lemma FinishFreesTheEntry(cfg: Config, w: World, m: Miss, own: Slot, t0: int, t1: int, t2: int) returns (end: World)
    requires Fresh(w) && Whole(cfg, m) && own.State? && Taken(m, own) <= w.cache.free
    ensures Run(cfg, w, OrdinaryLife(m, own, t0, t1, t2), end)
    ensures |end.cache.entries| == 1 && end.cache.entries[0].segment == m.segment
    ensures forall x :: x in m.kv ==> x in end.cache.free && x in end.cache.entries[0].kv
  {
    end := LiveOrdinarily(cfg, w, m, own, t0, t1, t2);
    AfterIsRun(cfg, w, OrdinaryLife(m, own, t0, t1, t2), end);
    forall x | x in m.kv ensures x in end.cache.free {
      assert x in Taken(m, own);
    }
  }

  lemma UnlockOnly(cfg: Config, a: Miss, id: nat, locks: nat, t: int)
    requires a.state.Some? && locks <= 1
    ensures Unlock([Made(cfg, a, id, locks, t)], map[a.segment.hash := id]) == [Made(cfg, a, id, 0, t)]
  {
  }

  // ---- An entry that is evicted while it is in use ----

  /** Both requests have slots for the same segment. */
  ghost predicate Twins(cfg: Config, a: Miss, b: Miss) {
    Whole(cfg, a) && Whole(cfg, b) && a.segment == b.segment && a.segment.tokens != []
  }

  lemma BothRegistered(cfg: Config, w: World, a: Miss, b: Miss, own: Slot, other: Slot, t: int)
    requires Twins(cfg, a, b) && At(w, [], w.cache.free, 0, [Loaded(a, own, map[], 0), Loaded(b, other, map[], 0)])
    ensures var u := Registered(cfg, w, 0, t);
            WellFormed(u) && |u.requests| == 2 && u.requests[1] == Loaded(b, other, map[], 0)
    ensures var refs := map[a.segment.hash := 0];
            At(Registered(cfg, Registered(cfg, w, 0, t), 1, t), [Made(cfg, a, 0, if cfg.transition then 1 else 0, t)],
               w.cache.free + b.Footprint(), 1, [Loaded(a, own, refs, 1), Loaded(b, other, refs, 1)])
  {
    InsertFirst(cfg, w, 0, a, own, t);
    var u := Registered(cfg, w, 0, t);
    RepeatSingle(cfg, u, 1, b, other, map[], 0, Made(cfg, a, 0, if cfg.transition then 1 else 0, t), t);
    SinglesAreWellFormed(cfg, u);
  }

  lemma RegisterBoth(cfg: Config, w: World, a: Miss, b: Miss, own: Slot, other: Slot, t: int) returns (v: World)
    requires Twins(cfg, a, b) && At(w, [], w.cache.free, 0, [Loaded(a, own, map[], 0), Loaded(b, other, map[], 0)])
    ensures After(cfg, w, [Register(0, t), Register(1, t)]) == Some(v)
    ensures var refs := map[a.segment.hash := 0];
            At(v, [Made(cfg, a, 0, if cfg.transition then 1 else 0, t)], w.cache.free + b.Footprint(), 1,
               [Loaded(a, own, refs, 1), Loaded(b, other, refs, 1)])
  {
    BothRegistered(cfg, w, a, b, own, other, t);
    v := Registered(cfg, Registered(cfg, w, 0, t), 1, t);
    SinglesAreWellFormed(cfg, w);
    AfterPair(cfg, w, Register(0, t), Register(1, t));
  }

  /** The first request refers to the entry and the second, which refers to it as well, has finished. */
  ghost predicate Stolen(cfg: Config, w: World, a: Miss, own: Slot, t: int)
    requires a.state.Some?
  {
    && w.cache.entries == [Made(cfg, a, 0, 0, t)] && |w.requests| == 2
    && w.requests[0] == Loaded(a, own, map[a.segment.hash := 0], 1) && Singles(cfg, w.requests)
  }

  /** The entry is in the index, with at most one lock, and both requests refer to it. */
  ghost predicate Shared(cfg: Config, w: World, a: Miss, b: Miss, own: Slot, other: Slot, locks: nat, rounds: nat, t: int)
    requires a.state.Some?
  {
    var refs := map[a.segment.hash := 0];
    locks <= 1 && At(w, [Made(cfg, a, 0, locks, t)], w.cache.free, 1, [Loaded(a, own, refs, 1), Loaded(b, other, refs, rounds)])
  }

  lemma ReleaseSecond(cfg: Config, w: World, a: Miss, b: Miss, own: Slot, other: Slot, locks: nat, rounds: nat, t: int)
    requires Twins(cfg, a, b) && Shared(cfg, w, a, b, own, other, locks, rounds, t)
    ensures Stolen(cfg, Released(cfg, w, 1), a, own, t)
  {
    ReleaseSingle(cfg, w, 1, b, other, map[a.segment.hash := 0], rounds);
    UnlockOnly(cfg, a, 0, locks, t);
  }

  /** The second request finishes and takes the lock of the first. */
  lemma FinishSecond(cfg: Config, w: World, a: Miss, b: Miss, own: Slot, other: Slot, locks: nat, insert: bool, t: int)
    requires Twins(cfg, a, b) && Shared(cfg, w, a, b, own, other, locks, 1, t)
    ensures WellFormed(w) && Enabled(cfg, w, Finish(1, insert, t))
    ensures Stolen(cfg, Apply(cfg, w, Finish(1, insert, t)), a, own, t)
  {
    SinglesAreWellFormed(cfg, w);
    if insert {
      var refs: map<nat, nat> := map[a.segment.hash := 0];
      RepeatSingle(cfg, w, 1, b, other, refs, 1, Made(cfg, a, 0, locks, t), t);
      assert refs[a.segment.hash := 0] == refs;
      ReleaseSecond(cfg, Registered(cfg, w, 1, t), a, b, own, other, locks, 2, t);
    } else {
      ReleaseSecond(cfg, w, a, b, own, other, locks, 1, t);
    }
  }

  /** A single unlocked entry is taken by the smallest need. */
  lemma EvictOnly(c: Cache, e: Entry)
    requires c.entries == [e] && e.locks == 0
    ensures Evict(c, 1, 0).entries == []
  {
    CandidateMembers(c, e);
    EvictTakesUnlocked(c, 1, 0);
    var v := Victims(Candidates(c), 1, 0);
    assert v != [];
    FirstIsMember(v);
    VictimsAreUnlocked(c, 1, 0, v[0]);
    assert v[0] == e;
    FirstIsMember(Evict(c, 1, 0).entries);
  }

  lemma StealAndEvict(cfg: Config, w: World, a: Miss, b: Miss, own: Slot, other: Slot, locks: nat, insert: bool, t: int)
    returns (end: World)
    requires Twins(cfg, a, b) && Shared(cfg, w, a, b, own, other, locks, 1, t)
    ensures After(cfg, w, [Finish(1, insert, t), Reclaim(1, 0)]) == Some(end)
    ensures end.cache.entries == [] && |end.requests| == 2 && Holds(end.requests[0], a.segment.hash, 0)
  {
    FinishSecond(cfg, w, a, b, own, other, locks, insert, t);
    var v := Apply(cfg, w, Finish(1, insert, t));
    SinglesAreWellFormed(cfg, v);
    EvictOnly(v.cache, Made(cfg, a, 0, 0, t));
    end := Apply(cfg, v, Reclaim(1, 0));
    AfterPair(cfg, w, Finish(1, insert, t), Reclaim(1, 0));
  }

  /** Both requests are admitted before either is registered; then the second finishes and room is made. */
  function SharedRun(a: Miss, b: Miss, own: Slot, other: Slot, insert: bool, t: int): (steps: seq<Step>)
    ensures steps == LoadSteps(a, own, 0, t) + LoadSteps(b, other, 1, t)
                   + [Register(0, t), Register(1, t)] + [Finish(1, insert, t), Reclaim(1, 0)]
  {
    [Admit([a.segment], t), Alloc(0, [a], own), Admit([b.segment], t), Alloc(1, [b], other),
     Register(0, t), Register(1, t), Finish(1, insert, t), Reclaim(1, 0)]
  }

  lemma RoomAfter(free: multiset<Slot>, first: multiset<Slot>, second: multiset<Slot>)
    requires first + second <= free
    ensures first <= free && second <= free - first
  {
  }

  lemma LoadBoth(cfg: Config, w: World, a: Miss, b: Miss, own: Slot, other: Slot, t: int) returns (v: World)
    requires Fresh(w) && Whole(cfg, a) && Whole(cfg, b) && own.State? && other.State?
    requires Taken(a, own) + Taken(b, other) <= w.cache.free
    ensures After(cfg, w, LoadSteps(a, own, 0, t) + LoadSteps(b, other, 1, t)) == Some(v)
    ensures At(v, [], v.cache.free, 0, [Loaded(a, own, map[], 0), Loaded(b, other, map[], 0)])
  {
    RoomAfter(w.cache.free, Taken(a, own), Taken(b, other));
    var u := LoadSingle(cfg, w, a, own, t);
    v := LoadSingle(cfg, u, b, other, t);
    AfterTwo(cfg, w, LoadSteps(a, own, 0, t), u, LoadSteps(b, other, 1, t), v);
  }

  lemma RunShared(cfg: Config, w: World, a: Miss, b: Miss, own: Slot, other: Slot, insert: bool, t: int)
    returns (end: World)
    requires Fresh(w) && Twins(cfg, a, b) && own.State? && other.State?
    requires Taken(a, own) + Taken(b, other) <= w.cache.free
    ensures After(cfg, w, SharedRun(a, b, own, other, insert, t)) == Some(end)
    ensures end.cache.entries == [] && |end.requests| == 2 && Holds(end.requests[0], a.segment.hash, 0)
  {
    var first := LoadSteps(a, own, 0, t) + LoadSteps(b, other, 1, t);
    var v := LoadBoth(cfg, w, a, b, own, other, t);
    var u := RegisterBoth(cfg, v, a, b, own, other, t);
    end := StealAndEvict(cfg, u, a, b, own, other, if cfg.transition then 1 else 0, insert, t);
    AfterTwo(cfg, w, first, v, [Register(0, t), Register(1, t)], u);
    AfterTwo(cfg, w, first + [Register(0, t), Register(1, t)], u, [Finish(1, insert, t), Reclaim(1, 0)], end);
  }

  /**
  Two requests with the same prompt, in either mode: the eviction takes the entry that the
  first, still running, refers to.
   */
  lemma EvictionTakesTheUsed(cfg: Config, w: World, a: Miss, b: Miss, own: Slot, other: Slot, insert: bool, t: int)
    returns (end: World)
    requires Fresh(w) && Twins(cfg, a, b) && own.State? && other.State?
    requires Taken(a, own) + Taken(b, other) <= w.cache.free
    ensures Run(cfg, w, SharedRun(a, b, own, other, insert, t), end)
    ensures |end.requests| == 2 && Holds(end.requests[0], a.segment.hash, 0)
    ensures !Present(end.cache.entries, a.segment.hash, 0)
  {
    end := RunShared(cfg, w, a, b, own, other, insert, t);
    AfterIsRun(cfg, w, SharedRun(a, b, own, other, insert, t), end);
  }

  // ---- Slots that are neither free nor in an entry ----

  /** The index is `front` and perhaps one more entry, under the hash of the segment and with other tokens. */
  ghost predicate Clears(entries: seq<Entry>, front: seq<Entry>, s: Segment) {
    && Absent(front, s.hash)
    && (entries == front
        || (|entries| == |front| + 1 && entries == front + [entries[|front|]]
            && entries[|front|].segment.hash == s.hash && entries[|front|].segment != s))
  }

  /** What is lost when the segment takes its place. */
  function Replaced(entries: seq<Entry>, front: seq<Entry>): multiset<Slot> {
    if |entries| > |front| then entries[|front|].Footprint() else multiset{}
  }

  lemma OverwriteSingle(cfg: Config, w: World, i: nat, m: Miss, own: Slot, front: seq<Entry>, now: int)
    requires i < |w.requests| && w.requests[i] == Loaded(m, own, map[], 0) && Whole(cfg, m)
    requires Clears(w.cache.entries, front, m.segment)
    ensures At(Registered(cfg, w, i, now),
               front + [Made(cfg, m, w.cache.nextId, if cfg.transition then 1 else 0, now)], w.cache.free,
               w.cache.nextId + 1, w.requests[i := Loaded(m, own, map[m.segment.hash := w.cache.nextId], 1)])
    ensures Registered(cfg, w, i, now).cache.lost == w.cache.lost + Replaced(w.cache.entries, front)
  {
    RegisterSingle(cfg, w, i, m, own, map[], 0, now);
    if w.cache.entries != front {
      assert forall k :: 0 <= k < |front| ==> w.cache.entries[k] == front[k];
      assert Find(w.cache.entries, m.segment.hash) == |front|;
    }
  }

  lemma UnlockLast(cfg: Config, front: seq<Entry>, m: Miss, id: nat, locks: nat, t: int)
    requires m.state.Some? && locks <= 1 && Absent(front, m.segment.hash)
    ensures Unlock(front + [Made(cfg, m, id, locks, t)], map[m.segment.hash := id]) == front + [Made(cfg, m, id, 0, t)]
  {
  }

  function Ended(m: Miss, own: Slot, id: nat): Request {
    Loaded(m, own, map[m.segment.hash := id], 1).(stage := Finished)
  }

  /** A request of one segment finishes with insertion into an index without that segment. */
  lemma FinishSingle(cfg: Config, w: World, i: nat, m: Miss, own: Slot, front: seq<Entry>, now: int) returns (v: World)
    requires Singles(cfg, w.requests) && i < |w.requests| && w.requests[i] == Loaded(m, own, map[], 0) && Whole(cfg, m)
    requires Clears(w.cache.entries, front, m.segment)
    ensures At(v, front + [Made(cfg, m, w.cache.nextId, 0, now)], w.cache.free + multiset{own}, w.cache.nextId + 1,
               w.requests[i := Ended(m, own, w.cache.nextId)])
    ensures v.cache.lost == w.cache.lost + Replaced(w.cache.entries, front)
    ensures Singles(cfg, v.requests) && After(cfg, w, [Finish(i, true, now)]) == Some(v)
  {
    var id := w.cache.nextId;
    OverwriteSingle(cfg, w, i, m, own, front, now);
    var u := Registered(cfg, w, i, now);
    ReleaseSingle(cfg, u, i, m, own, map[m.segment.hash := id], 1);
    UnlockLast(cfg, front, m, id, if cfg.transition then 1 else 0, now);
    v := Released(cfg, u, i);
    assert u.requests[i := Ended(m, own, id)] == w.requests[i := Ended(m, own, id)];
    SinglesAreWellFormed(cfg, w);
    AfterOneStep(cfg, w, Finish(i, true, now));
  }

  function SingleSteps(m: Miss, own: Slot, i: nat, t: int): seq<Step> { LoadSteps(m, own, i, t) + [Finish(i, true, t)] }

  /** A request on its own: admitted, allocated, finished with insertion. */
  lemma RunSingle(cfg: Config, w: World, m: Miss, own: Slot, front: seq<Entry>, t: int) returns (v: World)
    requires Singles(cfg, w.requests) && Whole(cfg, m) && own.State? && Taken(m, own) <= w.cache.free
    requires Clears(w.cache.entries, front, m.segment)
    ensures After(cfg, w, SingleSteps(m, own, |w.requests|, t)) == Some(v)
    ensures At(v, front + [Made(cfg, m, w.cache.nextId, 0, t)], w.cache.free - m.Footprint(), w.cache.nextId + 1,
               w.requests + [Ended(m, own, w.cache.nextId)])
    ensures v.cache.lost == w.cache.lost + Replaced(w.cache.entries, front)
    ensures Singles(cfg, v.requests)
  {
    var n, ended := |w.requests|, Ended(m, own, w.cache.nextId);
    var u := LoadSingle(cfg, w, m, own, t);
    v := FinishSingle(cfg, u, n, m, own, front, t);
    assert u.requests[n := ended] == w.requests + [ended];
    assert u.cache.free + multiset{own} == w.cache.free - m.Footprint();
    AfterTwo(cfg, w, LoadSteps(m, own, n, t), u, [Finish(n, true, t)], v);
  }

  /** Two segments with equal hashes and different tokens. */
  ghost predicate Collide(cfg: Config, a: Miss, b: Miss) {
    Whole(cfg, a) && Whole(cfg, b) && a.segment.hash == b.segment.hash && a.segment != b.segment
  }

  /** An index after `front`, what is free and lost, and the requests that have come and gone. */
  ghost predicate Replaces(cfg: Config, w: World, end: World, front: seq<Entry>, a: Miss, b: Miss, own: Slot, other: Slot,
                           t: int)
    requires b.state.Some?
  {
    && At(end, front + [Made(cfg, b, w.cache.nextId + 1, 0, t)], w.cache.free - a.Footprint() - b.Footprint(),
          w.cache.nextId + 2, w.requests + [Ended(a, own, w.cache.nextId)] + [Ended(b, other, w.cache.nextId + 1)])
    && end.cache.lost == w.cache.lost + a.Footprint()
  }

  lemma ClearsAfter(cfg: Config, front: seq<Entry>, a: Miss, id: nat, t: int, s: Segment)
    requires a.state.Some? && Absent(front, s.hash) && a.segment.hash == s.hash && a.segment != s
    ensures Clears(front + [Made(cfg, a, id, 0, t)], front, s)
    ensures Replaced(front + [Made(cfg, a, id, 0, t)], front) == a.Footprint()
  {
  }

  lemma SecondReplaces(cfg: Config, w: World, v: World, a: Miss, b: Miss, own: Slot, other: Slot, front: seq<Entry>, t: int)
    returns (end: World)
    requires Singles(cfg, v.requests) && Collide(cfg, a, b) && other.State? && Absent(front, a.segment.hash)
    requires At(v, front + [Made(cfg, a, w.cache.nextId, 0, t)], w.cache.free - a.Footprint(), w.cache.nextId + 1,
                w.requests + [Ended(a, own, w.cache.nextId)]) && v.cache.lost == w.cache.lost
    requires a.Footprint() + Taken(b, other) <= w.cache.free
    ensures After(cfg, v, SingleSteps(b, other, |w.requests| + 1, t)) == Some(end)
    ensures Replaces(cfg, w, end, front, a, b, own, other, t)
  {
    RoomAfter(w.cache.free, a.Footprint(), Taken(b, other));
    ClearsAfter(cfg, front, a, w.cache.nextId, t, b.segment);
    end := RunSingle(cfg, v, b, other, front, t);
  }

  /** Two such requests, one after the other. */
  lemma RunCollision(cfg: Config, w: World, a: Miss, b: Miss, own: Slot, other: Slot, t: int) returns (end: World)
    requires Singles(cfg, w.requests) && Collide(cfg, a, b) && own.State? && other.State?
    requires Absent(w.cache.entries, a.segment.hash) && Taken(a, own) + Taken(b, other) <= w.cache.free
    ensures After(cfg, w, SingleSteps(a, own, |w.requests|, t) + SingleSteps(b, other, |w.requests| + 1, t)) == Some(end)
    ensures Replaces(cfg, w, end, w.cache.entries, a, b, own, other, t)
  {
    var v := RunSingle(cfg, w, a, own, w.cache.entries, t);
    end := SecondReplaces(cfg, w, v, a, b, own, other, w.cache.entries, t);
    AfterTwo(cfg, w, SingleSteps(a, own, |w.requests|, t), v, SingleSteps(b, other, |w.requests| + 1, t), end);
  }

  lemma HandAfterCollision(cfg: Config, w: World, end: World, a: Miss, b: Miss, own: Slot, other: Slot, t: int, x: Slot)
    requires b.state.Some? && Replaces(cfg, w, end, w.cache.entries, a, b, own, other, t)
    requires a.Footprint() + b.Footprint() <= w.cache.free
    ensures OnHand(end.cache, x) + a.Footprint()[x] == OnHand(w.cache, x)
  {
    var e := Made(cfg, b, w.cache.nextId + 1, 0, t);
    EntryCountAppend(w.cache.entries, e, x);
    assert e.Footprint() == b.Footprint();
  }

  lemma EndedSettles(m: Miss, own: Slot, id: nat)
    requires m.kind == Cached
    ensures Ended(m, own, id).stage == Finished && Settles(Ended(m, own, id))
  {
  }

  lemma BothSettle(a: Miss, b: Miss, own: Slot, other: Slot, requests: seq<Request>)
    requires a.kind == Cached && b.kind == Cached && requests == [] + [Ended(a, own, 0)] + [Ended(b, other, 1)]
    ensures forall r :: r in requests ==> r.stage == Finished && Settles(r)
  {
    EndedSettles(a, own, 0);
    EndedSettles(b, other, 1);
  }

  /** One request after the other: admitted, allocated, finished with insertion. */
  function CollidingRun(a: Miss, b: Miss, own: Slot, other: Slot, t: int): seq<Step> {
    SingleSteps(a, own, 0, t) + SingleSteps(b, other, 1, t)
  }

  lemma RunCollidingRun(cfg: Config, w: World, a: Miss, b: Miss, own: Slot, other: Slot, t: int) returns (end: World)
    requires Fresh(w) && Collide(cfg, a, b) && own.State? && other.State?
    requires Taken(a, own) + Taken(b, other) <= w.cache.free
    ensures Run(cfg, w, CollidingRun(a, b, own, other, t), end)
    ensures Replaces(cfg, w, end, w.cache.entries, a, b, own, other, t)
  {
    end := RunCollision(cfg, w, a, b, own, other, t);
    AfterIsRun(cfg, w, CollidingRun(a, b, own, other, t), end);
  }

  /**
  Two prompts with equal hashes and different tokens, one after the other: both requests
  settle, and every slot of the first is gone from the free list and from the index.
   */
  lemma CollisionLosesSlots(cfg: Config, w: World, a: Miss, b: Miss, own: Slot, other: Slot, t: int)
    returns (end: World)
    requires Fresh(w) && Collide(cfg, a, b) && own.State? && other.State?
    requires Taken(a, own) + Taken(b, other) <= w.cache.free
    ensures Run(cfg, w, CollidingRun(a, b, own, other, t), end)
    ensures forall r :: r in end.requests ==> r.stage == Finished && Settles(r)
    ensures forall x :: OnHand(end.cache, x) + a.Footprint()[x] == OnHand(w.cache, x)
  {
    end := RunCollidingRun(cfg, w, a, b, own, other, t);
    BothSettle(a, b, own, other, end.requests);
    forall x ensures OnHand(end.cache, x) + a.Footprint()[x] == OnHand(w.cache, x) {
      HandAfterCollision(cfg, w, end, a, b, own, other, t, x);
    }
  }
}
