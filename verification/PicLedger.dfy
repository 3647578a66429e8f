/**
Where every slot of the segment cache is: on the free list, in an entry of the
index, in the hands of a request, or lost. The balance below holds in every run;
what it leaves open is which requests give their slots back exactly once.
 */
module PicLedger {
  import opened Indices
  import opened PicCache

  /** How often slot `x` occurs in the entries. */
  function EntryCount(entries: seq<Entry>, x: Slot): nat {
    if entries == [] then 0
    else EntryCount(entries[..|entries| - 1], x) + entries[|entries| - 1].Footprint()[x]
  }

  /** How often the cache accounts for slot `x`. */
  function Stock(c: Cache, x: Slot): nat { c.free[x] + EntryCount(c.entries, x) + c.lost[x] }

  lemma EntryCountAppend(entries: seq<Entry>, e: Entry, x: Slot)
    ensures EntryCount(entries + [e], x) == EntryCount(entries, x) + e.Footprint()[x]
  {
    assert (entries + [e])[..|entries|] == entries;
  }

  lemma {:induction false} EntryCountRemove(entries: seq<Entry>, k: nat, x: Slot)
    requires k < |entries|
    ensures EntryCount(RemoveAt(entries, k), x) + entries[k].Footprint()[x] == EntryCount(entries, x)
  {
    var n := |entries| - 1;
    if k < n {
      EntryCountRemove(entries[..n], k, x);
      EntryCountAppend(RemoveAt(entries[..n], k), entries[n], x);
      RemoveBeforeLast(entries, k);
    } else {
      assert RemoveAt(entries, k) == entries[..n];
    }
  }

  lemma RemoveBeforeLast<T>(s: seq<T>, k: nat)
    requires k < |s| - 1
    ensures RemoveAt(s, k) == RemoveAt(s[..|s| - 1], k) + [s[|s| - 1]]
  {
  }

  lemma {:induction false} EntryCountUpdate(entries: seq<Entry>, k: nat, e: Entry, x: Slot)
    requires k < |entries|
    ensures EntryCount(entries[k := e], x) + entries[k].Footprint()[x] == EntryCount(entries, x) + e.Footprint()[x]
  {
    var n := |entries| - 1;
    if k < n {
      EntryCountUpdate(entries[..n], k, e, x);
      assert entries[k := e][..n] == entries[..n][k := e];
    } else {
      assert entries[k := e][..n] == entries[..n];
    }
  }

  lemma {:induction false} EntryCountSame(a: seq<Entry>, b: seq<Entry>, x: Slot)
    requires |a| == |b| && forall k :: 0 <= k < |a| ==> a[k].kv == b[k].kv && a[k].state == b[k].state
    ensures EntryCount(a, x) == EntryCount(b, x)
  {
    if a != [] { EntryCountSame(a[..|a| - 1], b[..|b| - 1], x); }
  }

  // ---- Operations on the cache ----

  /** Registering puts the segment's slots into the stock, whether it is inserted or redundant. */
  lemma RegisterOneStock(cfg: Config, c: Cache, m: Miss, now: int, x: Slot)
    requires m.state.Some?
    ensures Stock(RegisterOne(cfg, c, m, now), x) == Stock(c, x) + m.Footprint()[x]
  {
    var k := Find(c.entries, m.segment.hash);
    if Matches(c.entries, m.segment) {
      var e := c.entries[k].(access := now);
      assert e.Footprint() == c.entries[k].Footprint();
      EntryCountUpdate(c.entries, k, e, x);
    } else {
      var e := Entry(c.nextId, m.segment, m.kv, m.state.value, if cfg.transition then 1 else 0, now);
      assert e.Footprint() == m.Footprint();
      if k < |c.entries| {
        EntryCountUpdate(c.entries, k, e, x);
      } else {
        EntryCountAppend(c.entries, e, x);
      }
    }
  }

  lemma {:induction false} RegisterAllStock(cfg: Config, c: Cache, refs: map<nat, nat>, misses: seq<Miss>,
                                            now: int, x: Slot)
    requires forall m :: m in misses && m.kind == Cached ==> m.state.Some?
    ensures Stock(RegisterAll(cfg, c, refs, misses, now).0, x) == Stock(c, x) + SlotsOf(misses, {Cached})[x]
  {
    if misses != [] {
      var front, m := misses[..|misses| - 1], misses[|misses| - 1];
      RegisterAllStock(cfg, c, refs, front, now, x);
      if m.kind == Cached { RegisterOneStock(cfg, RegisterAll(cfg, c, refs, front, now).0, m, now, x); }
    }
  }

  lemma DropStock(c: Cache, hash: nat, x: Slot)
    ensures Stock(Drop(c, hash), x) == Stock(c, x)
  {
    var k := Find(c.entries, hash);
    if k < |c.entries| { EntryCountRemove(c.entries, k, x); }
  }

  lemma {:induction false} DropAllStock(c: Cache, victims: seq<Entry>, x: Slot)
    ensures Stock(DropAll(c, victims), x) == Stock(c, x)
  {
    if victims != [] {
      var n := |victims| - 1;
      DropAllStock(c, victims[..n], x);
      DropStock(DropAll(c, victims[..n]), victims[n].segment.hash, x);
    }
  }

  // ---- Requests ----

  function Times(n: nat, v: nat): nat { if n == 0 then 0 else v + Times(n - 1, v) }

  /**
  What request `r` still has of slot `x`, less what it has given away too often: its
  cached segments go with the first registration, and again with every further one;
  the query, the short segments and the generated tokens go when it finishes.
   */
  function Owes(r: Request, x: Slot): int {
    var cached := SlotsOf(r.misses, {Cached})[x];
    var late := if r.stage == Running then SlotsOf(r.misses, {Query, Brief})[x] + r.decoded[x] else 0;
    late + SlotsOf(r.misses, {Stranded})[x]
    + if r.rounds == 0 then cached else 0 - Times(r.rounds - 1, cached)
  }

  function OwedBy(requests: seq<Request>, x: Slot): int {
    if requests == [] then 0
    else OwedBy(requests[..|requests| - 1], x) + Owes(requests[|requests| - 1], x)
  }

  lemma {:induction false} OwedByUpdate(requests: seq<Request>, i: nat, r: Request, x: Slot)
    requires i < |requests|
    ensures OwedBy(requests[i := r], x) == OwedBy(requests, x) - Owes(requests[i], x) + Owes(r, x)
  {
    var n := |requests| - 1;
    if i < n {
      OwedByUpdate(requests[..n], i, r, x);
      assert requests[i := r][..n] == requests[..n][i := r];
    } else {
      assert requests[i := r][..n] == requests[..n];
    }
  }

  lemma OwedByAppend(requests: seq<Request>, r: Request, x: Slot)
    ensures OwedBy(requests + [r], x) == OwedBy(requests, x) + Owes(r, x)
  {
    assert (requests + [r])[..|requests|] == requests;
  }

  lemma {:induction false} KindsSplit(misses: seq<Miss>, x: Slot)
    ensures SlotsOf(misses, ALL_KINDS)[x]
         == SlotsOf(misses, {Cached})[x] + SlotsOf(misses, {Query, Brief})[x] + SlotsOf(misses, {Stranded})[x]
  {
    if misses != [] { KindsSplit(misses[..|misses| - 1], x); }
  }

  function Balance(w: World, x: Slot): int { Stock(w.cache, x) + OwedBy(w.requests, x) }

  ghost predicate HasKind(misses: seq<Miss>, kind: Kind) { exists m :: m in misses && m.kind == kind }

  /** A prompt that is one short segment has no other segment. */
  ghost predicate StrandedAlone(misses: seq<Miss>) { HasKind(misses, Stranded) ==> !HasKind(misses, Cached) }

  /** Only a request that has been granted slots has any, and each kind gets what it needs. */
  ghost predicate Ordinary(w: World) {
    forall i :: 0 <= i < |w.requests| ==>
      var r := w.requests[i];
      Granted(r.misses) && StrandedAlone(r.misses)
      && (r.stage == Locked ==> r.misses == [] && r.decoded == multiset{} && r.rounds == 0)
  }

  lemma FitsStrandedAlone(cfg: Config, r: Request, misses: seq<Miss>)
    requires Fits(cfg, r, misses)
    ensures Granted(misses) && StrandedAlone(misses)
  {
    forall a, b | 0 <= a < |misses| && 0 <= b < |misses| && misses[a].kind == Stranded
      ensures misses[b].kind != Cached
    {
      assert r.wanted[a] == 0 && r.wanted[b] == 0;
    }
  }

  lemma OrdinaryStep(cfg: Config, w: World, step: Step)
    requires Ordinary(w) && Enabled(cfg, w, step)
    ensures Ordinary(Apply(cfg, w, step))
  {
    if step.Alloc? { FitsStrandedAlone(cfg, w.requests[step.i], step.misses); }
  }

  lemma OwesAfterRegister(r: Request, refs: map<nat, nat>, x: Slot)
    ensures Owes(r.(refs := refs, rounds := r.rounds + 1), x) == Owes(r, x) - SlotsOf(r.misses, {Cached})[x]
  {
  }

  /** What the cache gains is what the request no longer owes. */
  lemma MoveBalance(w: World, i: nat, c: Cache, r: Request, x: Slot)
    requires i < |w.requests| && Stock(c, x) + Owes(r, x) == Stock(w.cache, x) + Owes(w.requests[i], x)
    ensures Balance(World(c, w.requests[i := r]), x) == Balance(w, x)
  {
    OwedByUpdate(w.requests, i, r, x);
  }

  lemma RegisterMoves(cfg: Config, c: Cache, r: Request, now: int, x: Slot)
    requires Granted(r.misses)
    ensures var done := RegisterAll(cfg, c, r.refs, r.misses, now);
            Stock(done.0, x) + Owes(r.(refs := done.1, rounds := r.rounds + 1), x) == Stock(c, x) + Owes(r, x)
  {
    RegisterAllStock(cfg, c, r.refs, r.misses, now, x);
    OwesAfterRegister(r, RegisterAll(cfg, c, r.refs, r.misses, now).1, x);
  }

  lemma RegisteredBalance(cfg: Config, w: World, i: nat, now: int, x: Slot)
    requires i < |w.requests| && Granted(w.requests[i].misses)
    ensures Balance(Registered(cfg, w, i, now), x) == Balance(w, x)
  {
    var v := Registered(cfg, w, i, now);
    RegisterMoves(cfg, w.cache, w.requests[i], now, x);
    MoveBalance(w, i, v.cache, v.requests[i], x);
    assert v.requests == w.requests[i := v.requests[i]];
  }

  lemma ReleaseMoves(r: Request, x: Slot)
    requires r.stage == Running
    ensures Owes(r.(stage := Finished), x) == Owes(r, x) - SlotsOf(r.misses, {Query, Brief})[x] - r.decoded[x]
  {
  }

  lemma ReleasedBalance(cfg: Config, w: World, i: nat, x: Slot)
    requires i < |w.requests| && w.requests[i].stage == Running
    ensures Balance(Released(cfg, w, i), x) == Balance(w, x)
  {
    var v := Released(cfg, w, i);
    EntryCountSame(v.cache.entries, w.cache.entries, x);
    ReleaseMoves(w.requests[i], x);
    MoveBalance(w, i, v.cache, v.requests[i], x);
    assert v.requests == w.requests[i := v.requests[i]];
  }

  lemma AdmitBalance(cfg: Config, w: World, prompt: seq<Segment>, now: int, x: Slot)
    requires Ordinary(w) && prompt != []
    ensures Balance(Apply(cfg, w, Admit(prompt, now)), x) == Balance(w, x)
  {
    EntryCountSame(Lock(cfg, w.cache.entries, prompt, now), w.cache.entries, x);
    var v := Apply(cfg, w, Admit(prompt, now));
    OwedByAppend(w.requests, v.requests[|w.requests|], x);
  }

  lemma AllocMoves(r: Request, misses: seq<Miss>, own: Slot, x: Slot)
    requires r.stage == Locked && r.misses == [] && r.decoded == multiset{} && r.rounds == 0
    ensures Owes(r.(stage := Running, misses := misses, decoded := multiset{own}), x)
         == Owes(r, x) + (SlotsOf(misses, ALL_KINDS) + multiset{own})[x]
  {
    KindsSplit(misses, x);
  }

  lemma TakeFree(c: Cache, slots: multiset<Slot>, x: Slot)
    requires slots <= c.free
    ensures Stock(c.(free := c.free - slots), x) == Stock(c, x) - slots[x]
  {
  }

  lemma AllocBalance(cfg: Config, w: World, i: nat, misses: seq<Miss>, own: Slot, x: Slot)
    requires Ordinary(w) && Enabled(cfg, w, Alloc(i, misses, own))
    ensures Balance(Apply(cfg, w, Alloc(i, misses, own)), x) == Balance(w, x)
  {
    var slots := SlotsOf(misses, ALL_KINDS) + multiset{own};
    AllocMoves(w.requests[i], misses, own, x);
    TakeFree(w.cache, slots, x);
    MoveBalance(w, i, w.cache.(free := w.cache.free - slots),
                w.requests[i].(stage := Running, misses := misses, decoded := multiset{own}), x);
  }

  lemma DecodeMoves(r: Request, slots: multiset<Slot>, x: Slot)
    requires r.stage == Running
    ensures Owes(r.(decoded := r.decoded + slots), x) == Owes(r, x) + slots[x]
  {
  }

  lemma DecodeBalance(cfg: Config, w: World, i: nat, slots: multiset<Slot>, x: Slot)
    requires Ordinary(w) && Enabled(cfg, w, Decode(i, slots))
    ensures Balance(Apply(cfg, w, Decode(i, slots)), x) == Balance(w, x)
  {
    DecodeMoves(w.requests[i], slots, x);
    TakeFree(w.cache, slots, x);
    MoveBalance(w, i, w.cache.(free := w.cache.free - slots),
                w.requests[i].(decoded := w.requests[i].decoded + slots), x);
  }

  /** No step changes the balance of any slot. */
  lemma BalanceStep(cfg: Config, w: World, step: Step, x: Slot)
    requires Ordinary(w) && Enabled(cfg, w, step)
    ensures Balance(Apply(cfg, w, step), x) == Balance(w, x)
  {
    match step
    case Admit(prompt, now) => AdmitBalance(cfg, w, prompt, now, x);
    case Alloc(i, misses, own) => AllocBalance(cfg, w, i, misses, own, x);
    case Register(i, now) => RegisteredBalance(cfg, w, i, now, x);
    case Decode(i, slots) => DecodeBalance(cfg, w, i, slots, x);
    case Finish(i, insert, now) =>
      if insert { RegisteredBalance(cfg, w, i, now, x); }
      ReleasedBalance(cfg, if insert then Registered(cfg, w, i, now) else w, i, x);
    case Reclaim(needKv, needState) =>
      DropAllStock(w.cache, Victims(Candidates(w.cache), needKv, needState), x);
  }

  /** In every run, a slot's occurrences in the cache and what the requests owe of it stay in balance. */
  lemma {:induction false} BalanceRun(cfg: Config, w: World, steps: seq<Step>, end: World, x: Slot)
    requires Ordinary(w) && Run(cfg, w, steps, end)
    ensures Ordinary(end) && Balance(end, x) == Balance(w, x)
    decreases |steps|
  {
    if steps != [] {
      BalanceStep(cfg, w, steps[0], x);
      OrdinaryStep(cfg, w, steps[0]);
      BalanceRun(cfg, Apply(cfg, w, steps[0]), steps[1..], end, x);
    }
  }

  // ---- Which requests settle their account ----

  lemma {:induction false} NoneOfKind(misses: seq<Miss>, kind: Kind, x: Slot)
    requires !HasKind(misses, kind)
    ensures SlotsOf(misses, {kind})[x] == 0
  {
    if misses != [] {
      var n := |misses| - 1;
      assert misses[n] in misses;
      assert !HasKind(misses[..n], kind) by { assert forall m :: m in misses[..n] ==> m in misses; }
      NoneOfKind(misses[..n], kind, x);
    }
  }

  lemma {:induction false} SomeOfKind(misses: seq<Miss>, kinds: set<Kind>, j: nat)
    requires j < |misses| && misses[j].kind in kinds && misses[j].state.Some?
    ensures SlotsOf(misses, kinds)[misses[j].state.value] > 0
  {
    if j < |misses| - 1 { SomeOfKind(misses[..|misses| - 1], kinds, j); }
  }

  lemma {:induction false} TimesPositive(n: nat, v: nat)
    ensures Times(n, v) == 0 <==> n == 0 || v == 0
  {
    if n > 0 { TimesPositive(n - 1, v); }
  }

  ghost predicate Settles(r: Request) {
    (r.rounds == 1 || !HasKind(r.misses, Cached)) && !HasKind(r.misses, Stranded)
  }

  lemma SettledOwesNothing(r: Request, x: Slot)
    requires r.stage == Finished && Settles(r)
    ensures Owes(r, x) == 0
  {
    NoneOfKind(r.misses, Stranded, x);
    if !HasKind(r.misses, Cached) {
      OwesOnlyStranded(r, x);
    } else {
      assert Times(0, SlotsOf(r.misses, {Cached})[x]) == 0;
    }
  }

  lemma UnsettledOwes(r: Request) returns (x: Slot)
    requires r.stage == Finished && Granted(r.misses) && StrandedAlone(r.misses) && !Settles(r)
    ensures Owes(r, x) != 0
  {
    var kind := if HasKind(r.misses, Stranded) then Stranded else Cached;
    var j :| 0 <= j < |r.misses| && r.misses[j].kind == kind;
    assert r.misses[j] in r.misses;
    x := r.misses[j].state.value;
    SomeOfKind(r.misses, {kind}, j);
    if kind == Stranded {
      OwesOnlyStranded(r, x);
    } else {
      NoneOfKind(r.misses, Stranded, x);
      if r.rounds > 0 { TimesPositive(r.rounds - 1, SlotsOf(r.misses, {Cached})[x]); }
    }
  }

  /**
  A finished request has returned each of its slots exactly once if and only if it
  was registered exactly once, or has nothing to register, and is not a short prompt
  of a single segment.
   */
  lemma SettledIff(r: Request)
    requires r.stage == Finished && Granted(r.misses) && StrandedAlone(r.misses)
    ensures (forall x :: Owes(r, x) == 0)
       <==> (r.rounds == 1 || !HasKind(r.misses, Cached)) && !HasKind(r.misses, Stranded)
  {
    if Settles(r) {
      forall x ensures Owes(r, x) == 0 { SettledOwesNothing(r, x); }
    } else {
      var x := UnsettledOwes(r);
    }
  }

  lemma OwesOnlyStranded(r: Request, x: Slot)
    requires r.stage == Finished && !HasKind(r.misses, Cached)
    ensures Owes(r, x) == SlotsOf(r.misses, {Stranded})[x]
  {
    NoneOfKind(r.misses, Cached, x);
    if r.rounds > 0 { TimesPositive(r.rounds - 1, 0); }
  }

  lemma {:induction false} NothingOwed(requests: seq<Request>, x: Slot)
    requires forall i :: 0 <= i < |requests| ==> Owes(requests[i], x) == 0
    ensures OwedBy(requests, x) == 0
  {
    if requests != [] { NothingOwed(requests[..|requests| - 1], x); }
  }

  // ---- Overwritten entries ----

  /** The hash of the segment is in the index under other tokens. */
  predicate Overwrites(c: Cache, m: Miss) {
    var k := Find(c.entries, m.segment.hash);
    k < |c.entries| && c.entries[k].segment != m.segment
  }

  /** Registering a segment loses slots exactly when it overwrites an entry, and then that entry's. */
  lemma LosesIff(cfg: Config, c: Cache, m: Miss, now: int)
    requires m.state.Some?
    ensures RegisterOne(cfg, c, m, now).lost == c.lost <==> !Overwrites(c, m)
    ensures c.lost <= RegisterOne(cfg, c, m, now).lost
  {
    if Overwrites(c, m) {
      var e := c.entries[Find(c.entries, m.segment.hash)];
      assert (c.lost + e.Footprint())[e.state] > c.lost[e.state];
    }
  }

  ghost predicate NoneOverwrites(cfg: Config, c: Cache, refs: map<nat, nat>, misses: seq<Miss>, now: int)
    requires forall m :: m in misses && m.kind == Cached ==> m.state.Some?
  {
    misses == [] ||
    var front, m := misses[..|misses| - 1], misses[|misses| - 1];
    NoneOverwrites(cfg, c, refs, front, now)
    && (m.kind == Cached ==> !Overwrites(RegisterAll(cfg, c, refs, front, now).0, m))
  }

  lemma {:induction false} AllLosesIff(cfg: Config, c: Cache, refs: map<nat, nat>, misses: seq<Miss>, now: int)
    requires forall m :: m in misses && m.kind == Cached ==> m.state.Some?
    ensures RegisterAll(cfg, c, refs, misses, now).0.lost == c.lost <==> NoneOverwrites(cfg, c, refs, misses, now)
    ensures c.lost <= RegisterAll(cfg, c, refs, misses, now).0.lost
  {
    if misses != [] {
      var front, m := misses[..|misses| - 1], misses[|misses| - 1];
      AllLosesIff(cfg, c, refs, front, now);
      if m.kind == Cached {
        var d := RegisterAll(cfg, c, refs, front, now).0;
        LosesIff(cfg, d, m, now);
        Squeezed(c.lost, d.lost, RegisterOne(cfg, d, m, now).lost);
      }
    }
  }

  lemma Squeezed<T>(a: multiset<T>, b: multiset<T>, c: multiset<T>)
    requires a <= b <= c
    ensures a <= c && (a == c <==> a == b && b == c)
  {
  }

  /** What a step registers overwrites nothing. */
  ghost predicate KeepsEntries(cfg: Config, w: World, step: Step)
    requires WellFormed(w) && Enabled(cfg, w, step)
  {
    match step
    case Register(i, now) => NoneOverwrites(cfg, w.cache, w.requests[i].refs, w.requests[i].misses, now)
    case Finish(i, insert, now) =>
      insert ==> NoneOverwrites(cfg, w.cache, w.requests[i].refs, w.requests[i].misses, now)
    case _ => true
  }

  lemma {:induction false} DropAllLosesNothing(c: Cache, victims: seq<Entry>)
    ensures DropAll(c, victims).lost == c.lost
  {
    if victims != [] { DropAllLosesNothing(c, victims[..|victims| - 1]); }
  }

  lemma StepLosesIff(cfg: Config, w: World, step: Step)
    requires WellFormed(w) && Enabled(cfg, w, step)
    ensures Apply(cfg, w, step).cache.lost == w.cache.lost <==> KeepsEntries(cfg, w, step)
    ensures w.cache.lost <= Apply(cfg, w, step).cache.lost
  {
    match step
    case Register(i, now) => AllLosesIff(cfg, w.cache, w.requests[i].refs, w.requests[i].misses, now);
    case Finish(i, insert, now) =>
      if insert { AllLosesIff(cfg, w.cache, w.requests[i].refs, w.requests[i].misses, now); }
    case Reclaim(needKv, needState) =>
      DropAllLosesNothing(w.cache, Victims(Candidates(w.cache), needKv, needState));
    case _ =>
  }

  /** No registration of the run overwrites an entry. */
  ghost predicate RunKeepsEntries(cfg: Config, w: World, steps: seq<Step>, end: World)
    requires Run(cfg, w, steps, end)
    decreases |steps|
  {
    steps == [] ||
    (KeepsEntries(cfg, w, steps[0]) && RunKeepsEntries(cfg, Apply(cfg, w, steps[0]), steps[1..], end))
  }

  lemma {:induction false} RunLosesIff(cfg: Config, w: World, steps: seq<Step>, end: World)
    requires Run(cfg, w, steps, end)
    ensures end.cache.lost == w.cache.lost <==> RunKeepsEntries(cfg, w, steps, end)
    ensures w.cache.lost <= end.cache.lost
    decreases |steps|
  {
    if steps != [] {
      var v := Apply(cfg, w, steps[0]);
      StepLosesIff(cfg, w, steps[0]);
      RunLosesIff(cfg, v, steps[1..], end);
      Squeezed(w.cache.lost, v.cache.lost, end.cache.lost);
    }
  }

  // ---- What the cache holds after a run ----

  /** How often slot `x` is on the free list or in an entry. */
  function OnHand(c: Cache, x: Slot): nat { c.free[x] + EntryCount(c.entries, x) }

  /** Every slot is on the free list or in an entry as often as before. */
  ghost predicate SameSlots(c: Cache, d: Cache) { forall x :: OnHand(c, x) == OnHand(d, x) }

  lemma SameLost(a: multiset<Slot>, b: multiset<Slot>)
    ensures (forall x :: a[x] == b[x]) <==> a == b
  {
  }

  /**
  When all requests have finished and settled, each slot is free or in an entry exactly
  as often as before the run, if and only if no registration overwrote an entry.
   */
  lemma SettledRunIsExact(cfg: Config, w: World, steps: seq<Step>, end: World)
    requires w.requests == [] && Run(cfg, w, steps, end)
    requires forall i :: 0 <= i < |end.requests| ==> end.requests[i].stage == Finished && Settles(end.requests[i])
    ensures SameSlots(end.cache, w.cache) <==> RunKeepsEntries(cfg, w, steps, end)
  {
    forall x ensures OnHand(end.cache, x) + end.cache.lost[x] == OnHand(w.cache, x) + w.cache.lost[x] {
      forall i | 0 <= i < |end.requests| ensures Owes(end.requests[i], x) == 0 {
        SettledOwesNothing(end.requests[i], x);
      }
      BalanceRun(cfg, w, steps, end, x);
      NothingOwed(end.requests, x);
    }
    RunLosesIff(cfg, w, steps, end);
    SameLost(end.cache.lost, w.cache.lost);
  }

  lemma {:induction false} OnlyOwes(requests: seq<Request>, i: nat, x: Slot)
    requires i < |requests| && forall j :: 0 <= j < |requests| && j != i ==> Owes(requests[j], x) == 0
    ensures OwedBy(requests, x) == Owes(requests[i], x)
  {
    var n := |requests| - 1;
    if i < n {
      forall j | 0 <= j < n && j != i ensures Owes(requests[..n][j], x) == 0 {
        assert requests[..n][j] == requests[j];
      }
      OnlyOwes(requests[..n], i, x);
    } else {
      NothingOwed(requests[..n], x);
    }
  }

  lemma OneRequestOwes(cfg: Config, w: World, steps: seq<Step>, end: World, i: nat, x: Slot)
    requires w.requests == [] && Run(cfg, w, steps, end) && i < |end.requests|
    requires forall j :: 0 <= j < |end.requests| && j != i ==> end.requests[j].stage == Finished && Settles(end.requests[j])
    ensures Ordinary(end)
    ensures OnHand(end.cache, x) + end.cache.lost[x] + Owes(end.requests[i], x) == OnHand(w.cache, x) + w.cache.lost[x]
  {
    BalanceRun(cfg, w, steps, end, x);
    forall j | 0 <= j < |end.requests| && j != i ensures Owes(end.requests[j], x) == 0 {
      SettledOwesNothing(end.requests[j], x);
    }
    OnlyOwes(end.requests, i, x);
  }

  /**
  What one request does to the cache, with the others settled and nothing overwritten:
  each slot is free or in an entry exactly as often as before the run if and only if the
  request was registered exactly once, or had nothing to register, and was not a short
  prompt of one segment.
   */
  lemma RequestIsExactIff(cfg: Config, w: World, steps: seq<Step>, end: World, i: nat)
    requires w.requests == [] && Run(cfg, w, steps, end) && RunKeepsEntries(cfg, w, steps, end)
    requires i < |end.requests| && forall j :: 0 <= j < |end.requests| ==> end.requests[j].stage == Finished
    requires forall j :: 0 <= j < |end.requests| && j != i ==> Settles(end.requests[j])
    ensures SameSlots(end.cache, w.cache)
       <==> (end.requests[i].rounds == 1 || !HasKind(end.requests[i].misses, Cached))
            && !HasKind(end.requests[i].misses, Stranded)
  {
    RunLosesIff(cfg, w, steps, end);
    forall x ensures OnHand(end.cache, x) + Owes(end.requests[i], x) == OnHand(w.cache, x) {
      OneRequestOwes(cfg, w, steps, end, i, x);
    }
    OneRequestOwes(cfg, w, steps, end, i, Kv(0));
    SettledIff(end.requests[i]);
    SameIffNothingOwed(end.cache, w.cache, end.requests[i]);
  }

  lemma SameIffNothingOwed(c: Cache, d: Cache, r: Request)
    requires forall x :: OnHand(c, x) + Owes(r, x) == OnHand(d, x)
    ensures SameSlots(c, d) <==> forall x :: Owes(r, x) == 0
  {
    if SameSlots(c, d) {
      forall x ensures Owes(r, x) == 0 { assert OnHand(c, x) == OnHand(d, x); }
    } else {
      var x :| OnHand(c, x) != OnHand(d, x);
      assert Owes(r, x) != 0;
    }
  }
}
