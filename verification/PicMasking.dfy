/**
A run in which slots are lost and the memory check of the scheduler stays silent, because
an ordinary request before it has handed its own slots over twice.
 */
module PicMasking {
  import opened PicCache
  import opened PicLedger
  import opened PicInflight
  import opened PicMemory
  import opened PicScenarios

  // ---- What requests of one segment add to the sums ----

  lemma SinglePart(r: Request, m: Miss, kv: bool)
    requires r.misses == [m] && m.kind == Cached
    ensures CachedPart(r, kv) == AmountOne(m, {Cached}, kv)
  {
    assert r.misses[..0] == [] && Amount(r.misses[..0], {Cached}, kv) == 0;
  }

  /** A request that was registered twice has handed its segment over once too often. */
  lemma TwiceRepeats(r: Request, m: Miss, kv: bool)
    requires r.misses == [m] && m.kind == Cached && r.rounds == 2
    ensures Repeated(r, kv) == AmountOne(m, {Cached}, kv)
  {
    SinglePart(r, m, kv);
    assert Times(1, CachedPart(r, kv)) == CachedPart(r, kv) + Times(0, CachedPart(r, kv));
  }

  lemma ThreeRepeat(requests: seq<Request>, m: Miss, kv: bool)
    requires |requests| == 3 && requests[0].misses == [m] && m.kind == Cached && requests[0].rounds == 2
    requires requests[1].rounds == 1 && requests[2].rounds == 1
    ensures RepeatedBy(requests, kv) == AmountOne(m, {Cached}, kv)
  {
    assert requests[..2][..1] == requests[..1] && requests[..1][..0] == [];
    TwiceRepeats(requests[0], m, kv);
    assert RepeatedBy(requests[..1], kv) == Repeated(requests[0], kv);
    assert RepeatedBy(requests[..2], kv) == RepeatedBy(requests[..1], kv);
  }

  lemma FootprintIsAmount(m: Miss, kv: bool)
    requires m.Typed() && m.kind == Cached
    ensures Size(m.Footprint(), kv) == AmountOne(m, {Cached}, kv)
  {
    MissSize(m, {Cached}, kv);
  }

  // ---- The run ----

  /** The ordinary life of `c`, and then `d`, whose entry is overwritten by `e`. */
  function MaskedRun(c: Miss, d: Miss, e: Miss, own: seq<Slot>, t: int): seq<Step>
    requires |own| == 3
  {
    OrdinaryLife(c, own[0], t, t, t) + (SingleSteps(d, own[1], 1, t) + SingleSteps(e, own[2], 2, t))
  }

  ghost predicate Masks(cfg: Config, w: World, c: Miss, d: Miss, e: Miss, own: seq<Slot>) {
    && Fresh(w) && Start(w) && Whole(cfg, c) && Collide(cfg, d, e) && c.segment.hash != d.segment.hash
    && |own| == 3 && own[0].State? && own[1].State? && own[2].State?
    && Taken(c, own[0]) <= w.cache.free && Taken(d, own[1]) + Taken(e, own[2]) <= w.cache.free
  }

  function Veteran(c: Miss, own: Slot): Request {
    Loaded(c, own, map[c.segment.hash := 0], 2).(stage := Finished)
  }

  /** The cache after the ordinary life of `c`: its slots are all free, and in the entry. */
  ghost predicate AfterLife(cfg: Config, w: World, v: World, c: Miss, own: Slot, t: int)
    requires c.state.Some?
  {
    At(v, [Made(cfg, c, 0, 0, t)], w.cache.free, 1, [Veteran(c, own)]) && v.cache.lost == multiset{}
  }

  lemma RunMasked(cfg: Config, w: World, c: Miss, d: Miss, e: Miss, own: seq<Slot>, t: int)
    returns (v: World, end: World)
    requires Masks(cfg, w, c, d, e, own)
    ensures Run(cfg, w, MaskedRun(c, d, e, own, t), end)
    ensures AfterLife(cfg, w, v, c, own[0], t) && Replaces(cfg, v, end, v.cache.entries, d, e, own[1], own[2], t)
  {
    v := LiveOrdinarily(cfg, w, c, own[0], t, t, t);
    end := RunCollision(cfg, v, d, e, own[1], own[2], t);
    AfterTwo(cfg, w, OrdinaryLife(c, own[0], t, t, t), v, SingleSteps(d, own[1], 1, t) + SingleSteps(e, own[2], 2, t), end);
    AfterIsRun(cfg, w, MaskedRun(c, d, e, own, t), end);
  }

  lemma HandAfterLife(cfg: Config, w: World, v: World, c: Miss, own: Slot, t: int, x: Slot)
    requires c.state.Some? && AfterLife(cfg, w, v, c, own, t) && w.cache.entries == []
    ensures OnHand(v.cache, x) == OnHand(w.cache, x) + c.Footprint()[x]
  {
    var made := Made(cfg, c, 0, 0, t);
    EntryCountAppend([], made, x);
    assert [] + [made] == [made] && made.Footprint() == c.Footprint();
  }

  lemma AllThrough(c: Miss, d: Miss, e: Miss, own: seq<Slot>, requests: seq<Request>)
    requires |own| == 3 && c.kind == Cached && d.kind == Cached && e.kind == Cached
    requires requests == [Veteran(c, own[0])] + [Ended(d, own[1], 1)] + [Ended(e, own[2], 2)]
    ensures |requests| == 3 && requests[0] == Veteran(c, own[0])
    ensures requests[1].rounds == 1 && requests[2].rounds == 1
    ensures forall i :: 0 <= i < |requests| ==> Through(requests[i])
  {
  }

  /**
  In either mode: the slots of `d` are gone from the free list and from the index, except
  for those that `c` has given back once too often, and the idle check raises the alarm if
  and only if `d` is longer than `c`.
   */
  lemma LossIsHidden(cfg: Config, w: World, c: Miss, d: Miss, e: Miss, own: seq<Slot>, t: int) returns (end: World)
    requires Masks(cfg, w, c, d, e, own)
    ensures Run(cfg, w, MaskedRun(c, d, e, own, t), end) && end.cache.lost == d.Footprint()
    ensures forall x :: OnHand(end.cache, x) + d.Footprint()[x] == OnHand(w.cache, x) + c.Footprint()[x]
    ensures Alarm(w.cache, end.cache) <==> |d.kv| > |c.kv|
  {
    var v;
    v, end := RunMasked(cfg, w, c, d, e, own, t);
    forall x ensures OnHand(end.cache, x) + d.Footprint()[x] == OnHand(w.cache, x) + c.Footprint()[x] {
      HandAfterLife(cfg, w, v, c, own[0], t, x);
      HandAfterCollision(cfg, v, end, d, e, own[1], own[2], t, x);
    }
    AllThrough(c, d, e, own, end.requests);
    AlarmIsLength(cfg, w, MaskedRun(c, d, e, own, t), end, c, d);
  }

  lemma AlarmIsLength(cfg: Config, w: World, steps: seq<Step>, end: World, c: Miss, d: Miss)
    requires Start(w) && Run(cfg, w, steps, end) && Whole(cfg, c) && Whole(cfg, d) && end.cache.lost == d.Footprint()
    requires |end.requests| == 3 && end.requests[0].misses == [c] && end.requests[0].rounds == 2
    requires end.requests[1].rounds == 1 && end.requests[2].rounds == 1
    requires forall i :: 0 <= i < |end.requests| ==> Through(end.requests[i])
    ensures Alarm(w.cache, end.cache) <==> |d.kv| > |c.kv|
  {
    IdleAlarmIff(cfg, w, steps, end);
    forall kv
      ensures Size(end.cache.lost, kv) == AmountOne(d, {Cached}, kv)
      ensures RepeatedBy(end.requests, kv) == AmountOne(c, {Cached}, kv)
    {
      FootprintIsAmount(d, kv);
      ThreeRepeat(end.requests, c, kv);
    }
  }
}
