/**
Locks of the segment cache: an entry should carry one lock for every live request
that refers to it, so that eviction cannot take an entry in use.
 */
module PicLocks {
  import opened PicCache
  import opened PicEviction

  predicate Holds(r: Request, hash: nat, id: nat) {
    r.stage != Finished && hash in r.refs && r.refs[hash] == id
  }

  /** The live requests that refer to an entry. */
  function Holders(requests: seq<Request>, hash: nat, id: nat): nat {
    if requests == [] then 0
    else Holders(requests[..|requests| - 1], hash, id) + if Holds(requests[|requests| - 1], hash, id) then 1 else 0
  }

  lemma {:induction false} HoldersUpdate(requests: seq<Request>, i: nat, r: Request, hash: nat, id: nat)
    requires i < |requests|
    ensures Holders(requests[i := r], hash, id) + (if Holds(requests[i], hash, id) then 1 else 0)
         == Holders(requests, hash, id) + if Holds(r, hash, id) then 1 else 0
  {
    var n := |requests| - 1;
    if i < n {
      HoldersUpdate(requests[..n], i, r, hash, id);
      assert requests[i := r][..n] == requests[..n][i := r];
    } else {
      assert requests[i := r][..n] == requests[..n];
    }
  }

  lemma HoldersAppend(requests: seq<Request>, r: Request, hash: nat, id: nat)
    ensures Holders(requests + [r], hash, id) == Holders(requests, hash, id) + if Holds(r, hash, id) then 1 else 0
  {
    assert (requests + [r])[..|requests|] == requests;
  }

  lemma {:induction false} HeldIsCounted(requests: seq<Request>, i: nat, hash: nat, id: nat)
    requires i < |requests| && Holds(requests[i], hash, id)
    ensures Holders(requests, hash, id) > 0
  {
    if i < |requests| - 1 { HeldIsCounted(requests[..|requests| - 1], i, hash, id); }
  }

  lemma {:induction false} NoneHolds(requests: seq<Request>, hash: nat, id: nat)
    requires forall i :: 0 <= i < |requests| ==> !Holds(requests[i], hash, id)
    ensures Holders(requests, hash, id) == 0
  {
    if requests != [] { NoneHolds(requests[..|requests| - 1], hash, id); }
  }

  /** The index has the entry of this identity under this hash. */
  ghost predicate Present(entries: seq<Entry>, hash: nat, id: nat) {
    exists e :: e in entries && e.segment.hash == hash && e.id == id
  }

  ghost predicate Counted(w: World) {
    forall e :: e in w.cache.entries ==> e.id < w.cache.nextId && e.locks == Holders(w.requests, e.segment.hash, e.id)
  }

  /** Whatever a live request refers to is in the index. */
  ghost predicate InUseIsPresent(w: World) {
    forall i, h, id :: 0 <= i < |w.requests| && Holds(w.requests[i], h, id) ==> Present(w.cache.entries, h, id)
  }

  ghost predicate Paired(w: World) {
    OneEach(w.cache.entries) && Counted(w) && InUseIsPresent(w)
  }

  // ---- Eviction ----

  lemma EvictKeepsPairing(w: World, needKv: int, needState: int)
    requires Paired(w)
    ensures Paired(w.(cache := Evict(w.cache, needKv, needState)))
  {
    var d := Evict(w.cache, needKv, needState);
    EvictTakesUnlocked(w.cache, needKv, needState);
    EvictKeepsId(w.cache, needKv, needState);
    forall i, h, id | 0 <= i < |w.requests| && Holds(w.requests[i], h, id) ensures Present(d.entries, h, id) {
      assert Present(w.cache.entries, h, id);
      var e :| e in w.cache.entries && e.segment.hash == h && e.id == id;
      HeldIsCounted(w.requests, i, h, id);
      assert e in d.entries;
    }
  }

  lemma EvictKeepsId(c: Cache, needKv: int, needState: int)
    ensures Evict(c, needKv, needState).nextId == c.nextId
  {
    DropAllKeepsId(c, Victims(Candidates(c), needKv, needState));
  }

  lemma {:induction false} DropAllKeepsId(c: Cache, victims: seq<Entry>)
    ensures DropAll(c, victims).nextId == c.nextId
  {
    if victims != [] { DropAllKeepsId(c, victims[..|victims| - 1]); }
  }

  // ---- Admission ----

  lemma WantedIsHeld(cfg: Config, entries: seq<Entry>, prompt: seq<Segment>, e: Entry)
    requires OneEach(entries) && e in entries
    ensures Wanted(cfg, entries, prompt, e) <==> RefersTo(HitRefs(cfg, entries, prompt), e)
  {
    FindMember(entries, e);
    if RefersTo(HitRefs(cfg, entries, prompt), e) {
      var i: nat :| i < |prompt| && Hit(cfg, entries, prompt, i) && prompt[i].hash == e.segment.hash;
      assert prompt[i] == e.segment;
    }
  }

  lemma LockKeepsOneEach(cfg: Config, entries: seq<Entry>, prompt: seq<Segment>, now: int)
    requires OneEach(entries)
    ensures OneEach(Lock(cfg, entries, prompt, now))
  {
  }

  /** Which entries are present depends on hashes and identities only. */
  lemma SamePresence(a: seq<Entry>, b: seq<Entry>, hash: nat, id: nat)
    requires |a| == |b| && forall k :: 0 <= k < |a| ==> a[k].segment == b[k].segment && a[k].id == b[k].id
    requires Present(a, hash, id)
    ensures Present(b, hash, id)
  {
    var e :| e in a && e.segment.hash == hash && e.id == id;
    var k :| 0 <= k < |a| && a[k] == e;
    assert b[k] in b;
  }

  lemma AdmitCounts(cfg: Config, w: World, prompt: seq<Segment>, now: int, r: Request, k: nat)
    requires Paired(w) && k < |w.cache.entries|
    requires r.stage == Locked && r.refs == HitRefs(cfg, w.cache.entries, prompt)
    ensures var e := Lock(cfg, w.cache.entries, prompt, now)[k];
            e.id < w.cache.nextId && e.locks == Holders(w.requests + [r], e.segment.hash, e.id)
  {
    var f := w.cache.entries[k];
    assert f in w.cache.entries;
    WantedIsHeld(cfg, w.cache.entries, prompt, f);
    HoldersAppend(w.requests, r, f.segment.hash, f.id);
  }

  lemma HitIsPresent(cfg: Config, entries: seq<Entry>, prompt: seq<Segment>, hash: nat)
    requires hash in HitRefs(cfg, entries, prompt)
    ensures Present(entries, hash, HitRefs(cfg, entries, prompt)[hash])
  {
    var i: nat :| i < |prompt| && Hit(cfg, entries, prompt, i) && prompt[i].hash == hash;
    assert entries[Find(entries, hash)] in entries;
  }

  lemma AdmitKeepsPairing(cfg: Config, w: World, prompt: seq<Segment>, now: int, r: Request)
    requires Paired(w) && r.stage == Locked && r.refs == HitRefs(cfg, w.cache.entries, prompt)
    ensures Paired(World(w.cache.(entries := Lock(cfg, w.cache.entries, prompt, now)), w.requests + [r]))
  {
    var a, b := w.cache.entries, Lock(cfg, w.cache.entries, prompt, now);
    LockKeepsOneEach(cfg, a, prompt, now);
    forall k | 0 <= k < |b|
      ensures b[k].id < w.cache.nextId && b[k].locks == Holders(w.requests + [r], b[k].segment.hash, b[k].id)
    {
      AdmitCounts(cfg, w, prompt, now, r, k);
    }
    forall i, h, id | 0 <= i <= |w.requests| && Holds((w.requests + [r])[i], h, id) ensures Present(b, h, id) {
      if i < |w.requests| {
        assert Holds(w.requests[i], h, id);
      } else {
        HitIsPresent(cfg, a, prompt, h);
      }
      SamePresence(a, b, h, id);
    }
  }

  // ---- Changes that touch no reference ----

  lemma SameRefsKeepPairing(w: World, c: Cache, i: nat, r: Request)
    requires Paired(w) && i < |w.requests|
    requires r.stage != Finished && w.requests[i].stage != Finished && r.refs == w.requests[i].refs
    requires c.entries == w.cache.entries && c.nextId == w.cache.nextId
    ensures Paired(World(c, w.requests[i := r]))
  {
    forall e | e in c.entries
      ensures Holders(w.requests[i := r], e.segment.hash, e.id) == Holders(w.requests, e.segment.hash, e.id)
    {
      HoldersUpdate(w.requests, i, r, e.segment.hash, e.id);
    }
    var after := w.requests[i := r];
    forall j, h, id | 0 <= j < |after| && Holds(after[j], h, id) ensures Present(c.entries, h, id) {
      assert Holds(w.requests[j], h, id);
    }
  }

  // ---- Finishing ----

  lemma ReleaseCounts(w: World, i: nat, k: nat)
    requires Paired(w) && i < |w.requests| && w.requests[i].stage != Finished && k < |w.cache.entries|
    ensures var e := Unlock(w.cache.entries, w.requests[i].refs)[k];
            e.locks == Holders(w.requests[i := w.requests[i].(stage := Finished)], e.segment.hash, e.id)
  {
    var r, f := w.requests[i], w.cache.entries[k];
    assert f in w.cache.entries;
    HoldersUpdate(w.requests, i, r.(stage := Finished), f.segment.hash, f.id);
    if Holds(r, f.segment.hash, f.id) { HeldIsCounted(w.requests, i, f.segment.hash, f.id); }
  }

  lemma ReleaseKeepsPairing(cfg: Config, w: World, i: nat)
    requires Paired(w) && i < |w.requests| && w.requests[i].stage != Finished
    ensures Paired(Released(cfg, w, i))
  {
    var a, v := w.cache.entries, Released(cfg, w, i);
    var b := v.cache.entries;
    forall k | 0 <= k < |b| ensures b[k].locks == Holders(v.requests, b[k].segment.hash, b[k].id) && b[k].id < w.cache.nextId {
      assert a[k] in a;
      ReleaseCounts(w, i, k);
    }
    forall j, h, id | 0 <= j < |v.requests| && Holds(v.requests[j], h, id) ensures Present(b, h, id) {
      assert Holds(w.requests[j], h, id);
      SamePresence(a, b, h, id);
    }
  }

  // ---- Registration ----

  /**
  Registering a missing segment keeps locks and references paired: a redundant copy
  must be of an entry the request refers to already, a new entry must be locked for the
  request, and an entry that is overwritten must be in use by no other request.
   */
  predicate CleanOne(cfg: Config, c: Cache, refs: map<nat, nat>, m: Miss) {
    var k := Find(c.entries, m.segment.hash);
    if Matches(c.entries, m.segment) then RefersTo(refs, c.entries[k])
    else cfg.transition && (k < |c.entries| ==> c.entries[k].locks == if RefersTo(refs, c.entries[k]) then 1 else 0)
  }

  lemma RegisterOneKeepsOneEach(cfg: Config, c: Cache, m: Miss, now: int)
    requires OneEach(c.entries) && m.state.Some?
    ensures OneEach(RegisterOne(cfg, c, m, now).entries)
  {
    if !Matches(c.entries, m.segment) { InsertedEntries(cfg, c, m, now); }
  }

  lemma {:induction false} RegisterAllKeepsOneEach(cfg: Config, c: Cache, refs: map<nat, nat>, misses: seq<Miss>, now: int)
    requires OneEach(c.entries) && forall m :: m in misses && m.kind == Cached ==> m.state.Some?
    ensures OneEach(RegisterAll(cfg, c, refs, misses, now).0.entries)
  {
    if misses != [] {
      var front, m := misses[..|misses| - 1], misses[|misses| - 1];
      RegisterAllKeepsOneEach(cfg, c, refs, front, now);
      if m.kind == Cached { RegisterOneKeepsOneEach(cfg, RegisterAll(cfg, c, refs, front, now).0, m, now); }
    }
  }

  function Adopt(r: Request, hash: nat, id: nat): Request { r.(refs := r.refs[hash := id]) }

  function AfterOne(cfg: Config, w: World, i: nat, m: Miss, now: int): World
    requires i < |w.requests| && m.state.Some?
  {
    World(RegisterOne(cfg, w.cache, m, now),
          w.requests[i := Adopt(w.requests[i], m.segment.hash, RegisteredId(w.cache, m))])
  }

  /** Adopting an entry under a hash changes nothing for the other hashes. */
  lemma AdoptElsewhere(requests: seq<Request>, i: nat, hash: nat, id: nat, e: Entry)
    requires i < |requests| && e.segment.hash != hash
    ensures Holders(requests[i := Adopt(requests[i], hash, id)], e.segment.hash, e.id)
         == Holders(requests, e.segment.hash, e.id)
  {
    HoldersUpdate(requests, i, Adopt(requests[i], hash, id), e.segment.hash, e.id);
  }

  /** A live request that adopts an identity nobody holds is its only holder. */
  lemma AdoptNew(requests: seq<Request>, i: nat, hash: nat, id: nat)
    requires i < |requests| && requests[i].stage != Finished
    requires forall j :: 0 <= j < |requests| ==> !Holds(requests[j], hash, id)
    ensures Holders(requests[i := Adopt(requests[i], hash, id)], hash, id) == 1
  {
    NoneHolds(requests, hash, id);
    HoldersUpdate(requests, i, Adopt(requests[i], hash, id), hash, id);
  }

  lemma NextIsUnheld(w: World, hash: nat)
    requires Paired(w)
    ensures forall j :: 0 <= j < |w.requests| ==> !Holds(w.requests[j], hash, w.cache.nextId)
  {
    assert !Present(w.cache.entries, hash, w.cache.nextId);
  }

  /** A redundant copy of an entry the request refers to: only the access time changes. */
  lemma RedundantKeepsPairing(cfg: Config, w: World, i: nat, m: Miss, now: int)
    requires Paired(w) && i < |w.requests| && w.requests[i].stage != Finished && m.state.Some?
    requires Matches(w.cache.entries, m.segment) && CleanOne(cfg, w.cache, w.requests[i].refs, m)
    ensures Paired(AfterOne(cfg, w, i, m, now))
  {
    var a, v := w.cache.entries, AfterOne(cfg, w, i, m, now);
    var b := v.cache.entries;
    assert Adopt(w.requests[i], m.segment.hash, RegisteredId(w.cache, m)).refs == w.requests[i].refs;
    assert v.requests == w.requests;
    forall k | 0 <= k < |b| ensures b[k].id < v.cache.nextId && b[k].locks == Holders(v.requests, b[k].segment.hash, b[k].id) {
      assert a[k] in a;
    }
    forall j, h, id | 0 <= j < |v.requests| && Holds(v.requests[j], h, id) ensures Present(b, h, id) {
      SamePresence(a, b, h, id);
    }
  }

  /** A redundant copy of an entry the request did not refer to: it now does, without a lock. */
  lemma RedundantBreaksPairing(cfg: Config, w: World, i: nat, m: Miss, now: int)
    requires Paired(w) && i < |w.requests| && w.requests[i].stage != Finished && m.state.Some?
    requires Matches(w.cache.entries, m.segment) && !CleanOne(cfg, w.cache, w.requests[i].refs, m)
    ensures !Counted(AfterOne(cfg, w, i, m, now))
  {
    var k := Find(w.cache.entries, m.segment.hash);
    var e, v := w.cache.entries[k], AfterOne(cfg, w, i, m, now);
    assert e in w.cache.entries && v.cache.entries[k] in v.cache.entries;
    HoldersUpdate(w.requests, i, v.requests[i], m.segment.hash, e.id);
  }

  function NewEntry(cfg: Config, c: Cache, m: Miss, now: int): Entry
    requires m.state.Some?
  {
    Entry(c.nextId, m.segment, m.kv, m.state.value, if cfg.transition then 1 else 0, now)
  }

  /** Without a lock of its own, a new entry is held but not counted. */
  lemma UnlockedInsertBreaksPairing(cfg: Config, w: World, i: nat, m: Miss, now: int)
    requires Paired(w) && i < |w.requests| && w.requests[i].stage != Finished && m.state.Some?
    requires !Matches(w.cache.entries, m.segment) && !cfg.transition
    ensures !Counted(AfterOne(cfg, w, i, m, now))
  {
    var k, v := Find(w.cache.entries, m.segment.hash), AfterOne(cfg, w, i, m, now);
    assert v.cache.entries[k] == NewEntry(cfg, w.cache, m, now);
    HeldIsCounted(v.requests, i, m.segment.hash, w.cache.nextId);
  }

  /** The entries of the index after an insertion. */
  lemma InsertedEntries(cfg: Config, c: Cache, m: Miss, now: int)
    requires OneEach(c.entries) && m.state.Some? && !Matches(c.entries, m.segment)
    ensures var d := RegisterOne(cfg, c, m, now);
            && OneEach(d.entries) && NewEntry(cfg, c, m, now) in d.entries && d.nextId == c.nextId + 1
            && (forall e :: e in d.entries ==> e == NewEntry(cfg, c, m, now)
                                               || (e in c.entries && e.segment.hash != m.segment.hash))
            && (forall e :: e in c.entries && e.segment.hash != m.segment.hash ==> e in d.entries)
  {
    var k, d := Find(c.entries, m.segment.hash), RegisterOne(cfg, c, m, now);
    assert d.entries[k] == NewEntry(cfg, c, m, now);
    forall j | 0 <= j < |d.entries| && j != k
      ensures d.entries[j] in c.entries && d.entries[j].segment.hash != m.segment.hash
    {
      assert d.entries[j] == c.entries[j];
    }
    forall e | e in c.entries && e.segment.hash != m.segment.hash ensures e in d.entries {
      var j :| 0 <= j < |c.entries| && c.entries[j] == e;
      assert d.entries[j] == e;
    }
  }

  /** Nobody else holds what an insertion overwrites. */
  ghost predicate FreeOfOthers(w: World, i: nat, hash: nat) {
    forall j, id :: 0 <= j < |w.requests| && j != i ==> !Holds(w.requests[j], hash, id)
  }

  lemma CleanIsFreeOfOthers(cfg: Config, w: World, i: nat, m: Miss)
    requires Paired(w) && i < |w.requests| && w.requests[i].stage != Finished
    requires !Matches(w.cache.entries, m.segment) && CleanOne(cfg, w.cache, w.requests[i].refs, m)
    ensures FreeOfOthers(w, i, m.segment.hash)
  {
    var h := m.segment.hash;
    var k := Find(w.cache.entries, h);
    forall j, id | 0 <= j < |w.requests| && j != i ensures !Holds(w.requests[j], h, id) {
      if Holds(w.requests[j], h, id) {
        assert Present(w.cache.entries, h, id);
        var e :| e in w.cache.entries && e.segment.hash == h && e.id == id;
        FindMember(w.cache.entries, e);
        TwoHolders(w.requests, i, j, h, id);
        assert false;
      }
    }
  }

  lemma TwoHolders(requests: seq<Request>, i: nat, j: nat, hash: nat, id: nat)
    requires i < |requests| && j < |requests| && i != j && Holds(requests[j], hash, id)
    ensures Holders(requests, hash, id) > if Holds(requests[i], hash, id) then 1 else 0
  {
    var gone := requests[i].(stage := Finished);
    HoldersUpdate(requests, i, gone, hash, id);
    HeldIsCounted(requests[i := gone], j, hash, id);
  }

  lemma InsertKeepsPairing(cfg: Config, w: World, i: nat, m: Miss, now: int)
    requires Paired(w) && i < |w.requests| && w.requests[i].stage != Finished && m.state.Some?
    requires !Matches(w.cache.entries, m.segment) && cfg.transition && FreeOfOthers(w, i, m.segment.hash)
    ensures Paired(AfterOne(cfg, w, i, m, now))
  {
    var h, v := m.segment.hash, AfterOne(cfg, w, i, m, now);
    InsertedEntries(cfg, w.cache, m, now);
    NextIsUnheld(w, h);
    AdoptNew(w.requests, i, h, w.cache.nextId);
    forall e | e in v.cache.entries
      ensures e.id < v.cache.nextId && e.locks == Holders(v.requests, e.segment.hash, e.id)
    {
      if e.segment.hash != h { AdoptElsewhere(w.requests, i, h, w.cache.nextId, e); }
    }
    forall j, g, id | 0 <= j < |v.requests| && Holds(v.requests[j], g, id) ensures Present(v.cache.entries, g, id) {
      if g != h {
        assert Holds(w.requests[j], g, id);
        assert Present(w.cache.entries, g, id);
      } else {
        assert j == i;
      }
    }
  }

  /** Overwriting an entry that another live request refers to takes it out of the index. */
  lemma OverwriteBreaksPairing(cfg: Config, w: World, i: nat, m: Miss, now: int)
    requires Paired(w) && i < |w.requests| && w.requests[i].stage != Finished && m.state.Some?
    requires !Matches(w.cache.entries, m.segment) && cfg.transition
    requires !CleanOne(cfg, w.cache, w.requests[i].refs, m)
    ensures !InUseIsPresent(AfterOne(cfg, w, i, m, now))
  {
    var h, v := m.segment.hash, AfterOne(cfg, w, i, m, now);
    var k := Find(w.cache.entries, h);
    var e := w.cache.entries[k];
    assert e in w.cache.entries;
    HoldersUpdate(w.requests, i, v.requests[i], h, e.id);
    if Holds(w.requests[i], h, e.id) { HeldIsCounted(w.requests, i, h, e.id); }
    var j := SomeHolder(v.requests, h, e.id);
    InsertedEntries(cfg, w.cache, m, now);
    assert !Present(v.cache.entries, h, e.id);
  }

  lemma {:induction false} SomeHolder(requests: seq<Request>, hash: nat, id: nat) returns (j: nat)
    requires Holders(requests, hash, id) > 0
    ensures j < |requests| && Holds(requests[j], hash, id)
  {
    j := |requests| - 1;
    if !Holds(requests[j], hash, id) { j := SomeHolder(requests[..j], hash, id); }
  }

  /** The exact condition under which registering one segment keeps locks and references paired. */
  lemma RegisterPairsIff(cfg: Config, w: World, i: nat, m: Miss, now: int)
    requires Paired(w) && i < |w.requests| && w.requests[i].stage != Finished && m.state.Some?
    ensures Paired(AfterOne(cfg, w, i, m, now)) <==> CleanOne(cfg, w.cache, w.requests[i].refs, m)
  {
    if Matches(w.cache.entries, m.segment) {
      if CleanOne(cfg, w.cache, w.requests[i].refs, m) {
        RedundantKeepsPairing(cfg, w, i, m, now);
      } else {
        RedundantBreaksPairing(cfg, w, i, m, now);
      }
    } else if !cfg.transition {
      UnlockedInsertBreaksPairing(cfg, w, i, m, now);
    } else if CleanOne(cfg, w.cache, w.requests[i].refs, m) {
      CleanIsFreeOfOthers(cfg, w, i, m);
      InsertKeepsPairing(cfg, w, i, m, now);
    } else {
      OverwriteBreaksPairing(cfg, w, i, m, now);
    }
  }

  // ---- Whole runs ----

  /** Every segment of a registration is registered cleanly. */
  ghost predicate CleanAll(cfg: Config, c: Cache, refs: map<nat, nat>, misses: seq<Miss>, now: int)
    requires forall m :: m in misses && m.kind == Cached ==> m.state.Some?
  {
    misses == [] ||
    var front, m := misses[..|misses| - 1], misses[|misses| - 1];
    var done := RegisterAll(cfg, c, refs, front, now);
    CleanAll(cfg, c, refs, front, now) && (m.kind == Cached ==> CleanOne(cfg, done.0, done.1, m))
  }

  function AfterAll(cfg: Config, w: World, i: nat, misses: seq<Miss>, now: int): World
    requires i < |w.requests| && forall m :: m in misses && m.kind == Cached ==> m.state.Some?
  {
    var done := RegisterAll(cfg, w.cache, w.requests[i].refs, misses, now);
    World(done.0, w.requests[i := w.requests[i].(refs := done.1)])
  }

  lemma AfterAllUnfolds(cfg: Config, w: World, i: nat, misses: seq<Miss>, now: int)
    requires i < |w.requests| && misses != [] && forall m :: m in misses && m.kind == Cached ==> m.state.Some?
    ensures var v, m := AfterAll(cfg, w, i, misses[..|misses| - 1], now), misses[|misses| - 1];
            AfterAll(cfg, w, i, misses, now) == if m.kind == Cached then AfterOne(cfg, v, i, m, now) else v
  {
    var front, m := misses[..|misses| - 1], misses[|misses| - 1];
    var done, all := RegisterAll(cfg, w.cache, w.requests[i].refs, front, now),
                     RegisterAll(cfg, w.cache, w.requests[i].refs, misses, now);
    var r := w.requests[i];
    if m.kind == Cached {
      assert w.requests[i := r.(refs := done.1)][i := r.(refs := all.1)] == w.requests[i := r.(refs := all.1)];
    }
  }

  lemma {:induction false} RegisterAllPairs(cfg: Config, w: World, i: nat, misses: seq<Miss>, now: int)
    requires Paired(w) && i < |w.requests| && w.requests[i].stage != Finished
    requires forall m :: m in misses && m.kind == Cached ==> m.state.Some?
    requires CleanAll(cfg, w.cache, w.requests[i].refs, misses, now)
    ensures Paired(AfterAll(cfg, w, i, misses, now))
  {
    if misses == [] {
      assert w.requests[i := w.requests[i].(refs := w.requests[i].refs)] == w.requests;
    } else {
      var front, m := misses[..|misses| - 1], misses[|misses| - 1];
      RegisterAllPairs(cfg, w, i, front, now);
      AfterAllUnfolds(cfg, w, i, misses, now);
      if m.kind == Cached { RegisterPairsIff(cfg, AfterAll(cfg, w, i, front, now), i, m, now); }
    }
  }

  lemma RegisteredPairs(cfg: Config, w: World, i: nat, now: int)
    requires Paired(w) && i < |w.requests| && w.requests[i].stage != Finished && Granted(w.requests[i].misses)
    requires CleanAll(cfg, w.cache, w.requests[i].refs, w.requests[i].misses, now)
    ensures Paired(Registered(cfg, w, i, now))
  {
    var r := w.requests[i];
    RegisterAllPairs(cfg, w, i, r.misses, now);
    var v := AfterAll(cfg, w, i, r.misses, now);
    var after := Registered(cfg, w, i, now);
    SameRefsKeepPairing(v, after.cache, i, after.requests[i]);
    assert v.requests[i := after.requests[i]] == after.requests;
  }

  /** A step that registers does so cleanly. */
  ghost predicate CleanStep(cfg: Config, w: World, step: Step)
    requires WellFormed(w) && Enabled(cfg, w, step)
  {
    match step
    case Register(i, now) => CleanAll(cfg, w.cache, w.requests[i].refs, w.requests[i].misses, now)
    case Finish(i, insert, now) =>
      insert ==> CleanAll(cfg, w.cache, w.requests[i].refs, w.requests[i].misses, now)
    case _ => true
  }

  lemma PairedStep(cfg: Config, w: World, step: Step)
    requires Paired(w) && WellFormed(w) && Enabled(cfg, w, step) && CleanStep(cfg, w, step)
    ensures Paired(Apply(cfg, w, step))
  {
    match step
    case Admit(prompt, now) =>
      AdmitKeepsPairing(cfg, w, prompt, now, Apply(cfg, w, step).requests[|w.requests|]);
    case Alloc(i, misses, own) =>
      var v := Apply(cfg, w, step);
      SameRefsKeepPairing(w, v.cache, i, v.requests[i]);
    case Register(i, now) => RegisteredPairs(cfg, w, i, now);
    case Decode(i, slots) =>
      var v := Apply(cfg, w, step);
      SameRefsKeepPairing(w, v.cache, i, v.requests[i]);
    case Finish(i, insert, now) =>
      if insert { RegisteredPairs(cfg, w, i, now); }
      ReleaseKeepsPairing(cfg, if insert then Registered(cfg, w, i, now) else w, i);
    case Reclaim(needKv, needState) => EvictKeepsPairing(w, needKv, needState);
  }

  /** A run in which every registration is clean. */
  ghost predicate CleanRun(cfg: Config, w: World, steps: seq<Step>, end: World)
    decreases |steps|
  {
    if steps == [] then end == w
    else
      && WellFormed(w) && Enabled(cfg, w, steps[0]) && CleanStep(cfg, w, steps[0])
      && CleanRun(cfg, Apply(cfg, w, steps[0]), steps[1..], end)
  }

  /** In every clean run, an entry has exactly one lock per live request that refers to it. */
  lemma {:induction false} PairedRun(cfg: Config, w: World, steps: seq<Step>, end: World)
    requires Paired(w) && CleanRun(cfg, w, steps, end)
    ensures Paired(end)
    decreases |steps|
  {
    if steps != [] {
      PairedStep(cfg, w, steps[0]);
      PairedRun(cfg, Apply(cfg, w, steps[0]), steps[1..], end);
    }
  }

  // ---- The same as an equivalence ----

  /** Locks and references are paired after each segment of a registration. */
  ghost predicate PairedAlong(cfg: Config, w: World, i: nat, misses: seq<Miss>, now: int)
    requires i < |w.requests| && forall m :: m in misses && m.kind == Cached ==> m.state.Some?
  {
    && (misses != [] ==> PairedAlong(cfg, w, i, misses[..|misses| - 1], now))
    && Paired(AfterAll(cfg, w, i, misses, now))
  }

  lemma {:induction false} PairedAlongIff(cfg: Config, w: World, i: nat, misses: seq<Miss>, now: int)
    requires Paired(w) && i < |w.requests| && w.requests[i].stage != Finished
    requires forall m :: m in misses && m.kind == Cached ==> m.state.Some?
    ensures PairedAlong(cfg, w, i, misses, now) <==> CleanAll(cfg, w.cache, w.requests[i].refs, misses, now)
  {
    if misses == [] {
      assert w.requests[i := w.requests[i].(refs := w.requests[i].refs)] == w.requests;
    } else {
      var front, m := misses[..|misses| - 1], misses[|misses| - 1];
      PairedAlongIff(cfg, w, i, front, now);
      if CleanAll(cfg, w.cache, w.requests[i].refs, front, now) {
        RegisterAllPairs(cfg, w, i, front, now);
        AfterAllUnfolds(cfg, w, i, misses, now);
        if m.kind == Cached { RegisterPairsIff(cfg, AfterAll(cfg, w, i, front, now), i, m, now); }
      }
    }
  }

  ghost predicate PairedInStep(cfg: Config, w: World, step: Step)
    requires WellFormed(w) && Enabled(cfg, w, step)
  {
    && (step.Register? || (step.Finish? && step.insert) ==>
          PairedAlong(cfg, w, step.i, w.requests[step.i].misses, step.now))
    && Paired(Apply(cfg, w, step))
  }

  lemma PairedInStepIff(cfg: Config, w: World, step: Step)
    requires Paired(w) && WellFormed(w) && Enabled(cfg, w, step)
    ensures PairedInStep(cfg, w, step) <==> CleanStep(cfg, w, step)
  {
    if step.Register? || (step.Finish? && step.insert) {
      PairedAlongIff(cfg, w, step.i, w.requests[step.i].misses, step.now);
    }
    if CleanStep(cfg, w, step) { PairedStep(cfg, w, step); }
  }

  /** Locks and references are paired in every state of the run, and within its registrations. */
  ghost predicate PairedThroughout(cfg: Config, w: World, steps: seq<Step>, end: World)
    requires Run(cfg, w, steps, end)
    decreases |steps|
  {
    steps == [] ||
    (PairedInStep(cfg, w, steps[0]) && PairedThroughout(cfg, Apply(cfg, w, steps[0]), steps[1..], end))
  }

  /** A run keeps one lock per live user throughout if and only if every registration is clean. */
  lemma {:induction false} PairedThroughoutIff(cfg: Config, w: World, steps: seq<Step>, end: World)
    requires Paired(w) && Run(cfg, w, steps, end)
    ensures PairedThroughout(cfg, w, steps, end) <==> CleanRun(cfg, w, steps, end)
    decreases |steps|
  {
    if steps != [] {
      PairedInStepIff(cfg, w, steps[0]);
      if CleanStep(cfg, w, steps[0]) {
        PairedStep(cfg, w, steps[0]);
        PairedThroughoutIff(cfg, Apply(cfg, w, steps[0]), steps[1..], end);
      }
    }
  }

  /** Then no eviction takes an entry that a live request refers to. */
  lemma EvictionSparesTheUsed(cfg: Config, w: World, steps: seq<Step>, end: World, needKv: int, needState: int,
                              i: nat, e: Entry)
    requires Paired(w) && CleanRun(cfg, w, steps, end)
    requires i < |end.requests| && e in end.cache.entries && Holds(end.requests[i], e.segment.hash, e.id)
    ensures e in Evict(end.cache, needKv, needState).entries
  {
    PairedRun(cfg, w, steps, end);
    HeldIsCounted(end.requests, i, e.segment.hash, e.id);
    EvictTakesUnlocked(end.cache, needKv, needState);
  }

  /** And once all requests have finished, nothing is locked. */
  lemma QuietIsUnlocked(cfg: Config, w: World, steps: seq<Step>, end: World, e: Entry)
    requires Paired(w) && CleanRun(cfg, w, steps, end) && e in end.cache.entries
    requires forall i :: 0 <= i < |end.requests| ==> end.requests[i].stage == Finished
    ensures e.locks == 0
  {
    PairedRun(cfg, w, steps, end);
    NoneHolds(end.requests, e.segment.hash, e.id);
  }

  lemma RegisteredSingle(cfg: Config, w: World, i: nat, m: Miss, now: int)
    requires i < |w.requests| && w.requests[i].misses == [m] && m.kind == Cached && m.state.Some?
    ensures var v, u := Registered(cfg, w, i, now), AfterOne(cfg, w, i, m, now);
            && v.cache.entries == u.cache.entries && |v.requests| == |w.requests|
            && v.requests[i].refs == u.requests[i].refs
            && forall j :: 0 <= j < |w.requests| && j != i ==> v.requests[j] == w.requests[j]
  {
    assert RegisterAll(cfg, w.cache, w.requests[i].refs, [m][..0], now) == (w.cache, w.requests[i].refs);
  }

  /**
  What an unclean registration leads to, from any state in which locks and references
  are paired: a request whose segment is in the index, held by one other live request,
  finishes, and leaves the entry without a lock while the other still refers to it.
   */
  lemma DuplicateStealsLock(cfg: Config, w: World, i: nat, j: nat, m: Miss, now: int)
    requires Paired(w) && WellFormed(w) && i < |w.requests| && j < |w.requests| && i != j
    requires w.requests[i].stage == Running && w.requests[i].misses == [m] && m.kind == Cached
    requires Matches(w.cache.entries, m.segment)
    requires var e := w.cache.entries[Find(w.cache.entries, m.segment.hash)];
             e.locks == 1 && Holds(w.requests[j], e.segment.hash, e.id)
    ensures var v := Apply(cfg, w, Finish(i, true, now));
            exists f :: f in Candidates(v.cache) && f.segment == m.segment && Holds(v.requests[j], f.segment.hash, f.id)
  {
    assert m in w.requests[i].misses;
    StolenEntry(cfg, w, i, m, now);
    var v := Apply(cfg, w, Finish(i, true, now));
    var f := v.cache.entries[Find(w.cache.entries, m.segment.hash)];
    CandidateMembers(v.cache, f);
    assert Holds(v.requests[j], f.segment.hash, f.id);
  }

  lemma StolenEntry(cfg: Config, w: World, i: nat, m: Miss, now: int)
    requires i < |w.requests| && w.requests[i].misses == [m] && m.kind == Cached && m.state.Some?
    requires Matches(w.cache.entries, m.segment)
    requires w.cache.entries[Find(w.cache.entries, m.segment.hash)].locks == 1
    ensures var k, v := Find(w.cache.entries, m.segment.hash), Released(cfg, Registered(cfg, w, i, now), i);
            && |v.cache.entries| == |w.cache.entries| && v.cache.entries[k].locks == 0
            && v.cache.entries[k].segment == m.segment && v.cache.entries[k].id == w.cache.entries[k].id
            && |v.requests| == |w.requests|
            && forall j :: 0 <= j < |w.requests| && j != i ==> v.requests[j] == w.requests[j]
  {
    RegisteredSingle(cfg, w, i, m, now);
    var u := Registered(cfg, w, i, now);
    assert RefersTo(u.requests[i].refs, u.cache.entries[Find(w.cache.entries, m.segment.hash)]);
  }
}
