/** The segment cache as the object that the scheduler updates in place. */
module PicCacheObject {
  import opened Sorting
  import opened Indices
  import opened PicCache
  import opened PicEviction
  import opened PicLocks

  class PICache {
    const cfg: Config
    var entries: seq<Entry>
    var free: multiset<Slot>
    var nextId: nat
    var busy: Counts
    ghost var lost: multiset<Slot>

    ghost function Now(): Cache
      reads this
    {
      Cache(entries, free, nextId, lost, busy)
    }

    ghost predicate Valid()
      reads this
    {
      OneEach(entries)
    }

    constructor (cfg: Config, slots: multiset<Slot>)
      ensures Valid() && Now() == Cache([], slots, 0, multiset{}, Counts(0, 0)) && this.cfg == cfg
    {
      this.cfg, entries, free, nextId, lost, busy := cfg, [], slots, 0, multiset{}, Counts(0, 0);
    }

    /** `_match_segment`: a hit is read, a miss leaves the cache alone. */
    method MatchSegment(s: Segment, now: int) returns (k: nat)
      modifies this`entries
      ensures k <= |old(entries)| && (k < |old(entries)| <==> Matches(old(entries), s))
      ensures k < |old(entries)| ==> k == Find(old(entries), s.hash)
      ensures entries == if k < |old(entries)| then old(entries)[k := old(entries)[k].(access := now)] else old(entries)
    {
      k := Find(entries, s.hash);
      if k < |entries| {
        if entries[k].segment != s { return |entries|; }
        entries := entries[k := entries[k].(access := now)];
      }
    }

    /**
    `_insert_segment`: the entry that matches, or a new one without locks, which takes
    the place of an entry under the same hash.
     */
    method InsertSegment(s: Segment, kv: seq<Slot>, state: Slot, now: int) returns (k: nat)
      modifies this`entries, this`nextId, this`lost
      ensures k == Find(old(entries), s.hash) < |entries|
      ensures Matches(old(entries), s) ==>
        && entries == old(entries)[k := old(entries)[k].(access := now)]
        && nextId == old(nextId) && lost == old(lost)
      ensures !Matches(old(entries), s) ==>
        && entries == old(entries)[..k] + [Entry(old(nextId), s, kv, state, 0, now)] + After(old(entries), k)
        && nextId == old(nextId) + 1
        && lost == old(lost) + if k < |old(entries)| then old(entries)[k].Footprint() else multiset{}
    {
      k := MatchSegment(s, now);
      if k < |entries| { return; }
      var e := Entry(nextId, s, kv, state, 0, now);
      k := Find(entries, s.hash);
      if k < |entries| {
        lost := lost + entries[k].Footprint();
        entries := entries[k := e];
      } else {
        entries := entries + [e];
      }
      nextId := nextId + 1;
    }

    /** A new entry is locked if the mode says so. */
    method InsertAndLock(m: Miss, now: int) returns (id: nat)
      requires m.state.Some? && !Matches(entries, m.segment)
      modifies this`entries, this`nextId, this`lost
      ensures Now() == RegisterOne(cfg, old(Now()), m, now) && id == old(nextId)
    {
      id := nextId;
      var k := InsertSegment(m.segment, m.kv, m.state.value, now);
      InsertedAt(cfg, old(Now()), m, now, entries, k);
      if cfg.transition {
        entries := entries[k := entries[k].(locks := entries[k].locks + 1)];
      }
    }

    /** One round of the loop of `cache_unfinished_req`. */
    method RegisterSegment(m: Miss, now: int) returns (id: nat)
      requires m.state.Some?
      modifies this`entries, this`nextId, this`lost, this`free
      ensures Now() == RegisterOne(cfg, old(Now()), m, now) && id == RegisteredId(old(Now()), m)
    {
      var k := MatchSegment(m.segment, now);
      if k < |entries| {
        free := free + m.Footprint();
        id := entries[k].id;
      } else {
        id := InsertAndLock(m, now);
      }
    }

    method RegisterMisses(refs: map<nat, nat>, misses: seq<Miss>, now: int) returns (after: map<nat, nat>)
      requires forall m :: m in misses && m.kind == Cached ==> m.state.Some?
      modifies this`entries, this`nextId, this`lost, this`free
      ensures (Now(), after) == RegisterAll(cfg, old(Now()), refs, misses, now)
    {
      after := refs;
      for i := 0 to |misses|
        invariant (Now(), after) == RegisterAll(cfg, old(Now()), refs, misses[..i], now)
      {
        assert misses[..i + 1][..i] == misses[..i];
        if misses[i].kind == Cached {
          var id := RegisterSegment(misses[i], now);
          after := after[misses[i].segment.hash := id];
        }
      }
      assert misses[..|misses|] == misses;
    }

    /** `cache_unfinished_req`: in the transition modes the in-flight counters are handed over. */
    method CacheUnfinishedReq(r: Request, now: int) returns (after: Request)
      requires Granted(r.misses)
      modifies this
      ensures World(Now(), [after]) == Registered(cfg, World(old(Now()), [r]), 0, now)
    {
      var refs := RegisterMisses(r.refs, r.misses, now);
      if cfg.transition {
        busy := busy.Minus(CountOf(r.misses, {Cached}));
      }
      after := r.(refs := refs, rounds := r.rounds + 1);
    }

    /** One lock of the entry under `hash`, if it is still the one referred to. */
    method ReleaseOne(hash: nat, id: nat) returns (delta: int)
      requires Valid()
      modifies this`entries
      ensures entries == Unlock(old(entries), map[hash := id]) && Valid()
      ensures AllLocks(entries) == AllLocks(old(entries)) + delta
    {
      delta := 0;
      var k := Find(entries, hash);
      UnlockOne(entries, hash, id, k);
      if k < |entries| && entries[k].id == id && entries[k].locks > 0 {
        AllLocksUpdate(entries, k, LessOne(entries[k]));
        entries := entries[k := LessOne(entries[k])];
        delta := -1;
      }
    }

    /** `dec_lock_ref`: returns how many locks were given up, as a negative number. */
    method DecLockRef(refs: map<nat, nat>) returns (delta: int)
      requires Valid()
      modifies this`entries
      ensures entries == Unlock(old(entries), refs) && Valid()
      ensures AllLocks(entries) == AllLocks(old(entries)) + delta
    {
      delta := 0;
      var left := refs.Keys;
      NothingDone(entries, refs);
      while left != {}
        invariant left <= refs.Keys && Valid() && entries == Unlock(old(entries), refs - left)
        invariant AllLocks(entries) == AllLocks(old(entries)) + delta
        decreases left
      {
        var h :| h in left;
        UnlockStep(old(entries), refs, left, h);
        var d := ReleaseOne(h, refs[h]);
        delta := delta + d;
        left := left - {h};
      }
      assert refs - {} == refs;
    }

    /** The slots of the query and of the segments too short to cache. */
    method FreeUncached(misses: seq<Miss>)
      modifies this`free
      ensures free == old(free) + SlotsOf(misses, {Query, Brief})
    {
      for i := 0 to |misses|
        invariant free == old(free) + SlotsOf(misses[..i], {Query, Brief})
      {
        assert misses[..i + 1][..i] == misses[..i];
        if misses[i].kind in {Query, Brief} { free := free + misses[i].Footprint(); }
      }
      assert misses[..|misses|] == misses;
    }

    method CacheFinishedReq(r: Request, insert: bool, now: int) returns (after: Request)
      requires Valid() && Granted(r.misses)
      modifies this
      ensures Valid()
      ensures var w := World(old(Now()), [r]);
              World(Now(), [after]) == Released(cfg, if insert then Registered(cfg, w, 0, now) else w, 0)
    {
      after := r;
      if insert {
        RegisterAllKeepsOneEach(cfg, Now(), r.refs, r.misses, now);
        after := CacheUnfinishedReq(r, now);
      }
      ghost var middle := World(Now(), [after]);
      assert middle == if insert then Registered(cfg, World(old(Now()), [r]), 0, now) else World(old(Now()), [r]);
      after := Release(after);
    }

    /** The rest of `cache_finished_req`: what the request still has is given up. */
    method Release(r: Request) returns (after: Request)
      requires Valid()
      modifies this
      ensures Valid() && World(Now(), [after]) == Released(cfg, World(old(Now()), [r]), 0)
    {
      busy := busy.Minus(CountOf(r.misses, if cfg.transition then {Query, Brief} else ALL_KINDS));
      FreeUncached(r.misses);
      free := free + r.decoded;
      var delta := DecLockRef(r.refs);
      after := r.(stage := Finished);
    }

    method DropEntry(hash: nat)
      modifies this
      ensures Now() == Drop(old(Now()), hash)
    {
      var k := Find(entries, hash);
      if k < |entries| {
        free := free + entries[k].Footprint();
        entries := RemoveAt(entries, k);
      }
    }

    /** The loop of `evict` over the sorted candidates. */
    method EvictFrom(queue: seq<Entry>, needKv: int, needState: int) returns (evictedKv: nat, evictedState: nat)
      modifies this
      ensures Now() == DropAll(old(Now()), Victims(queue, needKv, needState))
      ensures evictedKv == KvOf(Victims(queue, needKv, needState))
      ensures evictedState == |Victims(queue, needKv, needState)|
    {
      evictedKv, evictedState := 0, 0;
      ghost var victims := Victims(queue, needKv, needState);
      StopsAtVictims(queue, needKv, needState, 0);
      var i := 0;
      while i < |queue| && !(evictedKv >= needKv && evictedState >= needState)
        invariant i == evictedState <= |victims| <= |queue| && evictedKv == KvOf(victims[..i])
        invariant Now() == DropAll(old(Now()), victims[..i])
        decreases |queue| - i
      {
        StopsAtVictims(queue, needKv, needState, i);
        QueueStep(old(Now()), victims, i);
        DropEntry(queue[i].segment.hash);
        evictedKv, evictedState, i := evictedKv + |queue[i].kv|, evictedState + 1, i + 1;
      }
      StopsAtVictims(queue, needKv, needState, i);
      assert victims[..i] == victims;
    }

    /** `evict`: returns the KV slots and the state slots that were freed. */
    method Evict(needKv: int, needState: int) returns (evictedKv: nat, evictedState: nat)
      requires Valid()
      modifies this
      ensures Now() == PicCache.Evict(old(Now()), needKv, needState) && Valid()
      ensures evictedKv == KvOf(Victims(Candidates(old(Now())), needKv, needState))
      ensures evictedState == |Victims(Candidates(old(Now())), needKv, needState)|
    {
      EvictTakesUnlocked(Now(), needKv, needState);
      if needKv <= 0 && needState <= 0 { return 0, 0; }
      ghost var c := Now();
      var queue := SortBy((e: Entry) => e.access, Unlocked(entries));
      assert queue == Candidates(c);
      evictedKv, evictedState := EvictFrom(queue, needKv, needState);
    }
  }

  /** The entries that follow position `k`. */
  function After(entries: seq<Entry>, k: nat): seq<Entry> {
    if k < |entries| then entries[k + 1..] else []
  }

  /** Inserting an unlocked entry and then locking it is one registration. */
  lemma InsertedAt(cfg: Config, c: Cache, m: Miss, now: int, entries: seq<Entry>, k: nat)
    requires m.state.Some? && !Matches(c.entries, m.segment) && k == Find(c.entries, m.segment.hash) < |entries|
    requires entries == c.entries[..k] + [Entry(c.nextId, m.segment, m.kv, m.state.value, 0, now)] + After(c.entries, k)
    ensures RegisterOne(cfg, c, m, now).entries
         == if cfg.transition then entries[k := entries[k].(locks := entries[k].locks + 1)] else entries
  {
  }

  function AllLocks(entries: seq<Entry>): nat {
    if entries == [] then 0 else AllLocks(entries[..|entries| - 1]) + entries[|entries| - 1].locks
  }

  lemma {:induction false} AllLocksUpdate(entries: seq<Entry>, k: nat, e: Entry)
    requires k < |entries|
    ensures AllLocks(entries[k := e]) + entries[k].locks == AllLocks(entries) + e.locks
  {
    var n := |entries| - 1;
    if k < n {
      AllLocksUpdate(entries[..n], k, e);
      assert entries[k := e][..n] == entries[..n][k := e];
    } else {
      assert entries[k := e][..n] == entries[..n];
    }
  }

  lemma QueueStep(c: Cache, queue: seq<Entry>, i: nat)
    requires i < |queue|
    ensures DropAll(c, queue[..i + 1]) == Drop(DropAll(c, queue[..i]), queue[i].segment.hash)
    ensures KvOf(queue[..i + 1]) == KvOf(queue[..i]) + |queue[i].kv|
  {
    assert queue[..i + 1][..i] == queue[..i];
  }

  /** The loop condition holds exactly while there are victims left. */
  lemma StopsAtVictims(queue: seq<Entry>, needKv: int, needState: int, i: nat)
    requires i <= |Victims(queue, needKv, needState)|
    ensures var v := Victims(queue, needKv, needState);
            && v <= queue
            && (i < |v| <==> i < |queue| && !(KvOf(v[..i]) >= needKv && i >= needState))
  {
    var v := Victims(queue, needKv, needState);
    VictimsAreEnough(queue, needKv, needState);
    if i < |v| {
      VictimsAreNeeded(queue, needKv, needState, i);
    } else {
      assert v[..i] == v;
    }
  }

  function LessOne(e: Entry): Entry
    requires e.locks > 0
  {
    e.(locks := e.locks - 1)
  }

  /** Unlocking through a single reference touches at most the entry under its hash. */
  lemma UnlockOne(entries: seq<Entry>, hash: nat, id: nat, k: nat)
    requires OneEach(entries) && k == Find(entries, hash)
    ensures OneEach(Unlock(entries, map[hash := id]))
    ensures Unlock(entries, map[hash := id])
         == if k < |entries| && entries[k].id == id && entries[k].locks > 0 then entries[k := LessOne(entries[k])] else entries
  {
  }

  lemma NothingDone(entries: seq<Entry>, refs: map<nat, nat>)
    ensures Unlock(entries, refs - refs.Keys) == entries
  {
  }

  lemma UnlockStep(entries: seq<Entry>, refs: map<nat, nat>, left: set<nat>, h: nat)
    requires h in left && left <= refs.Keys
    ensures Unlock(Unlock(entries, refs - left), map[h := refs[h]]) == Unlock(entries, refs - (left - {h}))
  {
  }
}
