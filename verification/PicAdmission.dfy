/**
What becomes of the segments of a prompt, said of the prompt and the index alone: which
entries an admission refers to and locks, which segments it leaves to be computed, what a
registration puts into the index, and what a finished request gives back
(python/sglang/srt/pic/picache.py, python/sglang/srt/managers/schedule_batch.py).
 */
module PicAdmission {
  import opened Wrappers
  import opened Indices
  import opened PicCache
  import opened PicEviction
  import opened PicLocks

  predicate LongEnough(cfg: Config, s: Segment) { cfg.minTokens <= 0 || |s.tokens| >= cfg.minTokens }

  /** Segment `i` of the prompt is looked up, and `s` is what it looks for. */
  predicate Asks(cfg: Config, prompt: seq<Segment>, i: nat, s: Segment) {
    i + 1 < |prompt| && LongEnough(cfg, prompt[i]) && prompt[i] == s
  }

  ghost predicate Asked(cfg: Config, prompt: seq<Segment>, s: Segment) {
    exists i: nat :: Asks(cfg, prompt, i, s)
  }

  /** Segment `i` is in the index. */
  ghost predicate Served(cfg: Config, entries: seq<Entry>, prompt: seq<Segment>, i: nat) {
    exists e :: e in entries && Asks(cfg, prompt, i, e.segment)
  }

  // ---- Admission ----

  lemma HitIff(cfg: Config, entries: seq<Entry>, prompt: seq<Segment>, i: nat)
    requires OneEach(entries) && i < |prompt|
    ensures Hit(cfg, entries, prompt, i) <==> Served(cfg, entries, prompt, i)
  {
    var k := Find(entries, prompt[i].hash);
    if Hit(cfg, entries, prompt, i) {
      assert entries[k] in entries && Asks(cfg, prompt, i, entries[k].segment);
    }
    if Served(cfg, entries, prompt, i) {
      var e :| e in entries && Asks(cfg, prompt, i, e.segment);
      FindMember(entries, e);
    }
  }

  lemma WantedIff(cfg: Config, entries: seq<Entry>, prompt: seq<Segment>, e: Entry)
    requires OneEach(entries) && e in entries
    ensures Wanted(cfg, entries, prompt, e) <==> Asked(cfg, prompt, e.segment)
  {
    if Wanted(cfg, entries, prompt, e) {
      var i: nat :| i < |prompt| && Hit(cfg, entries, prompt, i) && prompt[i] == e.segment;
      assert Asks(cfg, prompt, i, e.segment);
    }
    if Asked(cfg, prompt, e.segment) {
      var i: nat :| Asks(cfg, prompt, i, e.segment);
      HitIff(cfg, entries, prompt, i);
    }
  }

  lemma {:induction false} MissesAre(cfg: Config, entries: seq<Entry>, prompt: seq<Segment>, from: nat)
    requires from <= |prompt|
    ensures Ascending(Misses(cfg, entries, prompt, from))
    ensures forall i: nat :: i in Misses(cfg, entries, prompt, from) <==>
      from <= i < |prompt| && !Hit(cfg, entries, prompt, i)
    decreases |prompt| - from
  {
    if from < |prompt| {
      MissesAre(cfg, entries, prompt, from + 1);
      var rest := Misses(cfg, entries, prompt, from + 1);
      assert forall k :: 0 <= k < |rest| ==> rest[k] in rest;
    }
  }

  lemma RefsAre(cfg: Config, entries: seq<Entry>, prompt: seq<Segment>)
    requires OneEach(entries)
    ensures forall e :: e in entries ==> (RefersTo(HitRefs(cfg, entries, prompt), e) <==> Asked(cfg, prompt, e.segment))
    ensures forall h :: h in HitRefs(cfg, entries, prompt) ==>
      exists e :: e in entries && e.segment.hash == h && e.id == HitRefs(cfg, entries, prompt)[h]
  {
    var refs := HitRefs(cfg, entries, prompt);
    forall e | e in entries ensures RefersTo(refs, e) <==> Asked(cfg, prompt, e.segment) {
      RefersIff(cfg, entries, prompt, e);
    }
    forall h | h in refs ensures exists e :: e in entries && e.segment.hash == h && e.id == refs[h] {
      assert entries[Find(entries, h)] in entries;
    }
  }

  lemma RefersIff(cfg: Config, entries: seq<Entry>, prompt: seq<Segment>, e: Entry)
    requires OneEach(entries) && e in entries
    ensures RefersTo(HitRefs(cfg, entries, prompt), e) <==> Asked(cfg, prompt, e.segment)
  {
    FindMember(entries, e);
    if RefersTo(HitRefs(cfg, entries, prompt), e) {
      var i: nat :| i < |prompt| && Hit(cfg, entries, prompt, i) && prompt[i].hash == e.segment.hash;
      assert Asks(cfg, prompt, i, e.segment);
    }
    if Asked(cfg, prompt, e.segment) {
      var i: nat :| Asks(cfg, prompt, i, e.segment);
      HitIff(cfg, entries, prompt, i);
    }
  }

  /**
  An admission: the new request refers to exactly the entries that hold a segment of its
  prompt other than the last one, if that segment is long enough; exactly those entries get
  one more lock and are read; and the request waits for all other segments, in order.
   */
  lemma AdmitIs(cfg: Config, w: World, prompt: seq<Segment>, now: int)
    requires WellFormed(w) && Ready(cfg, w) && prompt != []
    ensures var v, n := Apply(cfg, w, Admit(prompt, now)), |w.requests|;
            && |v.requests| == n + 1 && v.requests[..n] == w.requests
            && v.cache == w.cache.(entries := v.cache.entries) && |v.cache.entries| == |w.cache.entries|
            && (forall k :: 0 <= k < |w.cache.entries| ==>
                  var e := w.cache.entries[k];
                  v.cache.entries[k] == if Asked(cfg, prompt, e.segment) then e.(locks := e.locks + 1, access := now) else e)
    ensures var r := Apply(cfg, w, Admit(prompt, now)).requests[|w.requests|];
            && r.stage == Locked && r.prompt == prompt
            && (forall e :: e in w.cache.entries ==> (RefersTo(r.refs, e) <==> Asked(cfg, prompt, e.segment)))
            && (forall h :: h in r.refs ==> exists e :: e in w.cache.entries && e.segment.hash == h && e.id == r.refs[h])
    ensures var r := Apply(cfg, w, Admit(prompt, now)).requests[|w.requests|];
            && Ascending(r.wanted)
            && forall i: nat :: i in r.wanted <==> i < |prompt| && !Served(cfg, w.cache.entries, prompt, i)
  {
    var v := Apply(cfg, w, Admit(prompt, now));
    forall k | 0 <= k < |w.cache.entries|
      ensures Wanted(cfg, w.cache.entries, prompt, w.cache.entries[k]) <==> Asked(cfg, prompt, w.cache.entries[k].segment)
    {
      WantedIff(cfg, w.cache.entries, prompt, w.cache.entries[k]);
    }
    RefsAre(cfg, w.cache.entries, prompt);
    MissesAre(cfg, w.cache.entries, prompt, 0);
    forall i: nat | i < |prompt|
      ensures Hit(cfg, w.cache.entries, prompt, i) <==> Served(cfg, w.cache.entries, prompt, i)
    {
      HitIff(cfg, w.cache.entries, prompt, i);
    }
  }

  // ---- One entry for each hash, in every run ----

  lemma OneEachStep(cfg: Config, w: World, step: Step)
    requires WellFormed(w) && OneEach(w.cache.entries) && Enabled(cfg, w, step)
    ensures OneEach(Apply(cfg, w, step).cache.entries)
  {
    match step
    case Admit(prompt, now) => LockKeepsOneEach(cfg, w.cache.entries, prompt, now);
    case Register(i, now) => RegisterAllKeepsOneEach(cfg, w.cache, w.requests[i].refs, w.requests[i].misses, now);
    case Finish(i, insert, now) =>
      if insert { RegisterAllKeepsOneEach(cfg, w.cache, w.requests[i].refs, w.requests[i].misses, now); }
    case Reclaim(needKv, needState) => EvictTakesUnlocked(w.cache, needKv, needState);
    case _ =>
  }

  // ---- What is in the index under a hash ----

  function Under(entries: seq<Entry>, hash: nat): Option<Entry> {
    var k := Find(entries, hash);
    if k < |entries| then Some(entries[k]) else None
  }

  lemma FindIs(entries: seq<Entry>, hash: nat, k: nat)
    requires k <= |entries| && forall i :: 0 <= i < k ==> entries[i].segment.hash != hash
    requires k < |entries| ==> entries[k].segment.hash == hash
    ensures Find(entries, hash) == k
  {
  }

  lemma UnderUpdate(entries: seq<Entry>, k: nat, e: Entry, hash: nat)
    requires k == Find(entries, e.segment.hash) && k < |entries|
    ensures Under(entries[k := e], hash) == if hash == e.segment.hash then Some(e) else Under(entries, hash)
  {
    FindIs(entries[k := e], hash, Find(entries, hash));
  }

  lemma UnderAppend(entries: seq<Entry>, e: Entry, hash: nat)
    requires Find(entries, e.segment.hash) == |entries|
    ensures Under(entries + [e], hash) == if hash == e.segment.hash then Some(e) else Under(entries, hash)
  {
    var k := Find(entries, hash);
    FindIs(entries + [e], hash, if k == |entries| && hash != e.segment.hash then k + 1 else k);
  }

  /** One registration, by hash. */
  lemma RegisterOneUnder(cfg: Config, c: Cache, m: Miss, now: int, hash: nat)
    requires m.state.Some?
    ensures var was, found := Under(c.entries, hash), Under(RegisterOne(cfg, c, m, now).entries, hash);
            if hash != m.segment.hash then found == was
            else found == Some(if was.Some? && was.value.segment == m.segment then was.value.(access := now)
                            else Entry(c.nextId, m.segment, m.kv, m.state.value, if cfg.transition then 1 else 0, now))
    ensures c.nextId <= RegisterOne(cfg, c, m, now).nextId
    ensures m.segment.hash == hash ==> RegisteredId(c, m) == Under(RegisterOne(cfg, c, m, now).entries, hash).value.id
  {
    var k := Find(c.entries, m.segment.hash);
    if Matches(c.entries, m.segment) {
      UnderUpdate(c.entries, k, c.entries[k].(access := now), hash);
    } else {
      var e := Entry(c.nextId, m.segment, m.kv, m.state.value, if cfg.transition then 1 else 0, now);
      if k < |c.entries| {
        UnderUpdate(c.entries, k, e, hash);
      } else {
        UnderAppend(c.entries, e, hash);
      }
    }
  }

  // ---- A whole registration ----

  /** Miss `j` is cached, under this hash. */
  predicate Brings(misses: seq<Miss>, j: int, hash: nat) {
    0 <= j < |misses| && misses[j].kind == Cached && misses[j].segment.hash == hash
  }

  ghost predicate AnyBrings(misses: seq<Miss>, hash: nat) { exists j :: Brings(misses, j, hash) }

  /** No miss under this hash has other tokens than the entry that is there. */
  ghost predicate Confirms(misses: seq<Miss>, hash: nat, e: Option<Entry>) {
    e.Some? && forall j :: Brings(misses, j, hash) ==> misses[j].segment == e.value.segment
  }

  /** The entry holds the slots of a miss with its segment. */
  ghost predicate MadeFrom(misses: seq<Miss>, hash: nat, e: Entry) {
    exists j :: Brings(misses, j, hash) && e.segment == misses[j].segment && e.kv == misses[j].kv
                && misses[j].state == Some(e.state)
  }

  lemma FrontBrings(misses: seq<Miss>, hash: nat)
    requires misses != []
    ensures forall j :: Brings(misses[..|misses| - 1], j, hash) <==> Brings(misses, j, hash) && j < |misses| - 1
    ensures AnyBrings(misses, hash) <==> AnyBrings(misses[..|misses| - 1], hash) || Brings(misses, |misses| - 1, hash)
  {
    var n := |misses| - 1;
    forall j ensures Brings(misses[..n], j, hash) <==> Brings(misses, j, hash) && j < n {}
    if AnyBrings(misses[..n], hash) {
      var j :| Brings(misses[..n], j, hash);
      assert Brings(misses, j, hash);
    }
    if AnyBrings(misses, hash) && !Brings(misses, n, hash) {
      var j :| Brings(misses, j, hash);
      assert Brings(misses[..n], j, hash);
    }
  }

  lemma FrontConfirms(misses: seq<Miss>, hash: nat, e: Option<Entry>)
    requires misses != []
    ensures var n := |misses| - 1;
            Confirms(misses, hash, e) <==>
              Confirms(misses[..n], hash, e) && (Brings(misses, n, hash) ==> misses[n].segment == e.value.segment)
  {
    FrontBrings(misses, hash);
    var n := |misses| - 1;
    assert forall j :: 0 <= j < n ==> misses[..n][j] == misses[j];
  }

  lemma FrontMade(misses: seq<Miss>, hash: nat, e: Entry)
    requires misses != [] && MadeFrom(misses[..|misses| - 1], hash, e)
    ensures MadeFrom(misses, hash, e)
  {
    var front := misses[..|misses| - 1];
    var j :| Brings(front, j, hash) && e.segment == front[j].segment && e.kv == front[j].kv && front[j].state == Some(e.state);
    assert Brings(misses, j, hash) && misses[j] == front[j];
  }

  /** Miss `j` is the last one under this hash. */
  ghost predicate BringsLast(misses: seq<Miss>, j: int, hash: nat) {
    Brings(misses, j, hash) && forall i :: Brings(misses, i, hash) ==> i <= j
  }

  lemma FrontBringsLast(misses: seq<Miss>, j: int, hash: nat)
    requires BringsLast(misses, j, hash)
    ensures j == |misses| - 1 || (!Brings(misses, |misses| - 1, hash) && BringsLast(misses[..|misses| - 1], j, hash))
    ensures forall i :: 0 <= i < |misses| - 1 ==> misses[..|misses| - 1][i] == misses[i]
  {
    var n := |misses| - 1;
    FrontBrings(misses, hash);
    if j < n {
      assert Brings(misses[..n], j, hash) && !Brings(misses, n, hash);
      forall i | Brings(misses[..n], i, hash) ensures i <= j { assert Brings(misses, i, hash); }
    }
  }

  /** The segment under a hash afterwards is that of the last miss under it, and the request refers to the entry. */
  lemma {:induction false} LastSegmentStays(cfg: Config, c: Cache, refs: map<nat, nat>, misses: seq<Miss>, now: int,
                                            hash: nat, j: nat)
    requires forall m :: m in misses && m.kind == Cached ==> m.state.Some?
    requires BringsLast(misses, j, hash)
    ensures var d := RegisterAll(cfg, c, refs, misses, now);
            var e := Under(d.0.entries, hash);
            e.Some? && e.value.segment == misses[j].segment && hash in d.1 && d.1[hash] == e.value.id
  {
    var n := |misses| - 1;
    var front, m := misses[..n], misses[n];
    FrontBringsLast(misses, j, hash);
    if m.kind == Cached { RegisterOneUnder(cfg, RegisterAll(cfg, c, refs, front, now).0, m, now, hash); }
    if j < n {
      LastSegmentStays(cfg, c, refs, front, now, hash, j);
    }
  }

  /** An entry that all misses under its hash confirms is only read; otherwise there is a new one. */
  lemma {:induction false} EntryStaysIff(cfg: Config, c: Cache, refs: map<nat, nat>, misses: seq<Miss>, now: int, hash: nat)
    requires forall m :: m in misses && m.kind == Cached ==> m.state.Some?
    ensures var d := RegisterAll(cfg, c, refs, misses, now);
            var was, found := Under(c.entries, hash), Under(d.0.entries, hash);
            && c.nextId <= d.0.nextId
            && if !AnyBrings(misses, hash) then found == was && (hash in d.1 <==> hash in refs)
                                                && (hash in refs ==> d.1[hash] == refs[hash])
               else if Confirms(misses, hash, was) then found == Some(was.value.(access := now))
               else found.Some? && found.value.id >= c.nextId
  {
    if misses != [] {
      var n := |misses| - 1;
      var front, m := misses[..n], misses[n];
      EntryStaysIff(cfg, c, refs, front, now, hash);
      FrontBrings(misses, hash);
      FrontConfirms(misses, hash, Under(c.entries, hash));
      if m.kind == Cached { RegisterOneUnder(cfg, RegisterAll(cfg, c, refs, front, now).0, m, now, hash); }
      if !AnyBrings(front, hash) && Under(c.entries, hash).Some? { assert Confirms(front, hash, Under(c.entries, hash)); }
    }
  }

  /** What is new is made from a miss. */
  lemma {:induction false} NewIsMade(cfg: Config, c: Cache, refs: map<nat, nat>, misses: seq<Miss>, now: int, hash: nat)
    requires forall m :: m in misses && m.kind == Cached ==> m.state.Some?
    requires Under(c.entries, hash).Some? ==> Under(c.entries, hash).value.id < c.nextId
    ensures var found := Under(RegisterAll(cfg, c, refs, misses, now).0.entries, hash);
            found.Some? && found.value.id >= c.nextId ==>
              MadeFrom(misses, hash, found.value) && found.value.access == now
              && found.value.locks == if cfg.transition then 1 else 0
  {
    if misses != [] {
      var n := |misses| - 1;
      var front, m := misses[..n], misses[n];
      var d := RegisterAll(cfg, c, refs, front, now).0;
      NewIsMade(cfg, c, refs, front, now, hash);
      EntryStaysIff(cfg, c, refs, front, now, hash);
      var mid := Under(d.entries, hash);
      if mid.Some? && mid.value.id >= c.nextId { FrontMade(misses, hash, mid.value); }
      if m.kind == Cached {
        RegisterOneUnder(cfg, d, m, now, hash);
        if m.segment.hash == hash { assert Brings(misses, n, hash); }
        MadeRead(misses, hash, mid, now);
      }
    }
  }

  lemma MadeRead(misses: seq<Miss>, hash: nat, e: Option<Entry>, now: int)
    ensures e.Some? && MadeFrom(misses, hash, e.value) ==> MadeFrom(misses, hash, e.value.(access := now))
  {
  }

  // ---- What becomes of a segment, by its place in the prompt ----

  /** A segment that is kept for other requests: long enough, and not the last of several. */
  predicate Stays(cfg: Config, prompt: seq<Segment>, i: nat) {
    i < |prompt| && LongEnough(cfg, prompt[i]) && (i + 1 < |prompt| || |prompt| == 1)
  }

  /** A segment that only its own request needs: the last of several, or a short one before it. */
  predicate Leaves(cfg: Config, prompt: seq<Segment>, i: nat) {
    i < |prompt| && |prompt| > 1 && (i + 1 == |prompt| || !LongEnough(cfg, prompt[i]))
  }

  /** What was granted for a prompt: slots for every token, and a state slot unless the segment is short and not the last. */
  lemma GrantIs(cfg: Config, r: Request, misses: seq<Miss>, j: nat)
    requires Fits(cfg, r, misses) && j < |misses|
    ensures r.wanted[j] < |r.prompt| && misses[j].segment == r.prompt[r.wanted[j]]
    ensures |misses[j].kv| == |r.prompt[r.wanted[j]].tokens|
    ensures misses[j].state.None? <==> !LongEnough(cfg, r.prompt[r.wanted[j]]) && r.wanted[j] + 1 < |r.prompt|
    ensures misses[j].kind == Cached <==> Stays(cfg, r.prompt, r.wanted[j])
    ensures misses[j].kind in {Query, Brief} <==> Leaves(cfg, r.prompt, r.wanted[j])
  {
  }

  /** Requests with slots have what fits their prompt. */
  ghost predicate AllFit(cfg: Config, requests: seq<Request>) {
    forall i :: 0 <= i < |requests| && requests[i].stage != Locked ==> Fits(cfg, requests[i], requests[i].misses)
  }

  lemma AllFitStep(cfg: Config, w: World, step: Step)
    requires AllFit(cfg, w.requests) && WellFormed(w) && Enabled(cfg, w, step)
    ensures AllFit(cfg, Apply(cfg, w, step).requests)
  {
    var v := Apply(cfg, w, step);
    forall i | 0 <= i < |v.requests| && v.requests[i].stage != Locked ensures Fits(cfg, v.requests[i], v.requests[i].misses) {
      PromptStays(cfg, w, step, i);
      FitsStill(cfg, w.requests[i], v.requests[i], v.requests[i].misses);
    }
  }

  lemma PromptStays(cfg: Config, w: World, step: Step, i: nat)
    requires WellFormed(w) && Enabled(cfg, w, step)
    requires i < |Apply(cfg, w, step).requests| && Apply(cfg, w, step).requests[i].stage != Locked
    ensures i < |w.requests|
    ensures var r, v := w.requests[i], Apply(cfg, w, step).requests[i];
            && v.prompt == r.prompt && v.wanted == r.wanted
            && if step.Alloc? && step.i == i then v.misses == step.misses else v.misses == r.misses && r.stage != Locked
  {
  }

  lemma FitsStill(cfg: Config, r: Request, v: Request, misses: seq<Miss>)
    requires Fits(cfg, r, misses) && v.prompt == r.prompt && v.wanted == r.wanted
    ensures Fits(cfg, v, misses)
  {
  }

  /** Position `j` of the missing segments is kept, under this hash. */
  predicate Keeps(cfg: Config, r: Request, j: int, hash: nat) {
    0 <= j < |r.wanted| && Stays(cfg, r.prompt, r.wanted[j]) && r.prompt[r.wanted[j]].hash == hash
  }

  ghost predicate KeepsLast(cfg: Config, r: Request, j: int, hash: nat) {
    Keeps(cfg, r, j, hash) && forall i :: Keeps(cfg, r, i, hash) ==> i <= j
  }

  /** No kept segment under this hash has other tokens than the entry that is there. */
  ghost predicate Agrees(cfg: Config, r: Request, hash: nat, e: Option<Entry>) {
    e.Some? && forall j :: Keeps(cfg, r, j, hash) ==> r.prompt[r.wanted[j]] == e.value.segment
  }

  lemma KeepsIff(cfg: Config, r: Request, misses: seq<Miss>, hash: nat)
    requires Fits(cfg, r, misses)
    ensures forall j :: Keeps(cfg, r, j, hash) <==> Brings(misses, j, hash)
    ensures forall e :: Agrees(cfg, r, hash, e) <==> Confirms(misses, hash, e)
  {
    forall j ensures Keeps(cfg, r, j, hash) <==> Brings(misses, j, hash) {
      if 0 <= j < |misses| { GrantIs(cfg, r, misses, j); }
    }
  }

  /**
  A registration, for every hash. If no missing segment that is kept has the
  hash, what is in the index under it stays as it is. Otherwise the index has the last such
  segment under it, and the request refers to that entry. The entry is the old one, only
  read, if all such segments agree with it; otherwise it is new, holds the slots
  granted for such a segment, and is locked in the transition mode.
   */
  lemma RegistrationIs(cfg: Config, w: World, i: nat, now: int, hash: nat)
    requires i < |w.requests| && w.requests[i].stage != Locked && Ready(cfg, w) && WellFormed(w)
    ensures var r, v := w.requests[i], Registered(cfg, w, i, now);
            var was, found := Under(w.cache.entries, hash), Under(v.cache.entries, hash);
            && ((forall j :: !Keeps(cfg, r, j, hash)) ==> found == was)
            && (forall j :: KeepsLast(cfg, r, j, hash) ==>
                  && found.Some? && found.value.segment == r.prompt[r.wanted[j]]
                  && hash in v.requests[i].refs && v.requests[i].refs[hash] == found.value.id
                  && (found.value.id < w.cache.nextId <==> Agrees(cfg, r, hash, was))
                  && if Agrees(cfg, r, hash, was) then found.value == was.value.(access := now)
                     else MadeFrom(r.misses, hash, found.value) && found.value.access == now
                          && found.value.locks == if cfg.transition then 1 else 0)
  {
    var r := w.requests[i];
    KeepsIff(cfg, r, r.misses, hash);
    EntryStaysIff(cfg, w.cache, r.refs, r.misses, now, hash);
    NewIsMade(cfg, w.cache, r.refs, r.misses, now, hash);
    forall j | KeepsLast(cfg, r, j, hash) ensures BringsLast(r.misses, j, hash) && AnyBrings(r.misses, hash) {
      assert Brings(r.misses, j, hash);
    }
    forall j | BringsLast(r.misses, j, hash)
      ensures var d := RegisterAll(cfg, w.cache, r.refs, r.misses, now);
              var e := Under(d.0.entries, hash);
              e.Some? && e.value.segment == r.misses[j].segment && hash in d.1 && d.1[hash] == e.value.id
    {
      LastSegmentStays(cfg, w.cache, r.refs, r.misses, now, hash, j);
    }
    if forall j :: !Keeps(cfg, r, j, hash) {
      assert !AnyBrings(r.misses, hash);
    }
  }

  // ---- What a finished request gives back ----

  /** The slots granted for the first `n` missing segments that only the request needs. */
  ghost function Returns(cfg: Config, r: Request, n: nat): multiset<Slot>
    requires n <= |r.misses| && n <= |r.wanted|
  {
    if n == 0 then multiset{}
    else Returns(cfg, r, n - 1) + if Leaves(cfg, r.prompt, r.wanted[n - 1]) then r.misses[n - 1].Footprint() else multiset{}
  }

  lemma SlotsOfFirst(misses: seq<Miss>, kinds: set<Kind>, n: nat)
    requires 0 < n <= |misses|
    ensures SlotsOf(misses[..n], kinds)
         == SlotsOf(misses[..n - 1], kinds) + if misses[n - 1].kind in kinds then misses[n - 1].Footprint() else multiset{}
  {
    assert misses[..n][..n - 1] == misses[..n - 1];
  }

  lemma {:induction false} ReturnsAre(cfg: Config, r: Request, n: nat)
    requires Fits(cfg, r, r.misses) && n <= |r.misses|
    ensures SlotsOf(r.misses[..n], {Query, Brief}) == Returns(cfg, r, n)
  {
    if n > 0 {
      ReturnsAre(cfg, r, n - 1);
      GrantIs(cfg, r, r.misses, n - 1);
      ReturnsNext(cfg, r, n);
    }
  }

  lemma ReturnsNext(cfg: Config, r: Request, n: nat)
    requires 0 < n <= |r.misses| && n <= |r.wanted|
    requires SlotsOf(r.misses[..n - 1], {Query, Brief}) == Returns(cfg, r, n - 1)
    requires r.misses[n - 1].kind in {Query, Brief} <==> Leaves(cfg, r.prompt, r.wanted[n - 1])
    ensures SlotsOf(r.misses[..n], {Query, Brief}) == Returns(cfg, r, n)
  {
    SlotsOfFirst(r.misses, {Query, Brief}, n);
  }

  /**
  Releasing a request gives back its own state slot, the slots of its generated tokens, and
  those of the last segment of several and of the short ones before it.
   */
  lemma ReleaseGivesBack(cfg: Config, w: World, i: nat)
    requires Ready(cfg, w) && i < |w.requests| && w.requests[i].stage != Locked
    ensures Released(cfg, w, i).cache.free
         == w.cache.free + Returns(cfg, w.requests[i], |w.requests[i].misses|) + w.requests[i].decoded
  {
    var r := w.requests[i];
    ReturnsAre(cfg, r, |r.misses|);
    assert r.misses[..|r.misses|] == r.misses;
  }

  // ---- Every run meets the conditions ----

  ghost predicate IdsOk(c: Cache) { forall k :: 0 <= k < |c.entries| ==> c.entries[k].id < c.nextId }

  lemma {:induction false} RegisterAllIds(cfg: Config, c: Cache, refs: map<nat, nat>, misses: seq<Miss>, now: int)
    requires IdsOk(c) && forall m :: m in misses && m.kind == Cached ==> m.state.Some?
    ensures IdsOk(RegisterAll(cfg, c, refs, misses, now).0)
  {
    if misses != [] { RegisterAllIds(cfg, c, refs, misses[..|misses| - 1], now); }
  }

  lemma {:induction false} DropAllIds(c: Cache, victims: seq<Entry>)
    requires IdsOk(c)
    ensures IdsOk(DropAll(c, victims))
  {
    if victims != [] { DropAllIds(c, victims[..|victims| - 1]); }
  }

  lemma IdsStep(cfg: Config, w: World, step: Step)
    requires WellFormed(w) && IdsOk(w.cache) && Enabled(cfg, w, step)
    ensures IdsOk(Apply(cfg, w, step).cache)
  {
    match step
    case Register(i, now) => RegisterAllIds(cfg, w.cache, w.requests[i].refs, w.requests[i].misses, now);
    case Finish(i, insert, now) =>
      if insert { RegisterAllIds(cfg, w.cache, w.requests[i].refs, w.requests[i].misses, now); }
    case Reclaim(needKv, needState) => DropAllIds(w.cache, Victims(Candidates(w.cache), needKv, needState));
    case _ =>
  }

  /** One entry for each hash, identities given out in turn, and grants that fit. */
  ghost predicate Ready(cfg: Config, w: World) { OneEach(w.cache.entries) && IdsOk(w.cache) && AllFit(cfg, w.requests) }

  lemma {:induction false} ReadyRun(cfg: Config, w: World, steps: seq<Step>, end: World)
    requires Ready(cfg, w) && Run(cfg, w, steps, end)
    ensures Ready(cfg, end)
    decreases |steps|
  {
    if steps != [] {
      OneEachStep(cfg, w, steps[0]);
      IdsStep(cfg, w, steps[0]);
      AllFitStep(cfg, w, steps[0]);
      ReadyRun(cfg, Apply(cfg, w, steps[0]), steps[1..], end);
    }
  }
}
