/**
The segment cache: an index from segment hashes to the KV slots and the recurrent
state slot of a computed segment, a free list, and requests that look segments up,
allocate slots for those that are missing, hand them over to the index and finish
(python/sglang/srt/pic/picache.py and pic_alloc.py, in the modes without rope).

A slot is a KV slot or a state slot. The free lists are a multiset: which free slot
an allocation takes is left open. Clock readings and lookups' hashes are inputs.
 */
module PicCache {
  import opened Wrappers
  import opened Sorting
  import opened Indices

  datatype Slot = Kv(index: nat) | State(index: nat)

  datatype Segment = Segment(hash: nat, tokens: seq<int>)

  /** `transition` is the compose operator of the mode; `minTokens` the shortest segment that is cached. */
  datatype Config = Config(transition: bool, minTokens: int)

  /** A cached segment; `id` tells apart the objects made for one hash over time. */
  datatype Entry = Entry(id: nat, segment: Segment, kv: seq<Slot>, state: Slot, locks: nat, access: int) {
    function Footprint(): multiset<Slot> { multiset(kv) + multiset{state} }
  }

  /** The in-flight counters: KV slots and state slots. */
  datatype Counts = Counts(kv: nat, states: nat) {
    function Plus(c: Counts): Counts { Counts(kv + c.kv, states + c.states) }

    /** `remove_inflight`: clamped at zero. */
    function Minus(c: Counts): Counts {
      Counts(if kv > c.kv then kv - c.kv else 0, if states > c.states then states - c.states else 0)
    }
  }

  /** `lost` records the slots of entries that were overwritten; the source keeps no trace of them. */
  datatype Cache = Cache(entries: seq<Entry>, free: multiset<Slot>, nextId: nat, lost: multiset<Slot>, busy: Counts)

  /**
  What becomes of a missing segment: it is cached, or it is the query at the end of
  the prompt, or it is too short to cache, or it is a short prompt of one segment.
   */
  datatype Kind = Cached | Query | Brief | Stranded

  datatype Miss = Miss(segment: Segment, kind: Kind, kv: seq<Slot>, state: Option<Slot>) {
    function Footprint(): multiset<Slot> {
      multiset(kv) + if state.Some? then multiset{state.value} else multiset{}
    }

    /** Each pool gives slots of its own kind. */
    ghost predicate Typed() { (forall x :: x in kv ==> x.Kv?) && (state.Some? ==> state.value.State?) }
  }

  datatype Stage = Locked | Running | Finished

  /**
  A request: the entries it refers to, its missing segments, and the slots it decodes
  with, those of its own recurrent state, which it gets with its other slots, and of the
  generated tokens. `rounds` counts how often it was registered.
   */
  datatype Request = Request(stage: Stage, refs: map<nat, nat>, prompt: seq<Segment>, wanted: seq<nat>,
                             misses: seq<Miss>, decoded: multiset<Slot>, rounds: nat)

  datatype World = World(cache: Cache, requests: seq<Request>)

  // ---- Looking up ----

  predicate Short(cfg: Config, s: Segment) { cfg.minTokens > 0 && |s.tokens| < cfg.minTokens }

  /** The position of the entry under `hash`, or the number of entries. */
  function Find(entries: seq<Entry>, hash: nat, from: nat := 0): (k: nat)
    requires from <= |entries|
    ensures from <= k <= |entries|
    ensures forall i :: from <= i < k ==> entries[i].segment.hash != hash
    ensures k < |entries| ==> entries[k].segment.hash == hash
    decreases |entries| - from
  {
    if from == |entries| || entries[from].segment.hash == hash then from else Find(entries, hash, from + 1)
  }

  /** Equal hashes are confirmed by the tokens. */
  predicate Matches(entries: seq<Entry>, s: Segment) {
    var k := Find(entries, s.hash);
    k < |entries| && entries[k].segment == s
  }

  /** The last segment of a prompt and the short ones are never looked up. */
  predicate Hit(cfg: Config, entries: seq<Entry>, prompt: seq<Segment>, i: nat)
    requires i < |prompt|
  {
    i < |prompt| - 1 && !Short(cfg, prompt[i]) && Matches(entries, prompt[i])
  }

  function KindOf(cfg: Config, prompt: seq<Segment>, i: nat): Kind
    requires i < |prompt|
  {
    if i == |prompt| - 1 && |prompt| > 1 then Query
    else if !Short(cfg, prompt[i]) then Cached
    else if i < |prompt| - 1 then Brief
    else Stranded
  }

  // ---- Admission ----

  /** Some hit segment of the prompt is this entry. */
  predicate Wanted(cfg: Config, entries: seq<Entry>, prompt: seq<Segment>, e: Entry) {
    exists i: nat :: i < |prompt| && Hit(cfg, entries, prompt, i) && prompt[i] == e.segment
  }

  /** Every hit entry is read, and locked once. */
  function Lock(cfg: Config, entries: seq<Entry>, prompt: seq<Segment>, now: int): (r: seq<Entry>)
    ensures |r| == |entries|
    ensures forall k :: 0 <= k < |r| ==>
      r[k] == if Wanted(cfg, entries, prompt, entries[k])
              then entries[k].(locks := entries[k].locks + 1, access := now) else entries[k]
  {
    seq(|entries|, k requires 0 <= k < |entries| =>
      if Wanted(cfg, entries, prompt, entries[k])
      then entries[k].(locks := entries[k].locks + 1, access := now) else entries[k])
  }

  /** The entries of the hit segments, by hash. */
  function HitRefs(cfg: Config, entries: seq<Entry>, prompt: seq<Segment>, from: nat := 0): (refs: map<nat, nat>)
    requires from <= |prompt|
    ensures forall i :: from <= i < |prompt| && Hit(cfg, entries, prompt, i) ==> prompt[i].hash in refs
    ensures forall h :: h in refs ==> exists i :: from <= i < |prompt| && Hit(cfg, entries, prompt, i) && prompt[i].hash == h
    ensures forall h :: h in refs ==> Find(entries, h) < |entries| && refs[h] == entries[Find(entries, h)].id
    decreases |prompt| - from
  {
    if from == |prompt| then map[]
    else
      var rest := HitRefs(cfg, entries, prompt, from + 1);
      if Hit(cfg, entries, prompt, from)
      then rest[prompt[from].hash := entries[Find(entries, prompt[from].hash)].id] else rest
  }

  function Misses(cfg: Config, entries: seq<Entry>, prompt: seq<Segment>, from: nat := 0): seq<nat>
    requires from <= |prompt|
    decreases |prompt| - from
  {
    if from == |prompt| then []
    else (if Hit(cfg, entries, prompt, from) then [] else [from]) + Misses(cfg, entries, prompt, from + 1)
  }

  // ---- Handing over ----

  /** One missing segment is registered: an equal one in the index makes this copy redundant. */
  function RegisterOne(cfg: Config, c: Cache, m: Miss, now: int): Cache
    requires m.state.Some?
  {
    var k := Find(c.entries, m.segment.hash);
    if Matches(c.entries, m.segment) then
      c.(entries := c.entries[k := c.entries[k].(access := now)], free := c.free + m.Footprint())
    else
      var e := Entry(c.nextId, m.segment, m.kv, m.state.value, if cfg.transition then 1 else 0, now);
      if k < |c.entries| then
        c.(entries := c.entries[k := e], nextId := c.nextId + 1, lost := c.lost + c.entries[k].Footprint())
      else
        c.(entries := c.entries + [e], nextId := c.nextId + 1)
  }

  /** The entry that stands for the segment afterwards. */
  function RegisteredId(c: Cache, m: Miss): nat {
    if Matches(c.entries, m.segment) then c.entries[Find(c.entries, m.segment.hash)].id else c.nextId
  }

  ghost predicate Granted(misses: seq<Miss>) {
    forall m :: m in misses ==> (m.state.None? <==> m.kind == Brief)
  }

  /** `cache_unfinished_req` over the first misses of a request. */
  function RegisterAll(cfg: Config, c: Cache, refs: map<nat, nat>, misses: seq<Miss>, now: int): (Cache, map<nat, nat>)
    requires forall m :: m in misses && m.kind == Cached ==> m.state.Some?
  {
    if misses == [] then (c, refs)
    else
      var m := misses[|misses| - 1];
      var done := RegisterAll(cfg, c, refs, misses[..|misses| - 1], now);
      if m.kind == Cached then
        (RegisterOne(cfg, done.0, m, now), done.1[m.segment.hash := RegisteredId(done.0, m)])
      else done
  }

  // ---- Finishing ----

  /** `dec_lock_ref`: one lock of every entry the request refers to. */
  function Unlock(entries: seq<Entry>, refs: map<nat, nat>): (r: seq<Entry>)
    ensures |r| == |entries|
    ensures forall k :: 0 <= k < |r| ==>
      r[k] == if RefersTo(refs, entries[k]) && entries[k].locks > 0
              then entries[k].(locks := entries[k].locks - 1) else entries[k]
  {
    seq(|entries|, k requires 0 <= k < |entries| =>
      if RefersTo(refs, entries[k]) && entries[k].locks > 0
      then entries[k].(locks := entries[k].locks - 1) else entries[k])
  }

  predicate RefersTo(refs: map<nat, nat>, e: Entry) {
    e.segment.hash in refs && refs[e.segment.hash] == e.id
  }

  /** The slots of the misses of the given kinds. */
  function SlotsOf(misses: seq<Miss>, kinds: set<Kind>): multiset<Slot> {
    if misses == [] then multiset{}
    else
      var m := misses[|misses| - 1];
      SlotsOf(misses[..|misses| - 1], kinds) + if m.kind in kinds then m.Footprint() else multiset{}
  }

  /** The number of KV slots, or of state slots, of the misses of the given kinds. */
  function Amount(misses: seq<Miss>, kinds: set<Kind>, kv: bool): nat {
    if misses == [] then 0
    else Amount(misses[..|misses| - 1], kinds, kv) + AmountOne(misses[|misses| - 1], kinds, kv)
  }

  function AmountOne(m: Miss, kinds: set<Kind>, kv: bool): nat {
    if m.kind !in kinds then 0 else if kv then |m.kv| else if m.state.Some? then 1 else 0
  }

  function CountOf(misses: seq<Miss>, kinds: set<Kind>): Counts {
    Counts(Amount(misses, kinds, true), Amount(misses, kinds, false))
  }

  // ---- Eviction ----

  function Unlocked(entries: seq<Entry>): seq<Entry> {
    if entries == [] then []
    else (if entries[0].locks == 0 then [entries[0]] else []) + Unlocked(entries[1..])
  }

  /** The candidates that are taken: the shortest prefix that meets both needs, or all. */
  function Victims(queue: seq<Entry>, needKv: int, needState: int): seq<Entry> {
    if queue == [] || (needKv <= 0 && needState <= 0) then []
    else [queue[0]] + Victims(queue[1..], needKv - |queue[0].kv|, needState - 1)
  }

  /** The entry under a hash leaves the index and its slots are free. */
  function Drop(c: Cache, hash: nat): Cache {
    var k := Find(c.entries, hash);
    if k == |c.entries| then c
    else c.(entries := RemoveAt(c.entries, k), free := c.free + c.entries[k].Footprint())
  }

  function DropAll(c: Cache, victims: seq<Entry>): Cache {
    if victims == [] then c
    else Drop(DropAll(c, victims[..|victims| - 1]), victims[|victims| - 1].segment.hash)
  }

  function Candidates(c: Cache): seq<Entry> {
    SortBy((e: Entry) => e.access, Unlocked(c.entries))
  }

  function Evict(c: Cache, needKv: int, needState: int): Cache {
    DropAll(c, Victims(Candidates(c), needKv, needState))
  }

  // ---- Steps ----

  datatype Step =
    | Admit(prompt: seq<Segment>, now: int)
    | Alloc(i: nat, misses: seq<Miss>, own: Slot)
    | Register(i: nat, now: int)
    | Decode(i: nat, slots: multiset<Slot>)
    | Finish(i: nat, insert: bool, now: int)
    | Reclaim(needKv: int, needState: int)

  /** The granted slots fit the missing segments of the prompt. */
  ghost predicate Fits(cfg: Config, r: Request, misses: seq<Miss>) {
    && |misses| == |r.wanted|
    && (forall j :: 0 <= j < |misses| ==> r.wanted[j] < |r.prompt|)
    && forall j :: 0 <= j < |misses| ==>
      && misses[j].segment == r.prompt[r.wanted[j]]
      && misses[j].kind == KindOf(cfg, r.prompt, r.wanted[j])
      && |misses[j].kv| == |misses[j].segment.tokens|
      && (misses[j].state.None? <==> misses[j].kind == Brief)
      && misses[j].Typed()
  }

  const ALL_KINDS: set<Kind> := {Cached, Query, Brief, Stranded}

  ghost predicate Enabled(cfg: Config, w: World, step: Step) {
    match step
    case Admit(prompt, _) => prompt != []
    case Alloc(i, misses, own) =>
      && i < |w.requests| && w.requests[i].stage == Locked && Fits(cfg, w.requests[i], misses) && own.State?
      && SlotsOf(misses, ALL_KINDS) + multiset{own} <= w.cache.free
    case Register(i, _) => i < |w.requests| && w.requests[i].stage == Running
    case Decode(i, slots) => i < |w.requests| && w.requests[i].stage == Running && slots <= w.cache.free
    case Finish(i, _, _) => i < |w.requests| && w.requests[i].stage == Running
    case Reclaim(_, _) => true
  }

  function Registered(cfg: Config, w: World, i: nat, now: int): World
    requires i < |w.requests| && forall m :: m in w.requests[i].misses && m.kind == Cached ==> m.state.Some?
  {
    var r := w.requests[i];
    var done := RegisterAll(cfg, w.cache, r.refs, r.misses, now);
    var busy := if cfg.transition then done.0.busy.Minus(CountOf(r.misses, {Cached})) else done.0.busy;
    World(done.0.(busy := busy), w.requests[i := r.(refs := done.1, rounds := r.rounds + 1)])
  }

  function Released(cfg: Config, w: World, i: nat): World
    requires i < |w.requests|
  {
    var r := w.requests[i];
    World(w.cache.(entries := Unlock(w.cache.entries, r.refs),
                   free := w.cache.free + SlotsOf(r.misses, {Query, Brief}) + r.decoded,
                   busy := w.cache.busy.Minus(CountOf(r.misses, if cfg.transition then {Query, Brief} else ALL_KINDS))),
          w.requests[i := r.(stage := Finished)])
  }

  ghost predicate WellFormed(w: World) {
    forall i :: 0 <= i < |w.requests| ==> Granted(w.requests[i].misses)
  }

  function Apply(cfg: Config, w: World, step: Step): World
    requires WellFormed(w) && Enabled(cfg, w, step)
  {
    match step
    case Admit(prompt, now) =>
      World(w.cache.(entries := Lock(cfg, w.cache.entries, prompt, now)),
            w.requests + [Request(Locked, HitRefs(cfg, w.cache.entries, prompt), prompt,
                                  Misses(cfg, w.cache.entries, prompt), [], multiset{}, 0)])
    case Alloc(i, misses, own) =>
      World(w.cache.(free := w.cache.free - (SlotsOf(misses, ALL_KINDS) + multiset{own}),
                     busy := w.cache.busy.Plus(CountOf(misses, ALL_KINDS))),
            w.requests[i := w.requests[i].(stage := Running, misses := misses, decoded := multiset{own})])
    case Register(i, now) => Registered(cfg, w, i, now)
    case Decode(i, slots) =>
      World(w.cache.(free := w.cache.free - slots),
            w.requests[i := w.requests[i].(decoded := w.requests[i].decoded + slots)])
    case Finish(i, insert, now) => Released(cfg, if insert then Registered(cfg, w, i, now) else w, i)
    case Reclaim(needKv, needState) => w.(cache := Evict(w.cache, needKv, needState))
  }

  ghost predicate Run(cfg: Config, w: World, steps: seq<Step>, end: World)
    decreases |steps|
  {
    if steps == [] then end == w
    else WellFormed(w) && Enabled(cfg, w, steps[0]) && Run(cfg, Apply(cfg, w, steps[0]), steps[1..], end)
  }
}
