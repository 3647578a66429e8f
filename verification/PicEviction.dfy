/**
Eviction from the segment cache: only unlocked entries go, the least recently used
first, and no more than the request for room calls for.
 */
module PicEviction {
  import opened Indices
  import opened PicCache

  /** The index holds each hash once. */
  ghost predicate OneEach(entries: seq<Entry>) {
    forall i, j :: 0 <= i < j < |entries| ==> entries[i].segment.hash != entries[j].segment.hash
  }

  lemma SameHash(entries: seq<Entry>, e: Entry, f: Entry)
    requires OneEach(entries) && e in entries && f in entries && e.segment.hash == f.segment.hash
    ensures e == f
  {
    var i :| 0 <= i < |entries| && entries[i] == e;
    var j :| 0 <= j < |entries| && entries[j] == f;
    assert !(i < j) && !(j < i);
  }

  lemma FindMember(entries: seq<Entry>, e: Entry)
    requires OneEach(entries) && e in entries
    ensures var k := Find(entries, e.segment.hash); k < |entries| && entries[k] == e
  {
    var i :| 0 <= i < |entries| && entries[i] == e;
    var k := Find(entries, e.segment.hash);
    assert k <= i;
  }

  lemma RemoveKeepsOneEach(entries: seq<Entry>, k: nat)
    requires OneEach(entries) && k < |entries|
    ensures OneEach(RemoveAt(entries, k))
  {
    var r := RemoveAt(entries, k);
    forall i, j | 0 <= i < j < |r| ensures r[i].segment.hash != r[j].segment.hash {
      assert r[i] == entries[if i < k then i else i + 1] && r[j] == entries[if j < k then j else j + 1];
    }
  }

  lemma RemoveMembers(entries: seq<Entry>, k: nat, e: Entry)
    requires OneEach(entries) && k < |entries|
    ensures e in RemoveAt(entries, k) <==> e in entries && e != entries[k]
  {
    var r := RemoveAt(entries, k);
    if e in r {
      var i :| 0 <= i < |r| && r[i] == e;
      assert r[i] == entries[if i < k then i else i + 1];
    }
    if e in entries && e != entries[k] {
      var i :| 0 <= i < |entries| && entries[i] == e;
      assert entries[i] == r[if i < k then i else i - 1];
    }
  }

  // ---- Which entries go ----

  lemma {:induction false} UnlockedMembers(entries: seq<Entry>, e: Entry)
    ensures e in Unlocked(entries) <==> e in entries && e.locks == 0
  {
    if entries != [] {
      UnlockedMembers(entries[1..], e);
      assert entries == [entries[0]] + entries[1..];
    }
  }

  lemma CandidateMembers(c: Cache, e: Entry)
    ensures e in Candidates(c) <==> e in c.entries && e.locks == 0
  {
    UnlockedMembers(c.entries, e);
    assert e in multiset(Candidates(c)) <==> e in multiset(Unlocked(c.entries));
  }

  function KvOf(entries: seq<Entry>): nat {
    if entries == [] then 0 else KvOf(entries[..|entries| - 1]) + |entries[|entries| - 1].kv|
  }

  lemma {:induction false} KvOfFirst(entries: seq<Entry>)
    requires entries != []
    ensures KvOf(entries) == |entries[0].kv| + KvOf(entries[1..])
  {
    var n := |entries| - 1;
    if n == 0 {
      assert entries[..0] == [] && entries[1..] == [];
    } else {
      KvOfFirst(entries[..n]);
      assert entries[..n][1..] == entries[1..][..n - 1];
    }
  }

  ghost predicate Enough(entries: seq<Entry>, needKv: int, needState: int) {
    KvOf(entries) >= needKv && |entries| >= needState
  }

  /** The victims are the shortest prefix of the candidates that is enough, or all of them. */
  lemma {:induction false} VictimsAreEnough(queue: seq<Entry>, needKv: int, needState: int)
    ensures var v := Victims(queue, needKv, needState);
            && v <= queue
            && (v == queue || Enough(v, needKv, needState))
  {
    if queue == [] || (needKv <= 0 && needState <= 0) {
    } else {
      var rest := Victims(queue[1..], needKv - |queue[0].kv|, needState - 1);
      VictimsAreEnough(queue[1..], needKv - |queue[0].kv|, needState - 1);
      ConsPrefix(queue, rest);
      KvOfFirst([queue[0]] + rest);
      assert ([queue[0]] + rest)[1..] == rest;
    }
  }

  lemma ConsPrefix<T>(q: seq<T>, rest: seq<T>)
    requires q != [] && rest <= q[1..]
    ensures [q[0]] + rest <= q && (rest == q[1..] ==> [q[0]] + rest == q)
  {
  }

  lemma {:induction false} VictimsAreNeeded(queue: seq<Entry>, needKv: int, needState: int, n: nat)
    requires n < |Victims(queue, needKv, needState)|
    ensures !Enough(Victims(queue, needKv, needState)[..n], needKv, needState)
  {
    var v := Victims(queue, needKv, needState);
    var rest := Victims(queue[1..], needKv - |queue[0].kv|, needState - 1);
    if n == 0 {
      assert v[..0] == [];
    } else {
      VictimsAreNeeded(queue[1..], needKv - |queue[0].kv|, needState - 1, n - 1);
      assert v[..n][1..] == rest[..n - 1];
      KvOfFirst(v[..n]);
    }
  }

  // ---- What is left ----

  lemma DropMembers(c: Cache, entries: seq<Entry>, v: Entry, e: Entry)
    requires OneEach(c.entries) && OneEach(entries) && v in entries
    requires forall f :: f in c.entries ==> f in entries
    ensures e in Drop(c, v.segment.hash).entries <==> e in c.entries && e != v
  {
    var k := Find(c.entries, v.segment.hash);
    if k < |c.entries| {
      SameHash(entries, c.entries[k], v);
      RemoveMembers(c.entries, k, e);
    } else if e in c.entries && e == v {
      FindMember(c.entries, v);
      assert false;
    }
  }

  lemma DropKeepsOneEach(c: Cache, hash: nat)
    requires OneEach(c.entries)
    ensures OneEach(Drop(c, hash).entries)
  {
    var k := Find(c.entries, hash);
    if k < |c.entries| { RemoveKeepsOneEach(c.entries, k); }
  }

  /** What stays is what was there and was not taken. */
  lemma {:induction false} DropAllMembers(c: Cache, victims: seq<Entry>)
    requires OneEach(c.entries) && forall v :: v in victims ==> v in c.entries
    ensures OneEach(DropAll(c, victims).entries)
    ensures forall e :: e in DropAll(c, victims).entries <==> e in c.entries && e !in victims
  {
    if victims != [] {
      var n := |victims| - 1;
      assert victims == victims[..n] + [victims[n]];
      DropAllMembers(c, victims[..n]);
      var d := DropAll(c, victims[..n]);
      DropKeepsOneEach(d, victims[n].segment.hash);
      forall e ensures e in Drop(d, victims[n].segment.hash).entries <==> e in d.entries && e != victims[n] {
        DropMembers(d, c.entries, victims[n], e);
      }
    }
  }

  lemma VictimsAreUnlocked(c: Cache, needKv: int, needState: int, e: Entry)
    requires e in Victims(Candidates(c), needKv, needState)
    ensures e in c.entries && e.locks == 0
  {
    VictimsAreEnough(Candidates(c), needKv, needState);
    assert e in Candidates(c);
    CandidateMembers(c, e);
  }

  /**
  Eviction takes entries from the index that are not locked and leaves the others
  untouched, the locked ones in particular.
   */
  lemma EvictTakesUnlocked(c: Cache, needKv: int, needState: int)
    requires OneEach(c.entries)
    ensures var d, v := Evict(c, needKv, needState), Victims(Candidates(c), needKv, needState);
            && OneEach(d.entries)
            && (forall e :: e in v ==> e in c.entries && e.locks == 0)
            && (forall e :: e in d.entries <==> e in c.entries && e !in v)
            && (forall e :: e in c.entries && e.locks > 0 ==> e in d.entries)
  {
    var v := Victims(Candidates(c), needKv, needState);
    forall e | e in v ensures e in c.entries && e.locks == 0 {
      VictimsAreUnlocked(c, needKv, needState, e);
    }
    DropAllMembers(c, v);
  }

  /** No unlocked entry that stays was used less recently than one that went. */
  lemma EvictIsLru(c: Cache, needKv: int, needState: int, gone: Entry, kept: Entry)
    requires OneEach(c.entries) && gone in Victims(Candidates(c), needKv, needState)
    requires kept in Evict(c, needKv, needState).entries && kept.locks == 0
    ensures gone.access <= kept.access
  {
    var queue, v := Candidates(c), Victims(Candidates(c), needKv, needState);
    EvictTakesUnlocked(c, needKv, needState);
    VictimsAreEnough(queue, needKv, needState);
    CandidateMembers(c, kept);
    var i :| 0 <= i < |v| && v[i] == gone;
    var j :| 0 <= j < |queue| && queue[j] == kept;
    assert queue[i] == gone;
    assert forall a :: 0 <= a < |v| ==> v[a] in v;
  }

  /** Either the room asked for is made, with no entry taken in vain, or every unlocked entry is gone. */
  lemma EvictMakesRoom(c: Cache, needKv: int, needState: int)
    requires OneEach(c.entries)
    ensures var d, v := Evict(c, needKv, needState), Victims(Candidates(c), needKv, needState);
            && (Enough(v, needKv, needState) || forall e :: e in d.entries ==> e.locks > 0)
            && (v != [] ==> !Enough(v[..|v| - 1], needKv, needState))
  {
    var v := Victims(Candidates(c), needKv, needState);
    EvictTakesUnlocked(c, needKv, needState);
    VictimsAreEnough(Candidates(c), needKv, needState);
    if v == Candidates(c) {
      forall e | e in Evict(c, needKv, needState).entries ensures e.locks > 0 { CandidateMembers(c, e); }
    }
    if v != [] { VictimsAreNeeded(Candidates(c), needKv, needState, |v| - 1); }
  }
}
