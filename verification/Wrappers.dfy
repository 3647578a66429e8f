/** Optional values and results, in place of the source's `None` and exceptions. */
module Wrappers {
  datatype Option<+T> = None | Some(value: T)

  datatype Result<+T> = Success(value: T) | Failure(error: string)
}

/** Finite index sets and injective sequences. */
module Indices {
  /** The indices 0..n. */
  ghost function Upto(n: nat): (s: set<nat>)
    ensures forall v: nat :: v in s <==> v < n
    ensures |s| == n
  {
    if n == 0 then {} else Upto(n - 1) + {n - 1}
  }

  ghost predicate NoRepeats<T>(s: seq<T>) {
    forall a, b :: 0 <= a < b < |s| ==> s[a] != s[b]
  }

  ghost predicate Ascending(s: seq<nat>) {
    forall a, b :: 0 <= a < b < |s| ==> s[a] < s[b]
  }

  lemma FirstIsMember<T>(q: seq<T>)
    ensures |q| > 0 ==> q[0] in q
  {
  }

  ghost function Members(q: seq<nat>): (r: set<nat>)
    ensures forall c :: c in r <==> c in q
  {
    set c | c in q
  }

  lemma {:induction false} DistinctSize(q: seq<nat>)
    requires NoRepeats(q)
    ensures |Members(q)| == |q|
  {
    if q == [] {
      assert Members(q) == {};
    } else {
      DistinctSize(q[1..]);
      assert Members(q) == Members(q[1..]) + {q[0]};
    }
  }

  /** Distinct indices below `n` that leave one out are fewer than `n`. */
  lemma RoomForOne(q: seq<nat>, n: nat, c: nat)
    requires NoRepeats(q) && c < n && c !in q && forall d :: d in q ==> d < n
    ensures |q| < n
  {
    DistinctSize(q);
    SubsetSize(Members(q) + {c}, Upto(n));
  }

  lemma SubsetSize<T>(a: set<T>, b: set<T>)
    requires a <= b
    ensures |a| <= |b|
  {
    assert b == a + (b - a);
  }

  /** An ascending list is determined by its members. */
  lemma {:induction false} AscendingIsUnique(a: seq<nat>, b: seq<nat>)
    requires Ascending(a) && Ascending(b) && forall x :: x in a <==> x in b
    ensures a == b
  {
    if a == [] || b == [] {
      FirstIsMember(a);
      FirstIsMember(b);
    } else {
      SameFirst(a, b);
      AscendingIsUnique(a[1..], b[1..]);
      assert a == [a[0]] + a[1..] && b == [b[0]] + b[1..];
    }
  }

  lemma SameFirst(a: seq<nat>, b: seq<nat>)
    requires a != [] && b != [] && Ascending(a) && Ascending(b) && forall x :: x in a <==> x in b
    ensures a[0] == b[0] && forall x :: x in a[1..] <==> x in b[1..]
  {
    assert a[0] in a && b[0] in b;
    forall x ensures x in a[1..] <==> x in a && x != a[0] { assert a == [a[0]] + a[1..]; }
    forall x ensures x in b[1..] <==> x in b && x != b[0] { assert b == [b[0]] + b[1..]; }
  }

  function RemoveAt<T>(s: seq<T>, k: nat): seq<T>
    requires k < |s|
  {
    s[..k] + s[k + 1..]
  }

  lemma RemoveAtMultiset<T>(s: seq<T>, k: nat)
    requires k < |s|
    ensures multiset(s) == multiset(RemoveAt(s, k)) + multiset{s[k]}
  {
    assert s == s[..k] + [s[k]] + s[k + 1..];
  }

  /** The last element of one permutation is somewhere in the other, and the rest match. */
  lemma MatchLast<T>(a: seq<T>, b: seq<T>) returns (k: nat)
    requires a != [] && multiset(a) == multiset(b)
    ensures k < |b| && b[k] == a[|a| - 1]
    ensures multiset(RemoveAt(b, k)) == multiset(a[..|a| - 1])
  {
    var n := |a| - 1;
    assert a == a[..n] + [a[n]];
    assert a[n] in multiset(b);
    k :| 0 <= k < |b| && b[k] == a[n];
    RemoveAtMultiset(b, k);
    assert multiset(RemoveAt(b, k)) == multiset(b) - multiset{b[k]};
  }
}
