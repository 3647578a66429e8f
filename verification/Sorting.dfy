/** Python's `sorted` with a key. */
module Sorting {
  import opened Indices

  ghost predicate SortedBy<T>(key: T -> int, xs: seq<T>) {
    forall i, j :: 0 <= i < j < |xs| ==> key(xs[i]) <= key(xs[j])
  }

  /** `sorted(xs, key=...)`: stable, because equal keys are inserted in front. */
  function SortBy<T>(key: T -> int, xs: seq<T>): (r: seq<T>)
    ensures SortedBy(key, r) && multiset(r) == multiset(xs)
  {
    if xs == [] then []
    else
      assert xs == [xs[0]] + xs[1..];
      var rest := SortBy(key, xs[1..]);
      var k := Position(key, xs[0], rest);
      assert rest == rest[..k] + rest[k..];
      InsertIsSorted(key, xs[0], rest, k);
      rest[..k] + [xs[0]] + rest[k..]
  }

  function Position<T>(key: T -> int, x: T, xs: seq<T>, from: nat := 0): (k: nat)
    requires SortedBy(key, xs) && from <= |xs|
    requires from > 0 ==> key(xs[from - 1]) < key(x)
    ensures k <= |xs| && (k > 0 ==> key(xs[k - 1]) < key(x)) && (k < |xs| ==> key(x) <= key(xs[k]))
    decreases |xs| - from
  {
    if from == |xs| || key(x) <= key(xs[from]) then from else Position(key, x, xs, from + 1)
  }

  lemma InsertIsSorted<T>(key: T -> int, x: T, xs: seq<T>, k: nat)
    requires SortedBy(key, xs) && k <= |xs|
    requires (k > 0 ==> key(xs[k - 1]) < key(x)) && (k < |xs| ==> key(x) <= key(xs[k]))
    ensures SortedBy(key, xs[..k] + [x] + xs[k..])
  {
    var r := xs[..k] + [x] + xs[k..];
    forall i, j | 0 <= i < j < |r| ensures key(r[i]) <= key(r[j]) {
      assert r[i] == if i < k then xs[i] else if i == k then x else xs[i - 1];
      assert r[j] == if j < k then xs[j] else if j == k then x else xs[j - 1];
    }
  }

  /** What is sorted already is left alone. */
  lemma {:induction false} SortOfSorted<T>(key: T -> int, xs: seq<T>)
    requires SortedBy(key, xs)
    ensures SortBy(key, xs) == xs
  {
    if xs != [] {
      SortOfSorted(key, xs[1..]);
      GoesFirst(key, xs[0], xs[1..]);
      assert xs == [xs[0]] + xs[1..];
    }
  }

  lemma GoesFirst<T>(key: T -> int, x: T, rest: seq<T>)
    requires SortedBy(key, rest) && (rest != [] ==> key(x) <= key(rest[0]))
    ensures Position(key, x, rest) == 0 && rest[..0] + [x] + rest[0..] == [x] + rest
  {
  }

  /** `perm` lists the positions below `n`, each once. */
  ghost predicate Permutes(perm: seq<nat>, n: nat) {
    |perm| == n && NoRepeats(perm) && (forall i :: 0 <= i < n ==> perm[i] < n) && forall x: nat :: x < n ==> x in perm
  }

  /** `r` is `xs` in the order of the positions `perm`. */
  ghost predicate Follows<T>(xs: seq<T>, r: seq<T>, perm: seq<nat>) {
    |perm| == |r| && forall i :: 0 <= i < |r| ==> perm[i] < |xs| && r[i] == xs[perm[i]]
  }

  /** Equal keys stay in the order of their positions. */
  ghost predicate Stable<T>(key: T -> int, r: seq<T>, perm: seq<nat>) {
    |perm| == |r| && forall i, j :: 0 <= i < j < |r| && key(r[i]) == key(r[j]) ==> perm[i] < perm[j]
  }

  /** Sorting is a stable rearrangement. */
  lemma {:induction false} SortArranges<T>(key: T -> int, xs: seq<T>) returns (perm: seq<nat>)
    ensures Permutes(perm, |xs|) && Follows(xs, SortBy(key, xs), perm) && Stable(key, SortBy(key, xs), perm)
  {
    if xs == [] {
      perm := [];
    } else {
      var tail := SortArranges(key, xs[1..]);
      var rest := SortBy(key, xs[1..]);
      var k := Position(key, xs[0], rest);
      perm := Inserted(Raised(tail), k, 0);
      assert SortBy(key, xs) == Inserted(rest, k, xs[0]);
      InsertPermutes(tail, |xs| - 1, k);
      InsertFollows(xs, rest, tail, k);
      InsertIsStable(key, xs[0], rest, tail, k);
    }
  }

  function Raised(perm: seq<nat>): (r: seq<nat>)
    ensures |r| == |perm| && forall i :: 0 <= i < |r| ==> r[i] == perm[i] + 1
  {
    seq(|perm|, i requires 0 <= i < |perm| => perm[i] + 1)
  }

  function Inserted<T>(s: seq<T>, k: nat, x: T): (r: seq<T>)
    requires k <= |s|
    ensures |r| == |s| + 1
    ensures forall i :: 0 <= i < |r| ==> r[i] == if i < k then s[i] else if i == k then x else s[i - 1]
  {
    s[..k] + [x] + s[k..]
  }

  lemma InsertPermutes(tail: seq<nat>, n: nat, k: nat)
    requires Permutes(tail, n) && k <= n
    ensures Permutes(Inserted(Raised(tail), k, 0), n + 1)
  {
    var up := Raised(tail);
    var perm := Inserted(up, k, 0);
    forall x: nat | x < n + 1 ensures x in perm {
      if x == 0 {
        assert perm[k] == 0;
      } else {
        var y: nat := x - 1;
        assert y in tail;
        var i :| 0 <= i < |tail| && tail[i] == y;
        assert up[i] == x && perm[if i < k then i else i + 1] == x;
      }
    }
    forall i, j | 0 <= i < j < |perm| ensures perm[i] != perm[j] {
      var a := if i < k then i else i - 1;
      var b := if j < k then j else j - 1;
      assert i != k && j != k ==> tail[a] != tail[b];
    }
  }

  lemma InsertFollows<T>(xs: seq<T>, rest: seq<T>, tail: seq<nat>, k: nat)
    requires xs != [] && Follows(xs[1..], rest, tail) && k <= |rest|
    ensures Follows(xs, Inserted(rest, k, xs[0]), Inserted(Raised(tail), k, 0))
  {
  }

  lemma InsertIsStable<T>(key: T -> int, x: T, rest: seq<T>, tail: seq<nat>, k: nat)
    requires SortedBy(key, rest) && Stable(key, rest, tail) && k <= |rest|
    requires k > 0 ==> key(rest[k - 1]) < key(x)
    ensures Stable(key, Inserted(rest, k, x), Inserted(Raised(tail), k, 0))
  {
    var r, perm := Inserted(rest, k, x), Inserted(Raised(tail), k, 0);
    forall i, j | 0 <= i < j < |r| && key(r[i]) == key(r[j]) ensures perm[i] < perm[j] {
      PairIsStable(key, x, rest, tail, k, i, j);
    }
  }

  lemma PairIsStable<T>(key: T -> int, x: T, rest: seq<T>, tail: seq<nat>, k: nat, i: nat, j: nat)
    requires SortedBy(key, rest) && Stable(key, rest, tail) && k <= |rest| && i < j <= |rest|
    requires k > 0 ==> key(rest[k - 1]) < key(x)
    requires key(Inserted(rest, k, x)[i]) == key(Inserted(rest, k, x)[j])
    ensures Inserted(Raised(tail), k, 0)[i] < Inserted(Raised(tail), k, 0)[j]
  {
    if j == k {
      BelowInserted(key, x, rest, k, i);
    } else if i != k {
      var a, b := if i < k then i else i - 1, if j < k then j else j - 1;
      assert tail[a] < tail[b];
    }
  }

  lemma BelowInserted<T>(key: T -> int, x: T, rest: seq<T>, k: nat, i: nat)
    requires SortedBy(key, rest) && i < k <= |rest| && key(rest[k - 1]) < key(x)
    ensures key(rest[i]) < key(x)
  {
  }
}
