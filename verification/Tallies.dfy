/** Sums and counts over sequences of numbers. */
module Tallies {
  function Sum(xs: seq<nat>): nat {
    if xs == [] then 0 else xs[0] + Sum(xs[1..])
  }

  /** How many elements exceed `r`. */
  function CountAbove(xs: seq<nat>, r: nat): nat {
    if xs == [] then 0 else (if xs[0] > r then 1 else 0) + CountAbove(xs[1..], r)
  }

  lemma {:induction false} SumUpdate(xs: seq<nat>, i: nat, v: nat)
    requires i < |xs|
    ensures Sum(xs[i := v]) + xs[i] == Sum(xs) + v
  {
    if i == 0 {
      assert xs[i := v][1..] == xs[1..];
    } else {
      SumUpdate(xs[1..], i - 1, v);
      assert xs[i := v][1..] == xs[1..][i - 1 := v];
    }
  }

  lemma {:induction false} SumConcat(a: seq<nat>, b: seq<nat>)
    ensures Sum(a + b) == Sum(a) + Sum(b)
  {
    if a == [] {
      assert a + b == b;
    } else {
      SumConcat(a[1..], b);
      assert (a + b)[1..] == a[1..] + b;
    }
  }

  lemma {:induction false} CountUpdate(xs: seq<nat>, i: nat, v: nat, r: nat)
    requires i < |xs|
    ensures CountAbove(xs[i := v], r) + (if xs[i] > r then 1 else 0) == CountAbove(xs, r) + (if v > r then 1 else 0)
  {
    if i == 0 {
      assert xs[i := v][1..] == xs[1..];
    } else {
      CountUpdate(xs[1..], i - 1, v, r);
      assert xs[i := v][1..] == xs[1..][i - 1 := v];
    }
  }

  lemma {:induction false} SumMonotone(a: seq<nat>, b: seq<nat>)
    requires |a| == |b| && forall i :: 0 <= i < |a| ==> a[i] <= b[i]
    ensures Sum(a) <= Sum(b)
    ensures (exists i :: 0 <= i < |a| && a[i] < b[i]) ==> Sum(a) < Sum(b)
    ensures Sum(a) == Sum(b) ==> a == b
  {
    if a != [] {
      SumMonotone(a[1..], b[1..]);
      if i :| 0 <= i < |a| && a[i] < b[i] {
        if i > 0 { assert a[1..][i - 1] < b[1..][i - 1]; }
      }
      assert a == [a[0]] + a[1..] && b == [b[0]] + b[1..];
    }
  }

  lemma {:induction false} CountMonotone(a: seq<nat>, b: seq<nat>, r: nat)
    requires |a| == |b| && forall i :: 0 <= i < |a| ==> a[i] > r ==> b[i] > r
    ensures CountAbove(a, r) <= CountAbove(b, r)
    ensures CountAbove(a, r) == CountAbove(b, r) ==> forall i :: 0 <= i < |a| && b[i] > r ==> a[i] > r
  {
    if a != [] {
      CountMonotone(a[1..], b[1..], r);
      if CountAbove(a, r) == CountAbove(b, r) {
        forall i | 0 <= i < |a| && b[i] > r ensures a[i] > r {
          if i > 0 { assert b[1..][i - 1] > r; }
        }
      }
    }
  }

  lemma {:induction false} ZeroTallies(xs: seq<nat>, r: nat)
    requires forall i :: 0 <= i < |xs| ==> xs[i] == 0
    ensures Sum(xs) == 0 && CountAbove(xs, r) == 0
  {
    if xs != [] { ZeroTallies(xs[1..], r); }
  }

  /** How many elements exceed each of 0..n, summed. */
  function SumOfCounts(xs: seq<nat>, n: nat): nat {
    if n == 0 then 0 else SumOfCounts(xs, n - 1) + CountAbove(xs, n - 1)
  }

  /** Counting by rounds and counting by clients give the same total. */
  lemma {:induction false} DoubleCount(xs: seq<nat>, n: nat)
    requires forall i :: 0 <= i < |xs| ==> xs[i] <= n
    ensures SumOfCounts(xs, n) == Sum(xs)
  {
    if xs == [] {
      CountsOfNone(n);
    } else {
      DoubleCount(xs[1..], n);
      SplitFirst(xs, n);
    }
  }

  lemma {:induction false} CountsOfNone(n: nat)
    ensures SumOfCounts([], n) == 0
  {
    if n > 0 { CountsOfNone(n - 1); }
  }

  lemma {:induction false} SplitFirst(xs: seq<nat>, n: nat)
    requires xs != []
    ensures SumOfCounts(xs, n) == (if xs[0] < n then xs[0] else n) + SumOfCounts(xs[1..], n)
  {
    if n > 0 { SplitFirst(xs, n - 1); }
  }

  /** How many elements equal `v`. */
  function CountEqual(xs: seq<nat>, v: nat): nat {
    if xs == [] then 0 else (if xs[0] == v then 1 else 0) + CountEqual(xs[1..], v)
  }

  lemma {:induction false} CountEqualUpdate(xs: seq<nat>, i: nat, w: nat, v: nat)
    requires i < |xs|
    ensures CountEqual(xs[i := w], v) + (if xs[i] == v then 1 else 0) == CountEqual(xs, v) + (if w == v then 1 else 0)
  {
    if i == 0 {
      assert xs[i := w][1..] == xs[1..];
    } else {
      CountEqualUpdate(xs[1..], i - 1, w, v);
      assert xs[i := w][1..] == xs[1..][i - 1 := w];
    }
  }

  lemma {:induction false} CountEqualAppend(xs: seq<nat>, w: nat, v: nat)
    ensures CountEqual(xs + [w], v) == CountEqual(xs, v) + if w == v then 1 else 0
  {
    if xs == [] {
      assert xs + [w] == [w];
    } else {
      CountEqualAppend(xs[1..], w, v);
      assert (xs + [w])[1..] == xs[1..] + [w];
    }
  }
}
