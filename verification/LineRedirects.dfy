/**
The line-retrieval data generator: redirected lines form a functional graph, a
chase along the redirections finds rings, and the register values are resolved in place during
the same pass (benchmark/line_retrieval/gen_data.py).
 */
module LineRedirects {
  import opened Wrappers
  import opened Indices

  type Redirects = seq<Option<nat>>

  ghost predicate WellFormed(red: Redirects) {
    forall i :: 0 <= i < |red| && red[i].Some? ==> red[i].value < |red|
  }

  /** `p` follows redirections, line by line. */
  ghost predicate Walk(red: Redirects, p: seq<nat>) {
    && p != []
    && (forall t :: 0 <= t < |p| ==> p[t] < |red|)
    && (forall s, t :: 0 <= s < t < |p| && t == s + 1 ==> red[p[s]] == Some(p[t]))
  }

  ghost function Last(p: seq<nat>): nat
    requires p != []
  {
    p[|p| - 1]
  }

  /** `p` is the walk from line `i` to the plain line that ends its chain. */
  ghost predicate EndsAt(red: Redirects, i: nat, p: seq<nat>) {
    Walk(red, p) && p[0] == i && red[Last(p)].None?
  }

  /** No walk from `i` reaches a plain line. */
  ghost predicate NeverEnds(red: Redirects, i: nat) {
    forall p :: !EndsAt(red, i, p)
  }

  /** Walks are deterministic. */
  lemma {:induction false} WalkIsPrefix(red: Redirects, p: seq<nat>, q: seq<nat>, t: nat)
    requires Walk(red, p) && Walk(red, q) && p[0] == q[0]
    requires t < |p| && t < |q|
    ensures p[t] == q[t]
  {
    if t > 0 {
      WalkIsPrefix(red, p, q, t - 1);
      assert red[p[t - 1]] == Some(p[t]) && red[q[t - 1]] == Some(q[t]);
    }
  }

  lemma EndIsNotPassed(red: Redirects, p: seq<nat>, q: seq<nat>)
    requires p != [] && EndsAt(red, p[0], p) && Walk(red, q) && p[0] == q[0]
    ensures |q| <= |p|
  {
    if |p| < |q| {
      var next := q[|p|];
      WalkIsPrefix(red, p, q, |p| - 1);
    }
  }

  /** A chain has one end: two ended walks from the same line are equal. */
  lemma EndIsUnique(red: Redirects, i: nat, p: seq<nat>, q: seq<nat>)
    requires EndsAt(red, i, p) && EndsAt(red, i, q)
    ensures p == q
  {
    EndIsNotPassed(red, p, q);
    EndIsNotPassed(red, q, p);
    forall t: nat | t < |p| ensures p[t] == q[t] { WalkIsPrefix(red, p, q, t); }
  }

  /** After a revisit every walk stays inside the lines already seen. */
  lemma {:induction false} RevisitStaysInside(red: Redirects, w: seq<nat>, j: nat, p: seq<nat>, t: nat)
    requires Walk(red, w) && j < |w| - 1 && w[j] == Last(w)
    requires Walk(red, p) && p[0] == w[0] && t < |p|
    ensures exists m :: 0 <= m < |w| - 1 && p[t] == w[m]
  {
    if t > 0 {
      RevisitStaysInside(red, w, j, p, t - 1);
      var m :| 0 <= m < |w| - 1 && p[t - 1] == w[m];
      assert red[p[t - 1]] == Some(p[t]) && red[w[m]] == Some(w[m + 1]);
      assert p[t] == w[if m + 1 == |w| - 1 then j else m + 1];
    }
  }

  lemma RevisitNeverEnds(red: Redirects, w: seq<nat>, j: nat)
    requires Walk(red, w) && j < |w| - 1 && w[j] == Last(w)
    ensures NeverEnds(red, w[0])
  {
    forall p ensures !EndsAt(red, w[0], p) {
      if Walk(red, p) && p[0] == w[0] {
        RevisitStaysInside(red, w, j, p, |p| - 1);
        var m :| 0 <= m < |w| - 1 && Last(p) == w[m];
        assert red[w[m]] == Some(w[m + 1]);
      }
    }
  }

  /** The chain of a redirected line is that line followed by its target's chain. */
  lemma ChainOfTarget(red: Redirects, i: nat, p: seq<nat>)
    requires EndsAt(red, i, p) && red[i].Some?
    ensures |p| > 1 && p[1] == red[i].value && EndsAt(red, red[i].value, p[1..])
    ensures Last(p[1..]) == Last(p)
  {
    assert red[p[0]] == Some(p[1]);
  }

  /** The walk from `i` comes to `cur` for the second time before it comes to any other line twice. */
  ghost predicate Enters(red: Redirects, i: nat, cur: nat) {
    exists w, j: nat :: EntersBy(red, i, cur, w, j)
  }

  ghost predicate EntersBy(red: Redirects, i: nat, cur: nat, w: seq<nat>, j: nat) {
    Walk(red, w) && w[0] == i && j < |w| - 1 && w[j] == cur == Last(w) && NoRepeats(w[..|w| - 1])
  }

  /** There is only one such line. */
  lemma EntryIsUnique(red: Redirects, i: nat, a: nat, b: nat)
    requires Enters(red, i, a) && Enters(red, i, b)
    ensures a == b
  {
    var w, j: nat :| EntersBy(red, i, a, w, j);
    var v, k: nat :| EntersBy(red, i, b, v, k);
    NotShorter(red, i, a, b, w, j, v, k);
    NotShorter(red, i, b, a, v, k, w, j);
    WalkIsPrefix(red, w, v, |w| - 1);
  }

  lemma NotShorter(red: Redirects, i: nat, a: nat, b: nat, w: seq<nat>, j: nat, v: seq<nat>, k: nat)
    requires EntersBy(red, i, a, w, j) && EntersBy(red, i, b, v, k)
    ensures |v| <= |w|
  {
    if |w| < |v| {
      WalkIsPrefix(red, w, v, j);
      WalkIsPrefix(red, w, v, |w| - 1);
      assert false;
    }
  }

  /** That line is on the ring: its own walk comes back to it first. */
  lemma EntryIsOnRing(red: Redirects, i: nat, cur: nat)
    requires Enters(red, i, cur)
    ensures Enters(red, cur, cur)
  {
    var w, j: nat :| EntersBy(red, i, cur, w, j);
    var v := w[j..];
    forall s, t | 0 <= s < t < |v| && t == s + 1 ensures red[v[s]] == Some(v[t]) {
      assert v[s] == w[j + s] && v[t] == w[j + t];
    }
    assert v[..|v| - 1] == w[..|w| - 1][j..];
    assert EntersBy(red, cur, cur, v, 0);
  }

  lemma RevisitEnters(red: Redirects, walk: seq<nat>, cur: nat)
    requires Walk(red, walk + [cur]) && walk != [] && NoRepeats(walk) && cur in walk
    ensures NeverEnds(red, walk[0]) && Enters(red, walk[0], cur)
  {
    var t: nat :| t < |walk| && walk[t] == cur;
    var w := walk + [cur];
    RevisitNeverEnds(red, w, t);
    assert w[..|w| - 1] == walk && w[0] == walk[0];
    assert EntersBy(red, walk[0], cur, w, t);
  }

  /** One chase along the redirections, with the set of visited lines as its ring test. */
  method Chase(red: Redirects, i: nat) returns (chain: Option<seq<nat>>, cur: nat)
    requires WellFormed(red) && i < |red|
    ensures cur < |red|
    ensures chain.None? <==> NeverEnds(red, i)
    ensures chain.Some? ==>
              && EndsAt(red, i, [i] + chain.value)
              && NoRepeats([i] + chain.value)
              && cur == Last([i] + chain.value)
    ensures chain.None? ==> Enters(red, i, cur)
  {
    cur := i;
    var link := [];
    var visited := {};
    ghost var walk := [i];
    while red[cur].Some?
      invariant walk == [i] + link && Walk(red, walk) && cur == Last(walk)
      invariant NoRepeats(walk) && Trail(walk, visited, cur)
      invariant visited <= Upto(|red|) && cur !in visited
      decreases Upto(|red|) - visited
    {
      TrailStep(walk, visited, cur, red[cur].value);
      visited := visited + {cur};
      link := link + [red[cur].value];
      cur := red[cur].value;
      ExtendWalk(red, walk, cur);
      if cur in visited {
        RevisitEnters(red, walk, cur);
        return None, cur;
      }
      walk := walk + [cur];
    }
    assert EndsAt(red, i, walk);
    return Some(link), cur;
  }

  /** The visited lines are those of the walk before the current one. */
  ghost predicate Trail(walk: seq<nat>, visited: set<nat>, cur: nat) {
    (forall v :: v in visited ==> v in walk) && cur in walk && forall v :: v in walk ==> v in visited || v == cur
  }

  lemma TrailStep(walk: seq<nat>, visited: set<nat>, cur: nat, next: nat)
    requires Trail(walk, visited, cur)
    ensures next in walk <==> next in visited + {cur}
    ensures next !in walk ==> Trail(walk + [next], visited + {cur}, next)
  {
  }

  lemma ExtendWalk(red: Redirects, w: seq<nat>, v: nat)
    requires Walk(red, w) && red[Last(w)] == Some(v) && v < |red|
    ensures Walk(red, w + [v]) && (w + [v])[0] == w[0] && Last(w + [v]) == v
    ensures NoRepeats(w) && v !in w ==> NoRepeats(w + [v])
  {
  }

  /** `value` is what the chain of line `i` ends in, if it ends. */
  ghost predicate HoldsEnd(red: Redirects, before: seq<string>, value: string, i: nat)
    requires |red| == |before|
  {
    forall p :: EndsAt(red, i, p) ==> value == before[Last(p)]
  }

  /** `value` is that of the line where the walk of line `i` enters a ring, if it does. */
  ghost predicate HoldsEntry(red: Redirects, before: seq<string>, value: string, i: nat)
    requires |red| == |before|
  {
    forall cur: nat :: cur < |red| && Enters(red, i, cur) ==> value == before[cur]
  }

  /** The recorded link of line `i` is its exact, repeat-free chain, and absent exactly for a ring. */
  ghost predicate LinkIsExact(red: Redirects, link: Option<seq<nat>>, ring: bool, i: nat) {
    && (ring <==> NeverEnds(red, i))
    && (link.None? <==> ring)
    && (link.Some? ==> EndsAt(red, i, [i] + link.value) && NoRepeats([i] + link.value))
  }

  /** A resolved table is a fixed point: a redirected line agrees with its target. */
  lemma ResolvedAgreesWithTarget(red: Redirects, before: seq<string>, after: seq<string>, i: nat)
    requires WellFormed(red) && |red| == |before| == |after| && i < |red|
    requires red[i].Some? && !NeverEnds(red, i)
    requires HoldsEnd(red, before, after[i], i)
    requires HoldsEnd(red, before, after[red[i].value], red[i].value)
    ensures after[i] == after[red[i].value]
  {
    var p :| EndsAt(red, i, p);
    ChainOfTarget(red, i, p);
  }

  lemma EndedWalkHoldsEnd(red: Redirects, before: seq<string>, i: nat, p: seq<nat>)
    requires |red| == |before| && EndsAt(red, i, p)
    ensures HoldsEnd(red, before, before[Last(p)], i)
  {
    forall q | EndsAt(red, i, q) ensures q == p { EndIsUnique(red, i, q, p); }
  }

  /** Line `i` of the pass: the value to store and the link to record. */
  method ResolveOne(red: Redirects, values: array<string>, i: nat, ghost before: seq<string>)
    returns (link: Option<seq<nat>>)
    requires WellFormed(red) && values.Length == |red| == |before| && i < |red|
    requires forall j :: 0 <= j < |red| && red[j].None? ==> values[j] == before[j]
    requires forall j: nat :: j < |red| && Enters(red, j, j) ==> values[j] == before[j]
    modifies values
    ensures HoldsEntry(red, before, values[i], i)
    ensures forall j :: 0 <= j < |red| && j != i ==> values[j] == old(values[j])
    ensures red[i].None? ==> values[i] == old(values[i])
    ensures exists j :: 0 <= j < |red| && values[i] == old(values[j])
    ensures LinkIsExact(red, link, link.None?, i)
    ensures HoldsEnd(red, before, values[i], i)
  {
    if red[i].None? {
      link := Some([]);
      assert EndsAt(red, i, [i] + []);
      EndedWalkHoldsEnd(red, before, i, [i] + []);
      EndedEntersNothing(red, i, [i] + []);
    } else {
      var cur;
      link, cur := Chase(red, i);
      if link.Some? {
        EndedWalkHoldsEnd(red, before, i, [i] + link.value);
        EndedEntersNothing(red, i, [i] + link.value);
      } else {
        EntryIsOnRing(red, i, cur);
        forall c: nat | c < |red| && Enters(red, i, c) ensures c == cur { EntryIsUnique(red, i, c, cur); }
      }
      values[i] := values[cur];
    }
  }

  /** A chain that ends enters no ring. */
  lemma EndedEntersNothing(red: Redirects, i: nat, p: seq<nat>)
    requires EndsAt(red, i, p)
    ensures forall cur: nat :: !Enters(red, i, cur)
  {
    forall cur: nat ensures !Enters(red, i, cur) {
      if Enters(red, i, cur) {
        var w, j: nat :| EntersBy(red, i, cur, w, j);
        RevisitNeverEnds(red, w, j);
        assert false;
      }
    }
  }

  /** What holds once the lines before `i` are resolved. */
  ghost predicate Progress(red: Redirects, before: seq<string>, now: seq<string>,
                           links: seq<Option<seq<nat>>>, rings: set<nat>, i: nat) {
    && |links| == i <= |red| == |before| == |now| && rings <= Upto(i)
    && (forall j :: 0 <= j < i ==> LinkIsExact(red, links[j], j in rings, j))
    && (forall j :: 0 <= j < i ==> HoldsEnd(red, before, now[j], j))
    && (forall j :: 0 <= j < i ==> HoldsEntry(red, before, now[j], j))
    && (forall j :: 0 <= j < |red| && (i <= j || red[j].None?) ==> now[j] == before[j])
    && (forall j :: 0 <= j < |red| ==> now[j] in before)
  }

  /** Lines on a ring still have their values: the chase from one comes back to it and copies its own value. */
  lemma RingsAreKept(red: Redirects, before: seq<string>, now: seq<string>,
                     links: seq<Option<seq<nat>>>, rings: set<nat>, i: nat)
    requires Progress(red, before, now, links, rings, i)
    ensures forall j: nat :: j < |red| && Enters(red, j, j) ==> now[j] == before[j]
  {
  }

  lemma ProgressStep(red: Redirects, before: seq<string>, was: seq<string>, now: seq<string>,
                     links: seq<Option<seq<nat>>>, rings: set<nat>, i: nat, link: Option<seq<nat>>)
    requires Progress(red, before, was, links, rings, i) && i < |red| == |now|
    requires forall j :: 0 <= j < |red| && j != i ==> now[j] == was[j]
    requires (red[i].None? ==> now[i] == was[i]) && exists j :: 0 <= j < |red| && now[i] == was[j]
    requires LinkIsExact(red, link, link.None?, i) && HoldsEnd(red, before, now[i], i) && HoldsEntry(red, before, now[i], i)
    ensures Progress(red, before, now, links + [link], if link.None? then rings + {i} else rings, i + 1)
  {
  }

  /**
  The whole pass.  `values` is overwritten while later chases still read it;
  that is harmless because a chase that ends reads a plain line, and plain
  lines are never overwritten.  A chase that does not end reads a line on a ring,
  and these keep their values as well.
   */
  method ResolveAll(red: Redirects, values: array<string>)
    returns (links: seq<Option<seq<nat>>>, rings: set<nat>)
    requires WellFormed(red) && values.Length == |red|
    modifies values
    ensures |links| == |red| && rings <= Upto(|red|)
    ensures forall i :: 0 <= i < |red| ==> LinkIsExact(red, links[i], i in rings, i)
    ensures forall i :: 0 <= i < |red| ==> HoldsEnd(red, old(values[..]), values[i], i)
    ensures forall i :: 0 <= i < |red| ==> HoldsEntry(red, old(values[..]), values[i], i)
    ensures forall i :: 0 <= i < |red| && i !in rings && red[i].Some? ==> values[i] == values[red[i].value]
    ensures forall i :: 0 <= i < |red| ==> values[i] in old(values[..])
  {
    ghost var before := values[..];
    links := [];
    rings := {};
    for i := 0 to |red|
      invariant Progress(red, before, values[..], links, rings, i)
    {
      ghost var was := values[..];
      RingsAreKept(red, before, values[..], links, rings, i);
      var link := ResolveOne(red, values, i, before);
      ProgressStep(red, before, was, values[..], links, rings, i, link);
      links := links + [link];
      if link.None? {
        rings := rings + {i};
      }
    }
    AllResolved(red, before, values[..], links, rings);
  }

  lemma AllResolved(red: Redirects, before: seq<string>, after: seq<string>,
                    links: seq<Option<seq<nat>>>, rings: set<nat>)
    requires WellFormed(red) && |red| == |before| == |after| == |links|
    requires forall i :: 0 <= i < |red| ==> LinkIsExact(red, links[i], i in rings, i)
    requires forall i :: 0 <= i < |red| ==> HoldsEnd(red, before, after[i], i)
    ensures forall i :: 0 <= i < |red| && i !in rings && red[i].Some? ==> after[i] == after[red[i].value]
  {
    forall j: nat | j < |red| && j !in rings && red[j].Some? ensures after[j] == after[red[j].value] {
      ResolvedAgreesWithTarget(red, before, after, j);
    }
  }

  /** The lines grouped by the number of lookups needed to reach their value. */
  method GroupByHops(links: seq<Option<seq<nat>>>) returns (groups: map<nat, seq<nat>>)
    ensures forall h :: h in groups ==> groups[h] != [] && Ascending(groups[h])
    ensures forall h, i :: h in groups && i in groups[h] ==> InGroup(links, h, i)
    ensures forall h, i :: InGroup(links, h, i) ==> h in groups && i in groups[h]
  {
    groups := map[];
    for n := 0 to |links|
      invariant forall h :: h in groups ==> groups[h] != [] && Ascending(groups[h])
      invariant forall h, i :: h in groups && i in groups[h] ==> i < n && InGroup(links, h, i)
      invariant forall h: nat, i: nat :: i < n && InGroup(links, h, i) ==> h in groups && i in groups[h]
    {
      if links[n].Some? {
        var h := |links[n].value| + 1;
        var sofar := if h in groups then groups[h] else [];
        AppendLargest(sofar, n);
        groups := groups[h := sofar + [n]];
      }
    }
  }

  /** Line `i` ends its chain after `h` lookups. */
  ghost predicate InGroup(links: seq<Option<seq<nat>>>, h: nat, i: nat) {
    i < |links| && links[i].Some? && |links[i].value| + 1 == h
  }

  lemma AppendLargest(s: seq<nat>, n: nat)
    requires Ascending(s) && forall x :: x in s ==> x < n
    ensures Ascending(s + [n])
  {
    assert forall a :: 0 <= a < |s| ==> s[a] in s;
  }
}
