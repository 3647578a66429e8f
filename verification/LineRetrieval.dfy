/**
Line retrieval end to end: the generated lines, the query filter of the
evaluation, and what a reader can look up in the prompt that is sent
(benchmark/line_retrieval/gen_data.py, benchmark/line_retrieval/bench_sglang.py).
 */
module LineRetrieval {
  import opened Wrappers
  import opened Indices
  import opened LineRedirects

  /** A line of the prompt: it gives a value, or names the line that does. */
  datatype Line = Plain(name: string, value: string) | SameAs(name: string, target: string)

  datatype LineObject = LineObject(
    names: seq<string>, lines: seq<Line>, values: seq<string>,
    links: seq<Option<seq<nat>>>, groups: map<nat, seq<nat>>)

  datatype Query = Query(dst: nat, expected: string, parts: seq<seq<Line>>)

  /** The text of every line says what `red` and the original values say. */
  ghost predicate Written(lines: seq<Line>, names: seq<string>, red: Redirects, values: seq<string>)
    requires WellFormed(red)
  {
    && |lines| == |names| == |values| == |red|
    && forall i :: 0 <= i < |lines| ==>
         lines[i] == if red[i].Some? then SameAs(names[i], names[red[i].value]) else Plain(names[i], values[i])
  }

  /** A data file produced from `red` and the original `values`. */
  ghost predicate Generated(obj: LineObject, red: Redirects, values: seq<string>) {
    && WellFormed(red) && NoRepeats(obj.names)
    && Written(obj.lines, obj.names, red, values)
    && |obj.values| == |obj.links| == |red|
    && (forall i :: 0 <= i < |red| ==> LinkIsExact(red, obj.links[i], obj.links[i].None?, i))
    && (forall i :: 0 <= i < |red| ==> HoldsEnd(red, values, obj.values[i], i))
    && (forall h :: h in obj.groups ==> Ascending(obj.groups[h]))
    && (forall h, i :: h in obj.groups && i in obj.groups[h] ==> InGroup(obj.links, h, i))
    && (forall h, i :: InGroup(obj.links, h, i) ==> h in obj.groups && i in obj.groups[h])
    && (forall i :: 0 <= i < |red| ==> HoldsEntry(red, values, obj.values[i], i))
  }

  /** The raw lines, then one rewrite for each drawn (line, target) pair. */
  method WriteLines(names: seq<string>, values: seq<string>, drawn: seq<(nat, nat)>)
    returns (lines: seq<Line>, red: Redirects)
    requires |names| == |values|
    requires forall d :: d in drawn ==> d.0 < |names| && d.1 < d.0 * 2 + 100 && d.1 < |names|
    ensures WellFormed(red) && Written(lines, names, red, values)
    ensures forall i :: 0 <= i < |red| ==> (red[i].Some? <==> exists d :: d in drawn && d.0 == i)
    ensures forall i :: 0 <= i < |red| && red[i].Some? ==> (i as nat, red[i].value) in drawn
  {
    lines := seq(|names|, i requires 0 <= i < |names| => Plain(names[i], values[i]));
    red := seq(|names|, _ => None);
    for k := 0 to |drawn|
      invariant |red| == |names| && WellFormed(red) && Written(lines, names, red, values)
      invariant forall i :: 0 <= i < |red| && red[i].Some? ==> (i as nat, red[i].value) in drawn[..k]
      invariant forall j :: 0 <= j < k ==> red[drawn[j].0].Some?
    {
      var (i, t) := drawn[k];
      assert drawn[k] in drawn;
      lines := lines[i := SameAs(names[i], names[t])];
      red := red[i := Some(t)];
      assert drawn[..k + 1] == drawn[..k] + [drawn[k]];
    }
    assert drawn[..|drawn|] == drawn;
  }

  /** The generator, from fresh names and drawn redirections to the data file. */
  method GenerateLines(names: seq<string>, drawn: seq<(nat, nat)>, values: array<string>)
    returns (obj: LineObject, red: Redirects)
    requires |names| == values.Length && NoRepeats(names)
    requires forall d :: d in drawn ==> d.0 < |names| && d.1 < d.0 * 2 + 100 && d.1 < |names|
    modifies values
    ensures Generated(obj, red, old(values[..])) && obj.names == names
  {
    var lines;
    lines, red := WriteLines(names, values[..], drawn);
    var links, rings := ResolveAll(red, values);
    var groups := GroupByHops(links);
    obj := LineObject(names, lines, values[..], links, groups);
  }

  // ---- What a reader of the prompt can find out ----

  function Find(body: seq<Line>, name: string): Option<Line> {
    if body == [] then None
    else if body[0].name == name then Some(body[0])
    else Find(body[1..], name)
  }

  /** Look `name` up in `body`, following references, with at most `lookups` lookups. */
  function Answer(body: seq<Line>, name: string, lookups: nat): Option<string>
    decreases lookups
  {
    if lookups == 0 then None
    else
      match Find(body, name)
      case None => None
      case Some(Plain(_, value)) => Some(value)
      case Some(SameAs(_, target)) => Answer(body, target, lookups - 1)
  }

  lemma {:induction false} FindByName(body: seq<Line>, i: nat)
    requires i < |body| && forall j :: 0 <= j < i ==> body[j].name != body[i].name
    ensures Find(body, body[i].name) == Some(body[i])
  {
    if i > 0 { FindByName(body[1..], i - 1); }
  }

  /**
  A prefix that holds every line of a chain answers it, with one lookup for
  each line of the chain and no fewer.
   */
  lemma {:induction false} ChainIsAnswered(
      red: Redirects, names: seq<string>, values: seq<string>, lines: seq<Line>, body: seq<Line>,
      i: nat, p: seq<nat>, k: nat)
    requires WellFormed(red) && NoRepeats(names) && Written(lines, names, red, values)
    requires body <= lines && EndsAt(red, i, p) && forall v :: v in p ==> v < |body|
    ensures Answer(body, names[i], k) == if k < |p| then None else Some(values[Last(p)])
    decreases k
  {
    assert p[0] in p;
    FindByName(body, i);
    if k > 0 && red[i].Some? {
      ChainOfTarget(red, i, p);
      assert forall v :: v in p[1..] ==> v in p;
      ChainIsAnswered(red, names, values, lines, body, red[i].value, p[1..], k - 1);
    } else if red[i].None? {
      EndIsUnique(red, i, p, [i]);
    }
  }

  // ---- The evaluation ----

  /** The filter of `eval_model`: the query and its whole chain lie in the prefix. */
  predicate Accepted(links: seq<Option<seq<nat>>>, src: int, q: nat) {
    q < |links| && links[q].Some? && (forall l :: l in links[q].value ==> l <= src) && q < src
  }

  function Filter(links: seq<Option<seq<nat>>>, src: int, group: seq<nat>): (r: seq<nat>)
    ensures forall q :: q in r <==> q in group && Accepted(links, src, q)
  {
    if group == [] then []
    else
      (if Accepted(links, src, group[0]) then [group[0]] else []) + Filter(links, src, group[1..])
  }

  /** Where in the group the accepted lines stand. */
  function Positions(links: seq<Option<seq<nat>>>, src: int, group: seq<nat>, from: nat := 0): (at: seq<nat>)
    requires from <= |group|
    ensures Ascending(at)
    ensures forall i: nat :: i in at <==> from <= i < |group| && Accepted(links, src, group[i])
    decreases |group| - from
  {
    if from == |group| then []
    else
      var rest := Positions(links, src, group, from + 1);
      assert forall k :: 0 <= k < |rest| ==> rest[k] in rest;
      if Accepted(links, src, group[from]) then [from] + rest else rest
  }

  lemma {:induction false} FilterKeepsOrder(links: seq<Option<seq<nat>>>, src: int, group: seq<nat>, from: nat)
    requires from <= |group|
    ensures var at, r := Positions(links, src, group, from), Filter(links, src, group[from..]);
            r == Pick(group, at)
    decreases |group| - from
  {
    if from < |group| {
      FilterKeepsOrder(links, src, group, from + 1);
      assert group[from..][1..] == group[from + 1..];
      PickFirst(group, from, Positions(links, src, group, from + 1));
    }
  }

  /** The elements at the given positions. */
  function Pick(group: seq<nat>, at: seq<nat>): (r: seq<nat>)
    requires forall i :: i in at ==> i < |group|
    ensures |r| == |at| && forall k :: 0 <= k < |r| ==> at[k] in at && r[k] == group[at[k]]
  {
    assert forall k :: 0 <= k < |at| ==> at[k] in at;
    seq(|at|, k requires 0 <= k < |at| => group[at[k]])
  }

  lemma PickFirst(group: seq<nat>, i: nat, at: seq<nat>)
    requires i < |group| && forall j :: j in at ==> j < |group|
    ensures Pick(group, [i] + at) == [group[i]] + Pick(group, at)
  {
  }

  /** The prefix of the lines that the prompt shows; a slice clamps at the end of the list. */
  function Body(lines: seq<Line>, src: nat): seq<Line> {
    if src + 1 <= |lines| then lines[..src + 1] else lines
  }

  function Split(body: seq<Line>): (parts: seq<seq<Line>>)
    ensures |parts| == 4 && parts[0] + parts[1] + parts[2] + parts[3] == body
    ensures |parts[0]| == |parts[1]| == |parts[2]| <= |parts[3]| <= |parts[0]| + 3
  {
    var n := |body| / 4;
    [body[..n], body[n..2 * n], body[2 * n..3 * n], body[3 * n..]]
  }

  lemma NotNegative(a: real, b: real)
    requires a >= 0.0 && b >= 0.0
    ensures a * b >= 0.0
  {
  }

  /** The index at a fraction of `n` elements: rounded down, and the last one at the end. */
  function At(n: nat, fraction: real): (k: nat)
    requires n > 0 && fraction >= 0.0
    ensures k < n && k as real <= n as real * fraction && (k + 1 < n ==> n as real * fraction < (k + 1) as real)
  {
    NotNegative(n as real, fraction);
    var at := (n as real * fraction).Floor;
    if at < n - 1 then at else n - 1
  }

  /** One (source index, destination fraction) pair of `eval_model`. */
  function SelectQuery(obj: LineObject, h: nat, src: int, fraction: real): (r: Result<Query>)
    requires fraction >= 0.0
    requires |obj.values| == |obj.links|
    ensures r.Failure? <==>
      h !in obj.groups || forall q :: q in obj.groups[h] ==>
        !(q < |obj.links| && obj.links[q].Some? && (forall l :: l in obj.links[q].value ==> l <= src) && q < src)
    ensures r.Success? ==>
      && r.value.dst in obj.groups[h] && r.value.dst < |obj.links| && obj.links[r.value.dst].Some?
      && (forall l :: l in obj.links[r.value.dst].value ==> l <= src) && 0 <= r.value.dst < src
      && r.value.expected == obj.values[r.value.dst]
      && Quarters(r.value.parts, if src < |obj.lines| then obj.lines[..src + 1] else obj.lines)
  {
    if h !in obj.groups then Failure("KeyError")
    else
      var queries := Filter(obj.links, src, obj.groups[h]);
      if queries == [] then Failure("IndexError")
      else
        var dst := queries[At(|queries|, fraction)];
        assert dst in queries;
        Success(Query(dst, obj.values[dst], Split(Body(obj.lines, src))))
  }

  /** `body` in four parts, the first three of a quarter of its length each. */
  ghost predicate Quarters(parts: seq<seq<Line>>, body: seq<Line>) {
    && |parts| == 4 && parts[0] + parts[1] + parts[2] + parts[3] == body
    && |parts[0]| == |parts[1]| == |parts[2]| == |body| / 4
  }

  /**
  The destination: with `at` the ascending list of the positions in the group at which a line
  fits, it is the line at the given fraction of that list.
   */
  lemma DestinationIs(obj: LineObject, h: nat, src: int, fraction: real, at: seq<nat>)
    requires fraction >= 0.0 && |obj.values| == |obj.links| && SelectQuery(obj, h, src, fraction).Success?
    requires Ascending(at)
    requires forall i: nat :: i in at <==> i < |obj.groups[h]| && Accepted(obj.links, src, obj.groups[h][i])
    ensures at != [] && at[At(|at|, fraction)] < |obj.groups[h]|
    ensures SelectQuery(obj, h, src, fraction).value.dst == obj.groups[h][at[At(|at|, fraction)]]
  {
    var group := obj.groups[h];
    FilterKeepsOrder(obj.links, src, group, 0);
    assert group[0..] == group;
    AscendingIsUnique(at, Positions(obj.links, src, group));
    assert at[At(|at|, fraction)] in at;
  }

  /**
  Every selected query can be answered from the four parts that are sent: the
  stored label is found after exactly `h` lookups, and not with fewer.
   */
  lemma QueryIsAnswerable(obj: LineObject, red: Redirects, values: seq<string>, h: nat, src: int, fraction: real, k: nat)
    requires Generated(obj, red, values) && fraction >= 0.0
    requires SelectQuery(obj, h, src, fraction).Success?
    ensures var q := SelectQuery(obj, h, src, fraction).value;
            q.dst < |obj.names|
            && q.parts[0] + q.parts[1] + q.parts[2] + q.parts[3]
               == (if src < |obj.lines| then obj.lines[..src + 1] else obj.lines)
            && Answer(q.parts[0] + q.parts[1] + q.parts[2] + q.parts[3], obj.names[q.dst], k)
               == if k < h then None else Some(q.expected)
  {
    var q := SelectQuery(obj, h, src, fraction).value;
    var p := [q.dst] + obj.links[q.dst].value;
    assert InGroup(obj.links, h, q.dst) && EndsAt(red, q.dst, p);
    var body := Body(obj.lines, src);
    assert forall v :: v in p ==> exists t :: 0 <= t < |p| && p[t] == v;
    ChainIsAnswered(red, obj.names, values, obj.lines, body, q.dst, p, k);
  }
}
