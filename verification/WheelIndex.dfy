/**
The nightly wheel index: reading the links of an index page, merging new wheels
in front, dropping older links to the same file, and writing the page again
(scripts/update_nightly_whl_index.py).
 */
module WheelIndex {
  import opened Wrappers

  // ---- Text ----

  function Find(s: string, c: char, from: nat := 0): (k: nat)
    requires from <= |s|
    ensures from <= k <= |s|
    ensures forall i :: from <= i < k ==> s[i] != c
    ensures k < |s| ==> s[k] == c
    decreases |s| - from
  {
    if from == |s| || s[from] == c then from else Find(s, c, from + 1)
  }

  /** `s.split("\n")`. */
  function Split(s: string): (lines: seq<string>)
    ensures lines != []
  {
    var k := Find(s, '\n');
    if k == |s| then [s] else [s[..k]] + Split(s[k + 1..])
  }

  /** `"\n".join(lines)`. */
  function Join(lines: seq<string>): string {
    if lines == [] then ""
    else if |lines| == 1 then lines[0]
    else lines[0] + "\n" + Join(lines[1..])
  }

  predicate OneLine(s: string) { '\n' !in s && '\r' !in s }

  /** What reading a file in text mode makes of its line ends. */
  function Translate(s: string): string {
    if s == "" then ""
    else if s[0] != '\r' then [s[0]] + Translate(s[1..])
    else "\n" + Translate(if |s| > 1 && s[1] == '\n' then s[2..] else s[1..])
  }

  lemma {:induction false} TranslateKeeps(s: string)
    requires '\r' !in s
    ensures Translate(s) == s
  {
    if s != "" { TranslateKeeps(s[1..]); }
  }

  lemma {:induction false} TranslateEndsLines(s: string)
    ensures '\r' !in Translate(s)
    decreases |s|
  {
    if s != "" {
      TranslateEndsLines(s[1..]);
      if |s| > 1 { TranslateEndsLines(s[2..]); }
    }
  }

  lemma FindFirst(s: string, c: char, k: nat)
    requires k <= |s| && c !in s[..k] && (k < |s| ==> s[k] == c)
    ensures Find(s, c) == k
  {
    assert forall i :: 0 <= i < k ==> s[..k][i] == s[i];
    assert forall i :: 0 <= i < k ==> s[i] != c;
  }

  lemma SplitLine(line: string, rest: string)
    requires OneLine(line)
    ensures Split(line + "\n" + rest) == [line] + Split(rest)
  {
    var s := line + "\n" + rest;
    assert s[..|line|] == line;
    FindFirst(s, '\n', |line|);
    assert s[|line| + 1..] == rest;
  }

  /** Joining and splitting lines are inverse. */
  lemma {:induction false} SplitJoin(lines: seq<string>)
    requires lines != [] && forall l :: l in lines ==> OneLine(l)
    ensures Split(Join(lines)) == lines
  {
    assert lines[0] in lines;
    if |lines| == 1 {
      FindFirst(lines[0], '\n', |lines[0]|);
    } else {
      SplitJoin(lines[1..]);
      SplitLine(lines[0], Join(lines[1..]));
    }
  }

  lemma {:induction false} SplitIsOneLine(s: string)
    requires '\r' !in s
    ensures forall l :: l in Split(s) ==> OneLine(l)
    decreases |s|
  {
    var k := Find(s, '\n');
    if k < |s| { SplitIsOneLine(s[k + 1..]); }
  }

  // ---- The page ----

  predicate IsLink(line: string) { "<a href=" <= line }

  function Links(lines: seq<string>): (r: seq<string>)
    ensures forall l :: l in r <==> l in lines && IsLink(l)
  {
    if lines == [] then []
    else (if IsLink(lines[0]) then [lines[0]] else []) + Links(lines[1..])
  }

  /** The links of an existing page. */
  function ReadIndex(content: string): seq<string> { Links(Split(Translate(content))) }

  function Title(cuda: string): string { "<h1>SGLang Nightly Wheels (" + cuda + ")</h1>" }

  function WriteIndex(cuda: string, links: seq<string>): string {
    "<!DOCTYPE html>" + "\n" + (Title(cuda) + "\n" + (Join(links) + "\n"))
  }

  ghost predicate Clean(links: seq<string>) { forall l :: l in links ==> IsLink(l) && OneLine(l) }

  lemma {:induction false} LinksOfLinks(links: seq<string>, tail: seq<string>)
    requires Clean(links) && forall l :: l in tail ==> !IsLink(l)
    ensures Links(links + tail) == links
  {
    if links == [] {
      assert links + tail == tail;
      NoLinks(tail);
    } else {
      assert links[0] in links;
      LinksOfLinks(links[1..], tail);
      assert (links + tail)[1..] == links[1..] + tail;
    }
  }

  lemma {:induction false} NoLinks(lines: seq<string>)
    requires forall l :: l in lines ==> !IsLink(l)
    ensures Links(lines) == []
  {
    if lines != [] {
      assert lines[0] in lines;
      NoLinks(lines[1..]);
    }
  }

  lemma {:induction false} JoinEnd(lines: seq<string>)
    requires lines != []
    ensures Join(lines) + "\n" == Join(lines + [""])
  {
    if |lines| == 1 {
      assert (lines + [""])[1..] == [""];
    } else {
      JoinEnd(lines[1..]);
      assert (lines + [""])[1..] == lines[1..] + [""];
    }
  }

  lemma HeadIsNotLink(cuda: string)
    requires OneLine(cuda)
    ensures OneLine(Title(cuda)) && !IsLink(Title(cuda))
    ensures OneLine("<!DOCTYPE html>") && !IsLink("<!DOCTYPE html>")
  {
    assert Title(cuda)[1] == 'h' && "<!DOCTYPE html>"[1] == '!' && "<a href="[1] == 'a';
  }

  lemma LinksAfterHead(first: string, second: string, rest: seq<string>)
    requires !IsLink(first) && !IsLink(second)
    ensures Links([first] + ([second] + rest)) == Links(rest)
  {
    assert ([first] + ([second] + rest))[1..] == [second] + rest;
    assert ([second] + rest)[1..] == rest;
  }

  lemma LinksOfBody(links: seq<string>)
    requires Clean(links)
    ensures Links(Split(Join(links) + "\n")) == links
  {
    var lines := if links == [] then [""] else links;
    JoinEnd(lines);
    SplitJoin(lines + [""]);
    if links == [] {
      NoLinks(lines + [""]);
    } else {
      LinksOfLinks(links, [""]);
    }
  }

  lemma {:induction false} JoinHasNoReturn(lines: seq<string>)
    requires forall l :: l in lines ==> OneLine(l)
    ensures '\r' !in Join(lines)
  {
    if lines != [] {
      assert lines[0] in lines;
      JoinHasNoReturn(lines[1..]);
    }
  }

  lemma WrittenHasNoReturn(cuda: string, links: seq<string>)
    requires Clean(links) && OneLine(cuda)
    ensures '\r' !in WriteIndex(cuda, links)
  {
    HeadIsNotLink(cuda);
    JoinHasNoReturn(links);
  }

  /** Reading a written page gives back exactly the links that were written. */
  lemma ReadBack(cuda: string, links: seq<string>)
    requires Clean(links) && OneLine(cuda)
    ensures ReadIndex(WriteIndex(cuda, links)) == links
  {
    var body := Join(links) + "\n";
    HeadIsNotLink(cuda);
    SplitLine(Title(cuda), body);
    SplitLine("<!DOCTYPE html>", Title(cuda) + "\n" + body);
    LinksAfterHead("<!DOCTYPE html>", Title(cuda), Split(body));
    LinksOfBody(links);
    WrittenHasNoReturn(cuda, links);
    TranslateKeeps(WriteIndex(cuda, links));
  }

  /** That is so for exactly the lists of links without line ends in them. */
  lemma ReadBackIff(cuda: string, links: seq<string>)
    requires OneLine(cuda)
    ensures ReadIndex(WriteIndex(cuda, links)) == links <==> Clean(links)
  {
    if Clean(links) {
      ReadBack(cuda, links);
    } else {
      TranslateEndsLines(WriteIndex(cuda, links));
      SplitIsOneLine(Translate(WriteIndex(cuda, links)));
    }
  }

  // ---- Reading, line by line ----

  /** The three line ends; a carriage return alone is one unless a line feed follows. */
  predicate EndsLine(end: string, rest: string) {
    end == "\n" || end == "\r\n" || (end == "\r" && (rest == "" || rest[0] != '\n'))
  }

  lemma {:induction false} TranslateLine(line: string, end: string, rest: string)
    requires OneLine(line) && EndsLine(end, rest)
    ensures Translate(line + end + rest) == line + "\n" + Translate(rest)
  {
    var s := line + end + rest;
    if line == "" {
      assert s == end + rest;
      assert s[|end|..] == rest && s[0] == end[0];
      assert |end| == 2 ==> s[1] == '\n';
      assert end == "\r" && |s| > 1 ==> s[1] == rest[0];
    } else {
      TranslateLine(line[1..], end, rest);
      assert s[1..] == line[1..] + end + rest && s[0] == line[0];
    }
  }

  /** Reading takes the lines that start with `<a href=` and no others, whatever the line ends are. */
  lemma ReadLine(line: string, end: string, rest: string)
    requires OneLine(line) && EndsLine(end, rest)
    ensures ReadIndex(line + end + rest)
         == (if |line| >= 8 && line[..8] == "<a href=" then [line] else []) + ReadIndex(rest)
  {
    TranslateLine(line, end, rest);
    SplitLine(line, Translate(rest));
    var lines := [line] + Split(Translate(rest));
    assert lines[1..] == Split(Translate(rest));
    LinkStarts(line);
  }

  /** The same of a line without an end, the last one of a page. */
  lemma ReadLast(line: string)
    requires OneLine(line)
    ensures ReadIndex(line) == if |line| >= 8 && line[..8] == "<a href=" then [line] else []
  {
    TranslateKeeps(line);
    FindFirst(line, '\n', |line|);
    LinkStarts(line);
    assert Split(line) == [line] && Links([line][1..]) == [];
  }

  lemma LinkStarts(line: string)
    ensures IsLink(line) <==> |line| >= 8 && line[..8] == "<a href="
  {
  }

  // ---- File names ----

  /** The pattern `>([^<]+\.whl)</a>` matched at position `p`. */
  function MatchAt(link: string, p: nat): Option<string>
    requires p < |link|
  {
    if link[p] != '>' then None
    else
      var q := Find(link, '<', p + 1);
      var name := link[p + 1..q];
      if |name| >= 5 && name[|name| - 4..] == ".whl" && "</a>" <= link[q..] then Some(name) else None
  }

  /** `re.search`: the leftmost match. */
  function FileName(link: string, from: nat := 0): Option<string>
    requires from <= |link|
    decreases |link| - from
  {
    if from == |link| then None
    else if MatchAt(link, from).Some? then MatchAt(link, from)
    else FileName(link, from + 1)
  }

  /** The link has `>name</a>` at position `p`, with the name of a wheel. */
  ghost predicate Shows(link: string, p: nat, name: string) {
    && p <= |link| && ">" + name + "</a>" <= link[p..]
    && '<' !in name && |name| >= 5 && name[|name| - 4..] == ".whl"
  }

  lemma ShowsIff(link: string, p: nat, name: string)
    requires p < |link|
    ensures MatchAt(link, p) == Some(name) <==> Shows(link, p, name)
  {
    if Shows(link, p, name) { ShownAt(link, p, name); }
    if MatchAt(link, p) == Some(name) {
      var q := Find(link, '<', p + 1);
      assert link[p..] == ">" + name + link[q..];
    }
  }

  lemma ShownAt(link: string, p: nat, name: string)
    requires Shows(link, p, name)
    ensures p < |link| && MatchAt(link, p) == Some(name)
  {
    var shown := ">" + name + "</a>";
    assert forall i :: 0 <= i < |shown| ==> link[p + i] == shown[i];
    var q := p + 1 + |name|;
    assert link[p + 1..q] == name;
    assert forall i :: p + 1 <= i < q ==> link[i] in name;
    assert link[q] == shown[1 + |name|] == '<';
    assert Find(link, '<', p + 1) == q;
    assert link[q..][..4] == "</a>";
  }

  /** The name that is read off a link is the first one that it shows, and there is none if it shows none. */
  lemma {:induction false} FileNameIs(link: string, from: nat)
    requires from <= |link|
    ensures FileName(link, from).None? <==> forall p, name :: from <= p ==> !Shows(link, p, name)
    ensures FileName(link, from).Some? ==>
      exists p :: from <= p && Shows(link, p, FileName(link, from).value) && forall k, name :: from <= k < p ==> !Shows(link, k, name)
    decreases |link| - from
  {
    if from == |link| {
      forall p: nat, name | from <= p ensures !Shows(link, p, name) { }
    } else {
      FileNameIs(link, from + 1);
      forall name ensures MatchAt(link, from) == Some(name) <==> Shows(link, from, name) { ShowsIff(link, from, name); }
    }
  }

  datatype Wheel = Wheel(name: string, sha: string)

  function MakeLink(base: string, tag: string, wheel: Wheel): string {
    UrlPart(base, tag, wheel) + ">" + wheel.name + "</a><br>"
  }

  predicate Plain(s: string) { '<' !in s && '>' !in s && '\n' !in s }

  predicate IsWheelName(name: string) { Plain(name) && |name| >= 5 && name[|name| - 4..] == ".whl" }

  lemma {:induction false} NoMatchBefore(link: string, from: nat, p: nat)
    requires from <= p < |link| && forall i :: from <= i < p ==> link[i] != '>'
    ensures FileName(link, from) == FileName(link, p)
    decreases p - from
  {
    if from < p { NoMatchBefore(link, from + 1, p); }
  }

  /** What stands before the name in a generated link. */
  function UrlPart(base: string, tag: string, wheel: Wheel): string {
    "<a href=\"" + base + "/" + tag + "/" + wheel.name + "#sha256=" + wheel.sha + "\""
  }

  lemma UrlIsPlain(base: string, tag: string, wheel: Wheel)
    ensures Plain(base) && Plain(tag) && Plain(wheel.sha) && Plain(wheel.name) ==> '>' !in UrlPart(base, tag, wheel)
    ensures OneLine(base) && OneLine(tag) && OneLine(wheel.sha) && OneLine(wheel.name)
        ==> OneLine(UrlPart(base, tag, wheel))
  {
  }

  /** The file name is read back from a generated link. */
  lemma NameOfMadeLink(base: string, tag: string, wheel: Wheel)
    requires Plain(base) && Plain(tag) && Plain(wheel.sha) && IsWheelName(wheel.name)
    ensures FileName(MakeLink(base, tag, wheel)) == Some(wheel.name)
  {
    UrlIsPlain(base, tag, wheel);
    MatchAfterFront(UrlPart(base, tag, wheel), wheel.name, MakeLink(base, tag, wheel));
  }

  /** A name that holds a bracket, or is only the suffix, is not read back: this is the exact condition. */
  lemma NameOfMadeLinkIff(base: string, tag: string, wheel: Wheel)
    requires Plain(base) && Plain(tag) && Plain(wheel.sha) && '\n' !in wheel.name
    requires |wheel.name| >= 4 && wheel.name[|wheel.name| - 4..] == ".whl"
    ensures FileName(MakeLink(base, tag, wheel)) == Some(wheel.name)
       <==> '<' !in wheel.name && '>' !in wheel.name && wheel.name != ".whl"
  {
    var link, name := MakeLink(base, tag, wheel), wheel.name;
    FoundName(link, 0);
    if '<' !in name && '>' !in name && name != ".whl" {
      NameOfMadeLink(base, tag, wheel);
    } else if '<' !in name && '>' in name {
      BracketInUrl(base, tag, wheel);
    }
  }

  /** A name found by the pattern has no `<` and a non-empty stem. */
  lemma {:induction false} FoundName(link: string, from: nat)
    requires from <= |link|
    ensures FileName(link, from).Some? ==> '<' !in FileName(link, from).value && |FileName(link, from).value| >= 5
    decreases |link| - from
  {
    if from < |link| { FoundName(link, from + 1); }
  }

  /** A `>` in the name also stands in the URL, and the pattern starts there. */
  lemma BracketInUrl(base: string, tag: string, wheel: Wheel)
    requires Plain(base) && Plain(tag) && Plain(wheel.sha)
    requires |wheel.name| >= 4 && wheel.name[|wheel.name| - 4..] == ".whl"
    requires '<' !in wheel.name && '>' in wheel.name
    ensures FileName(MakeLink(base, tag, wheel)) != Some(wheel.name)
  {
    var name := wheel.name;
    var k := Find(name, '>');
    var front := "<a href=\"" + base + "/" + tag + "/" + name[..k];
    var text := name[k + 1..] + "#sha256=" + wheel.sha + "\"" + ">" + name;
    assert name == name[..k] + ">" + name[k + 1..];
    UrlSplits(base, tag, wheel, name[..k], name[k + 1..]);
    EndOfConcat(name[k + 1..] + "#sha256=" + wheel.sha + "\"" + ">", name);
    MatchAfterFront(front, text, MakeLink(base, tag, wheel));
  }

  lemma UrlSplits(base: string, tag: string, wheel: Wheel, pre: string, post: string)
    requires wheel.name == pre + ">" + post
    ensures UrlPart(base, tag, wheel) + ">" + wheel.name
         == "<a href=\"" + base + "/" + tag + "/" + pre + ">" + (post + "#sha256=" + wheel.sha + "\"" + ">" + wheel.name)
  {
  }

  lemma EndOfConcat(a: string, b: string)
    requires |b| >= 4
    ensures (a + b)[|a + b| - 4..] == b[|b| - 4..]
  {
  }

  lemma FindSkips(front: string, text: string, tail: string, c: char)
    requires c !in text && tail != "" && tail[0] == c
    ensures Find(front + text + tail, c, |front|) == |front| + |text|
  {
    var s, p, q := front + text + tail, |front|, |front| + |text|;
    assert s[p..q] == text;
    assert s[q] == tail[0];
    FindIs(s, c, p, q);
  }

  lemma FindIs(s: string, c: char, from: nat, k: nat)
    requires from <= k < |s| && c !in s[from..k] && s[k] == c
    ensures Find(s, c, from) == k
  {
    forall i | from <= i < k ensures s[i] != c {
      assert s[from..k][i - from] == s[i];
    }
  }

  lemma MatchText(front: string, text: string, tail: string)
    requires front != "" && front[|front| - 1] == '>' && '<' !in text && "</a>" <= tail
    requires |text| >= 5 && text[|text| - 4..] == ".whl"
    ensures MatchAt(front + text + tail, |front| - 1) == Some(text)
  {
    FindSkips(front, text, tail, '<');
    assert (front + text + tail)[|front|..|front| + |text|] == text;
    assert (front + text + tail)[|front| + |text|..] == tail;
  }

  /** The pattern takes everything between the first `>` and the next `<`. */
  lemma MatchAfterFront(front: string, text: string, link: string)
    requires '>' !in front && '<' !in text && |text| >= 5 && text[|text| - 4..] == ".whl"
    requires link == front + ">" + text + "</a><br>"
    ensures FileName(link) == Some(text)
  {
    assert "</a>" <= "</a><br>";
    MatchText(front + ">", text, "</a><br>");
    assert forall i :: 0 <= i < |front| ==> link[i] == front[i];
    NoMatchBefore(link, 0, |front|);
  }

  // ---- Merging ----

  /** The loop over `all_links`: the first link to each file is kept. */
  function Dedupe(links: seq<string>, seen: set<string>): seq<string> {
    if links == [] then []
    else
      var name := FileName(links[0]);
      if name.Some? && name.value !in seen then [links[0]] + Dedupe(links[1..], seen + {name.value})
      else Dedupe(links[1..], seen)
  }

  lemma {:induction false} KeptLinks(links: seq<string>, seen: set<string>)
    ensures forall l :: l in Dedupe(links, seen) ==> l in links && FileName(l).Some? && FileName(l).value !in seen
  {
    if links != [] {
      var name := FileName(links[0]);
      KeptLinks(links[1..], if name.Some? && name.value !in seen then seen + {name.value} else seen);
    }
  }

  method DedupeLinks(all: seq<string>) returns (unique: seq<string>)
    ensures unique == Dedupe(all, {})
  {
    unique := [];
    var seen := {};
    for i := 0 to |all|
      invariant unique + Dedupe(all[i..], seen) == Dedupe(all, {})
    {
      var name := FileName(all[i]);
      assert all[i..][1..] == all[i + 1..];
      ghost var was, rest := unique, Dedupe(all[i..], seen);
      if name.Some? && name.value !in seen {
        seen := seen + {name.value};
        unique := unique + [all[i]];
        assert was + rest == unique + Dedupe(all[i + 1..], seen);
      }
    }
  }

  ghost function Names(links: seq<string>): set<string> {
    set l | l in links && FileName(l).Some? :: FileName(l).value
  }

  lemma NamesOfCons(links: seq<string>)
    requires links != []
    ensures var name := FileName(links[0]);
            Names(links) == (if name.Some? then {name.value} else {}) + Names(links[1..])
  {
    assert links == [links[0]] + links[1..];
    NamesOfConcat([links[0]], links[1..]);
  }

  lemma NamesOfConcat(a: seq<string>, b: seq<string>)
    ensures Names(a + b) == Names(a) + Names(b)
  {
  }

  /** The names seen once `link` has been looked at. */
  ghost function Mark(link: string, seen: set<string>): set<string> {
    if FileName(link).Some? then seen + {FileName(link).value} else seen
  }

  lemma DedupeFirst(links: seq<string>, seen: set<string>)
    requires links != []
    ensures Dedupe(links, seen) == Dedupe([links[0]], seen) + Dedupe(links[1..], Mark(links[0], seen))
  {
    var name := FileName(links[0]);
    if name.Some? && name.value in seen { assert seen + {name.value} == seen; }
  }

  lemma MarkAndRest(links: seq<string>, seen: set<string>)
    requires links != []
    ensures Mark(links[0], seen) + Names(links[1..]) == seen + Names(links)
  {
    NamesOfCons(links);
  }

  lemma {:induction false} DedupeSplit(a: seq<string>, b: seq<string>, seen: set<string>)
    ensures Dedupe(a + b, seen) == Dedupe(a, seen) + Dedupe(b, seen + Names(a))
  {
    if a == [] {
      assert a + b == b && seen + Names(a) == seen;
    } else {
      assert (a + b)[1..] == a[1..] + b;
      DedupeFirst(a + b, seen);
      DedupeFirst(a, seen);
      DedupeSplit(a[1..], b, Mark(a[0], seen));
      MarkAndRest(a, seen);
    }
  }

  lemma {:induction false} DedupeNames(links: seq<string>, seen: set<string>)
    ensures Names(Dedupe(links, seen)) == Names(links) - seen
  {
    if links != [] {
      var name := FileName(links[0]);
      NamesOfCons(links);
      if name.Some? && name.value !in seen {
        var rest := Dedupe(links[1..], seen + {name.value});
        DedupeNames(links[1..], seen + {name.value});
        NamesOfConcat([links[0]], rest);
      } else {
        DedupeNames(links[1..], seen);
      }
    }
  }

  lemma {:induction false} DedupeTwice(links: seq<string>, seen: set<string>)
    ensures Dedupe(Dedupe(links, seen), seen) == Dedupe(links, seen)
  {
    if links != [] {
      var name := FileName(links[0]);
      if name.Some? && name.value !in seen {
        var rest := Dedupe(links[1..], seen + {name.value});
        DedupeTwice(links[1..], seen + {name.value});
        assert ([links[0]] + rest)[1..] == rest;
      } else {
        DedupeTwice(links[1..], seen);
      }
    }
  }

  lemma {:induction false} DedupeSeen(links: seq<string>, seen: set<string>)
    requires Names(links) <= seen
    ensures Dedupe(links, seen) == []
  {
    if links != [] {
      NamesOfCons(links);
      DedupeSeen(links[1..], seen);
    }
  }

  /** Merging the same new links again changes nothing. */
  lemma MergeTwice(latest: seq<string>, existing: seq<string>)
    ensures Dedupe(latest + Dedupe(latest + existing, {}), {}) == Dedupe(latest + existing, {})
  {
    var first, second := Dedupe(latest, {}), Dedupe(existing, Names(latest));
    DedupeSplit(latest, existing, {});
    assert {} + Names(latest) == Names(latest);
    DedupeSplit(latest, first + second, {});
    DedupeSplit(first, second, Names(latest));
    DedupeNames(latest, {});
    DedupeSeen(first, Names(latest));
    assert Names(latest) + Names(first) == Names(latest);
    DedupeTwice(existing, Names(latest));
    assert [] + second == second;
  }

  /** No two kept links are for the same file. */
  lemma {:induction false} DedupeDistinct(links: seq<string>, seen: set<string>, i: nat, j: nat)
    requires i < j < |Dedupe(links, seen)|
    ensures FileName(Dedupe(links, seen)[i]) != FileName(Dedupe(links, seen)[j])
  {
    var name := FileName(links[0]);
    if name.Some? && name.value !in seen {
      var rest := Dedupe(links[1..], seen + {name.value});
      if i == 0 {
        KeptLinks(links[1..], seen + {name.value});
        assert Dedupe(links, seen)[j] == rest[j - 1] && rest[j - 1] in rest;
      } else {
        DedupeDistinct(links[1..], seen + {name.value}, i - 1, j - 1);
      }
    } else {
      DedupeDistinct(links[1..], seen, i, j);
    }
  }

  /** `a` can be got from `b` by dropping elements. */
  ghost predicate Subsequence(a: seq<string>, b: seq<string>) {
    a == [] || (b != [] && ((a[0] == b[0] && Subsequence(a[1..], b[1..])) || Subsequence(a, b[1..])))
  }

  lemma {:induction false} DedupeKeepsOrder(links: seq<string>, seen: set<string>)
    ensures Subsequence(Dedupe(links, seen), links)
  {
    if links != [] {
      var name := FileName(links[0]);
      if name.Some? && name.value !in seen {
        var rest := Dedupe(links[1..], seen + {name.value});
        DedupeKeepsOrder(links[1..], seen + {name.value});
        assert ([links[0]] + rest)[1..] == rest;
      } else {
        DedupeKeepsOrder(links[1..], seen);
      }
    }
  }

  /** The kept link for a file is the first one for it. */
  lemma {:induction false} FirstWins(links: seq<string>, seen: set<string>, i: nat)
    requires i < |links| && FileName(links[i]).Some? && FileName(links[i]).value !in seen
    requires forall j :: 0 <= j < i ==> FileName(links[j]) != FileName(links[i])
    ensures links[i] in Dedupe(links, seen)
  {
    if i > 0 {
      var name := FileName(links[0]);
      FirstWins(links[1..], if name.Some? && name.value !in seen then seen + {name.value} else seen, i - 1);
    }
  }

  // ---- The update ----

  /** The download site, the arguments, and the `dist` directory: its wheels in sorted order, or `None`. */
  datatype Build = Build(base: string, commit: string, date: string, cuda: string, dist: Option<seq<Wheel>>) {
    function Tag(): string {
      if date != "" then "nightly-" + date + "-" + commit else "nightly-" + commit
    }

    function Cuda(): string { if "cu" <= cuda then cuda else "cu" + cuda }

    function Wheels(): seq<Wheel> { if dist.Some? then dist.value else [] }

    /** No argument or file name contains a line break. */
    ghost predicate Inline() {
      OneLine(base) && OneLine(commit) && OneLine(date) && OneLine(cuda)
      && forall w :: w in Wheels() ==> OneLine(w.name) && OneLine(w.sha)
    }

    /** None contains an angle bracket either, and every file is a wheel with a stem. */
    ghost predicate Named() {
      Plain(base) && Plain(commit) && Plain(date) && forall w :: w in Wheels() ==> IsWheelName(w.name) && Plain(w.sha)
    }
  }

  function NewLinks(build: Build): (r: seq<string>)
    ensures |r| == |build.Wheels()|
    ensures forall i :: 0 <= i < |r| ==> r[i] == MakeLink(build.base, build.Tag(), build.Wheels()[i])
  {
    var wheels := build.Wheels();
    seq(|wheels|, i requires 0 <= i < |wheels| => MakeLink(build.base, build.Tag(), wheels[i]))
  }

  function Existing(page: Option<string>): seq<string> {
    if page.Some? then ReadIndex(page.value) else []
  }

  /** The new page, from the old one (if any) and the wheels of this build. */
  function Update(page: Option<string>, build: Build): Result<string> {
    if build.dist.None? then Failure("FileNotFoundError")
    else if build.dist.value == [] then Failure("RuntimeError")
    else Success(WriteIndex(build.Cuda(), Dedupe(NewLinks(build) + Existing(page), {})))
  }

  lemma TagIsOneLine(build: Build)
    ensures build.Inline() ==> OneLine(build.Tag()) && OneLine(build.Cuda())
    ensures build.Named() ==> Plain(build.Tag())
  {
  }

  lemma MadeLinkIsInline(base: string, tag: string, wheel: Wheel)
    requires OneLine(base) && OneLine(tag) && OneLine(wheel.name) && OneLine(wheel.sha)
    ensures IsLink(MakeLink(base, tag, wheel)) && OneLine(MakeLink(base, tag, wheel))
  {
    UrlIsPlain(base, tag, wheel);
    assert "<a href=" <= "<a href=\"";
  }

  lemma MergedIsClean(page: Option<string>, build: Build)
    requires build.Inline()
    ensures Clean(Dedupe(NewLinks(build) + Existing(page), {}))
  {
    if page.Some? {
      TranslateEndsLines(page.value);
      SplitIsOneLine(Translate(page.value));
    }
    KeptLinks(NewLinks(build) + Existing(page), {});
    TagIsOneLine(build);
    forall l | l in NewLinks(build) ensures IsLink(l) && OneLine(l) {
      var i :| 0 <= i < |NewLinks(build)| && l == NewLinks(build)[i];
      assert build.Wheels()[i] in build.Wheels();
      MadeLinkIsInline(build.base, build.Tag(), build.Wheels()[i]);
    }
  }

  /** The links of the updated page are the merged ones, whatever was on the old page. */
  lemma UpdatedLinks(page: Option<string>, build: Build)
    requires build.Inline() && Update(page, build).Success?
    ensures ReadIndex(Update(page, build).value) == Dedupe(NewLinks(build) + Existing(page), {})
  {
    MergedIsClean(page, build);
    TagIsOneLine(build);
    ReadBack(build.Cuda(), Dedupe(NewLinks(build) + Existing(page), {}));
  }

  /** Running the update twice gives the same page, character for character. */
  lemma UpdateIsIdempotent(page: Option<string>, build: Build)
    requires build.Inline() && Update(page, build).Success?
    ensures Update(Some(Update(page, build).value), build) == Update(page, build)
  {
    UpdatedLinks(page, build);
    MergeTwice(NewLinks(build), Existing(page));
  }

  /** An update loses no file of the old page, lists every wheel of the build, and nothing else. */
  lemma UpdateLosesNoFile(page: Option<string>, build: Build)
    requires build.Inline() && build.Named() && Update(page, build).Success?
    ensures Names(ReadIndex(Update(page, build).value))
            == Names(Existing(page)) + set w | w in build.Wheels() :: w.name
  {
    var latest := NewLinks(build);
    UpdatedLinks(page, build);
    DedupeNames(latest + Existing(page), {});
    NamesOfConcat(latest, Existing(page));
    NamesOfNew(build);
    assert Names(latest + Existing(page)) - {} == Names(latest + Existing(page));
  }

  lemma NameOfNew(build: Build, i: nat)
    requires build.Named() && i < |build.Wheels()|
    ensures FileName(NewLinks(build)[i]) == Some(build.Wheels()[i].name)
  {
    TagIsOneLine(build);
    assert build.Wheels()[i] in build.Wheels();
    NameOfMadeLink(build.base, build.Tag(), build.Wheels()[i]);
  }

  lemma NamesOfNew(build: Build)
    requires build.Named()
    ensures Names(NewLinks(build)) == set w | w in build.Wheels() :: w.name
  {
    var wheels, latest := build.Wheels(), NewLinks(build);
    forall i | 0 <= i < |wheels| ensures FileName(latest[i]) == Some(wheels[i].name) {
      NameOfNew(build, i);
    }
    forall w | w in wheels ensures w.name in Names(latest) {
      var i :| 0 <= i < |wheels| && wheels[i] == w;
      assert latest[i] in latest;
    }
  }

  /** A wheel of this build replaces an older link to a file of the same name. */
  lemma NewestLinkWins(page: Option<string>, build: Build, i: nat)
    requires build.Inline() && build.Named() && i < |build.Wheels()|
    requires forall j :: 0 <= j < i ==> build.Wheels()[j].name != build.Wheels()[i].name
    ensures NewLinks(build)[i] in ReadIndex(Update(page, build).value)
  {
    var all := NewLinks(build) + Existing(page);
    UpdatedLinks(page, build);
    forall j | 0 <= j <= i ensures FileName(all[j]) == Some(build.Wheels()[j].name) {
      NameOfNew(build, j);
    }
    FirstWins(all, {}, i);
  }

  /** The release that the links of a build point into. */
  lemma TagIs(build: Build)
    ensures build.Tag() == if build.date == "" then "nightly-" + build.commit
                           else "nightly-" + build.date + "-" + build.commit
  {
  }

  /** A link of a build. */
  lemma LinkIs(build: Build, i: nat)
    requires i < |build.Wheels()|
    ensures var w := build.Wheels()[i];
            var tag := if build.date == "" then "nightly-" + build.commit else "nightly-" + build.date + "-" + build.commit;
            NewLinks(build)[i] == "<a href=\"" + build.base + "/" + tag + "/" + w.name + "#sha256=" + w.sha + "\""
                                  + ">" + w.name + "</a><br>"
  {
    TagIs(build);
  }

  lemma CudaIs(build: Build, version: string)
    requires (build.cuda == version && !("cu" <= version)) || build.cuda == "cu" + version
    ensures build.Cuda() == "cu" + version
  {
    assert "cu" <= "cu" + version;
  }

  /** The page: its head, with the CUDA version prefixed once, and then the links. */
  lemma PageIs(page: Option<string>, build: Build, version: string)
    requires Update(page, build).Success?
    requires (build.cuda == version && !("cu" <= version)) || build.cuda == "cu" + version
    ensures Update(page, build).value
         == "<!DOCTYPE html>" + "\n" + ("<h1>SGLang Nightly Wheels (" + ("cu" + version) + ")</h1>" + "\n"
            + (Join(Dedupe(NewLinks(build) + Existing(page), {})) + "\n"))
  {
    CudaIs(build, version);
  }

  /** The update fails exactly without a `dist` directory and without a wheel in it. */
  lemma UpdateFailsIff(page: Option<string>, build: Build)
    ensures Update(page, build).Failure? <==> build.dist.None? || |build.dist.value| == 0
    ensures build.dist.None? ==> Update(page, build) == Failure("FileNotFoundError")
    ensures build.dist == Some([]) ==> Update(page, build) == Failure("RuntimeError")
  {
  }
}
