/** What the robots.txt parser makes of raw text: directives in any letter case, with any
    white space around them. */
module RobotsText {
  import opened Common
  import opened Strings
  import opened Robots

  predicate Blank(s: string) { forall i :: 0 <= i < |s| ==> IsSpace(s[i]) }

  // ------------------------------------------------------------------- white space

  lemma {:induction false} TrimLeftBlank(lead: string, s: string)
    requires Blank(lead)
    ensures TrimLeftSpace(lead + s) == TrimLeftSpace(s)
  {
    if lead == "" {
      assert lead + s == s;
    } else {
      assert (lead + s)[1..] == lead[1..] + s;
      TrimLeftBlank(lead[1..], s);
    }
  }

  lemma {:induction false} TrimRightAfter(d: string, s: string)
    requires d != "" && !IsSpace(d[|d| - 1])
    ensures TrimRightSpace(d + s) == d + TrimRightSpace(s)
    decreases |s|
  {
    if s == "" {
      assert d + s == d;
    } else if IsSpace(s[|s| - 1]) {
      assert (d + s)[..|d + s| - 1] == d + s[..|s| - 1];
      TrimRightAfter(d, s[..|s| - 1]);
    }
  }

  lemma {:induction false} TrimRightCons(c: char, s: string)
    ensures TrimRightSpace([c] + s) ==
            if TrimRightSpace(s) != "" || !IsSpace(c) then [c] + TrimRightSpace(s) else ""
    decreases |s|
  {
    if s == "" {
      assert [c] + s == [c] && [c][..0] == "";
    } else if IsSpace(s[|s| - 1]) {
      assert ([c] + s)[..|s|] == [c] + s[..|s| - 1];
      TrimRightCons(c, s[..|s| - 1]);
    }
  }

  lemma {:induction false} TrimRightTwice(s: string)
    ensures TrimRightSpace(TrimRightSpace(s)) == TrimRightSpace(s)
    decreases |s|
  {
    if s != "" && IsSpace(s[|s| - 1]) { TrimRightTwice(s[..|s| - 1]); }
  }

  /** Trailing space makes no difference to what is left between the spaces. */
  lemma {:induction false} TrimTrimmed(s: string)
    ensures TrimSpace(TrimRightSpace(s)) == TrimSpace(s)
  {
    if s == "" {
    } else if IsSpace(s[0]) {
      assert s == [s[0]] + s[1..];
      TrimRightCons(s[0], s[1..]);
      TrimTrimmed(s[1..]);
      if TrimRightSpace(s[1..]) != "" { assert TrimRightSpace(s)[1..] == TrimRightSpace(s[1..]); }
    } else {
      assert s == [s[0]] + s[1..];
      TrimRightCons(s[0], s[1..]);
      TrimRightTwice(s);
    }
  }

  lemma {:induction false} TrimBlank(s: string)
    requires Blank(s)
    ensures TrimSpace(s) == ""
  {
    TrimLeftBlank(s, "");
    assert s + "" == s;
  }

  lemma {:induction false} LowerAt(a: string, b: string, i: nat)
    requires i < |a| + |b|
    ensures Lower(a + b)[i] == (Lower(a) + Lower(b))[i]
  {
    if i < |a| {
      assert (a + b)[i] == a[i] && (Lower(a) + Lower(b))[i] == Lower(a)[i];
    } else {
      assert (a + b)[i] == b[i - |a|] && (Lower(a) + Lower(b))[i] == Lower(b)[i - |a|];
    }
  }

  lemma {:induction false} LowerConcat(a: string, b: string)
    ensures Lower(a + b) == Lower(a) + Lower(b)
  {
    forall i | 0 <= i < |a| + |b| ensures Lower(a + b)[i] == (Lower(a) + Lower(b))[i] { LowerAt(a, b, i); }
    SameElements(Lower(a + b), Lower(a) + Lower(b));
  }

  lemma SameElements(x: string, y: string)
    requires |x| == |y| && forall i :: 0 <= i < |x| ==> x[i] == y[i]
    ensures x == y
  {
  }

  // -------------------------------------------------------------------- raw lines

  /** `raw` is a directive, written as `name` in some letter case, with `value` after it. */
  ghost predicate Says(raw: string, name: string, value: string) {
    exists lead, d, rest ::
      Blank(lead) && Lower(d) == name && raw == lead + d + rest && value == TrimSpace(rest)
  }

  ghost predicate BlankOrComment(raw: string) {
    Blank(raw) || exists lead, rest :: Blank(lead) && raw == lead + "#" + rest
  }

  predicate IsDirective(name: string) { name == "user-agent:" || name == "disallow:" || name == "allow:" }

  /** A directive after trimming: its name, then the rest without trailing space. */
  lemma {:induction false} TrimmedDirective(lead: string, d: string, rest: string, name: string)
    requires Blank(lead) && Lower(d) == name && IsDirective(name)
    ensures TrimSpace(lead + d + rest) == d + TrimRightSpace(rest)
    ensures !IsSpace(d[0]) && d[0] != '#'
  {
    NameEnds(d, name);
    assert lead + d + rest == lead + (d + rest);
    TrimLeftBlank(lead, d + rest);
    assert TrimLeftSpace(d + rest) == d + rest;
    TrimRightAfter(d, rest);
  }

  lemma {:induction false} NameEnds(d: string, name: string)
    requires Lower(d) == name && IsDirective(name)
    ensures |d| == |name| > 0
    ensures !IsSpace(d[0]) && d[0] != '#' && !IsSpace(d[|d| - 1])
  {
    assert LowerChar(d[0]) == name[0] && LowerChar(d[|d| - 1]) == name[|name| - 1];
    assert name == "user-agent:" ==> name[0] == 'u' && name[|name| - 1] == ':';
    assert name == "disallow:" ==> name[0] == 'd' && name[|name| - 1] == ':';
    assert name == "allow:" ==> name[0] == 'a' && name[|name| - 1] == ':';
  }

  /** The line starts with its own directive and with no other. */
  lemma {:induction false} StartsWithName(d: string, rest: string, name: string, other: string)
    requires Lower(d) == name && IsDirective(name) && IsDirective(other)
    ensures HasPrefix(Lower(d + rest), other) <==> other == name
    ensures (d + rest)[|d|..] == rest
  {
    LowerConcat(d, rest);
    assert Lower(d + rest)[..|name|] == name;
    assert Lower(d + rest)[0] == name[0];
    assert "user-agent:"[0] == 'u' && "disallow:"[0] == 'd' && "allow:"[0] == 'a';
    if HasPrefix(Lower(d + rest), other) { assert Lower(d + rest)[..|other|][0] == other[0]; }
  }

  /** A directive and what follows it, as the parser tests and slices it. */
  lemma {:induction false} DirectiveStarts(d: string, rest: string, name: string)
    requires Lower(d) == name && IsDirective(name)
    ensures
      var line := d + rest;
      && line != "" && !HasPrefix(line, "#") && line[|name|..] == rest
      && (HasPrefix(Lower(line), "user-agent:") <==> name == "user-agent:")
      && (HasPrefix(Lower(line), "disallow:") <==> name == "disallow:")
      && (HasPrefix(Lower(line), "allow:") <==> name == "allow:")
  {
    NameEnds(d, name);
    assert (d + rest)[0] == d[0];
    StartsWithName(d, rest, name, "user-agent:");
    StartsWithName(d, rest, name, "disallow:");
    StartsWithName(d, rest, name, "allow:");
  }

  /** The trimmed line of a directive. */
  lemma {:induction false} DirectiveLine(raw: string, name: string, value: string) returns (d: string, rest: string)
    requires Says(raw, name, value) && IsDirective(name)
    ensures TrimSpace(raw) == d + rest && Lower(d) == name && TrimSpace(rest) == value
  {
    var lead, all;
    lead, d, all :| Blank(lead) && Lower(d) == name && raw == lead + d + all && value == TrimSpace(all);
    TrimmedDirective(lead, d, all, name);
    TrimTrimmed(all);
    rest := TrimRightSpace(all);
  }

  /** Each directive is what it says it is. */
  lemma {:induction false} ClassifyDirective(raw: string, name: string, value: string, userAgent: string)
    requires Says(raw, name, value) && IsDirective(name)
    ensures name == "disallow:" ==> Classify(raw, userAgent) == Disallow(value)
    ensures name == "allow:" ==> Classify(raw, userAgent) == Allow
    ensures name == "user-agent:" ==> Classify(raw, userAgent) == AgentLine(value, userAgent)
  {
    var d, rest := DirectiveLine(raw, name, value);
    DirectiveStarts(d, rest, name);
  }

  /** A rule is a Disallow line with a path, whatever its case and spacing; Allow lines, blank
      lines and comments never are. */
  lemma {:induction false} RulesOnRawLines(raw: string, value: string, userAgent: string)
    ensures Says(raw, "disallow:", value) && value != "" ==>
              IsRule(Classify(raw, userAgent)) && Classify(raw, userAgent).path == value
    ensures Says(raw, "disallow:", "") || Says(raw, "allow:", value) || BlankOrComment(raw) ==>
              !IsRule(Classify(raw, userAgent)) && !Classify(raw, userAgent).Agent?
  {
    if Says(raw, "disallow:", value) { ClassifyDirective(raw, "disallow:", value, userAgent); }
    if Says(raw, "disallow:", "") { ClassifyDirective(raw, "disallow:", "", userAgent); }
    if Says(raw, "allow:", value) { ClassifyDirective(raw, "allow:", value, userAgent); }
    if BlankOrComment(raw) { SkippedLine(raw, userAgent); }
  }

  lemma {:induction false} SkippedLine(raw: string, userAgent: string)
    requires BlankOrComment(raw)
    ensures Classify(raw, userAgent) == Other
  {
    if Blank(raw) {
      TrimBlank(raw);
    } else {
      var lead, rest :| Blank(lead) && raw == lead + "#" + rest;
      assert lead + "#" + rest == lead + ("#" + rest);
      TrimLeftBlank(lead, "#" + rest);
      assert TrimLeftSpace("#" + rest) == "#" + rest;
      TrimRightAfter("#", rest);
      assert ("#" + TrimRightSpace(rest))[..1] == "#";
    }
  }

  /** A user-agent line matches for `*` and for the header in any letter case, and misses for
      anything else. */
  lemma {:induction false} AgentsOnRawLines(raw: string, agent: string, userAgent: string)
    requires Says(raw, "user-agent:", agent)
    ensures Matches(Classify(raw, userAgent)) <==> agent == "*" || Lower(agent) == Lower(userAgent)
    ensures Misses(Classify(raw, userAgent)) <==> !(agent == "*" || Lower(agent) == Lower(userAgent))
  {
    ClassifyDirective(raw, "user-agent:", agent, userAgent);
  }

  // ------------------------------------------------------------------ a whole file

  /** A file with one group, for `*` or for us: `prefixes` are its disallowed paths. */
  ghost predicate OneGroup(body: seq<string>, userAgent: string, prefixes: seq<string>)
    decreases |body|
  {
    if |body| <= 1 then
      && |body| == 1 && prefixes == []
      && exists agent :: Says(body[0], "user-agent:", agent) && (agent == "*" || Lower(agent) == Lower(userAgent))
    else
      var last := body[|body| - 1];
      || (SkipsRule(last) && OneGroup(body[..|body| - 1], userAgent, prefixes))
      || (prefixes != [] && GivesRule(last, prefixes[|prefixes| - 1])
          && OneGroup(body[..|body| - 1], userAgent, prefixes[..|prefixes| - 1]))
  }

  ghost predicate SkipsRule(raw: string) {
    BlankOrComment(raw) || Says(raw, "disallow:", "") || exists path :: Says(raw, "allow:", path)
  }

  /** A Disallow line; a path without its leading slash gets one. */
  ghost predicate GivesRule(raw: string, prefix: string) {
    exists path ::
      Says(raw, "disallow:", path) && path != "" && prefix == if path[0] == '/' then path else "/" + path
  }

  lemma {:induction false} NormalizeTrimmed(rest: string)
    requires TrimSpace(rest) != ""
    ensures
      var path := TrimSpace(rest);
      NormalizePath(path) == if path[0] == '/' then path else "/" + path
  {
    TrimTwice(rest);
  }

  lemma {:induction false} TrimLeftMeans(s: string)
    ensures TrimLeftSpace(s) == "" || !IsSpace(TrimLeftSpace(s)[0])
  {
    if s != "" && IsSpace(s[0]) { TrimLeftMeans(s[1..]); }
  }

  lemma {:induction false} TrimTwice(s: string)
    ensures TrimSpace(TrimSpace(s)) == TrimSpace(s)
  {
    var t := TrimLeftSpace(s);
    TrimLeftMeans(s);
    TrimRightTwice(t);
    if t != "" {
      assert t == [t[0]] + t[1..];
      TrimRightCons(t[0], t[1..]);
      assert TrimLeftSpace(TrimRightSpace(t)) == TrimRightSpace(t);
    }
  }

  lemma {:induction false} OneMoreLine(body: seq<string>, userAgent: string)
    requires body != []
    ensures
      var ls, front := ClassifyAll(body, userAgent), ClassifyAll(body[..|body| - 1], userAgent);
      var last := Classify(body[|body| - 1], userAgent);
      && ls == front + [last]
      && (!last.Agent? ==> TrailingRun(ls) == TrailingRun(front))
      && Collect(ls, OddRun) == Collect(front, OddRun)
                                + if IsRule(last) && OddRun(front) then [NormalizePath(last.path)] else []
  {
    var ls, front := ClassifyAll(body, userAgent), ClassifyAll(body[..|body| - 1], userAgent);
    assert ls == front + [Classify(body[|body| - 1], userAgent)];
    assert ls[..|ls| - 1] == front;
    CollectSnoc(front, Classify(body[|body| - 1], userAgent), OddRun);
  }

  lemma {:induction false} FirstLine(body: seq<string>, userAgent: string)
    requires OneGroup(body, userAgent, []) && |body| == 1
    ensures TrailingRun(ClassifyAll(body, userAgent)) == 1 && Collect(ClassifyAll(body, userAgent), OddRun) == []
  {
    OneMoreLine(body, userAgent);
    var agent :| Says(body[0], "user-agent:", agent) && (agent == "*" || Lower(agent) == Lower(userAgent));
    AgentsOnRawLines(body[0], agent, userAgent);
    var ls := ClassifyAll(body, userAgent);
    assert ls[..0] == [] && Collect([], OddRun) == [];
    assert Matches(ls[0]) && TrailingRun(ls) == 1 + TrailingRun(ls[..0]);
  }

  lemma {:induction false} SkippedRule(raw: string, userAgent: string)
    requires SkipsRule(raw)
    ensures !IsRule(Classify(raw, userAgent)) && !Classify(raw, userAgent).Agent?
  {
    if path :| Says(raw, "allow:", path) {
      RulesOnRawLines(raw, path, userAgent);
    } else {
      RulesOnRawLines(raw, "", userAgent);
    }
  }

  lemma {:induction false} LastRule(body: seq<string>, userAgent: string, prefixes: seq<string>)
    requires OneGroup(body, userAgent, prefixes) && |body| > 1
    requires !(SkipsRule(body[|body| - 1]) && OneGroup(body[..|body| - 1], userAgent, prefixes))
    ensures prefixes != [] && GivesRule(body[|body| - 1], prefixes[|prefixes| - 1])
    ensures OneGroup(body[..|body| - 1], userAgent, prefixes[..|prefixes| - 1])
  {
  }

  lemma {:induction false} RuleStep(body: seq<string>, userAgent: string, prefixes: seq<string>)
    requires body != [] && prefixes != [] && GivesRule(body[|body| - 1], prefixes[|prefixes| - 1])
    requires TrailingRun(ClassifyAll(body[..|body| - 1], userAgent)) == 1
    requires Collect(ClassifyAll(body[..|body| - 1], userAgent), OddRun) == prefixes[..|prefixes| - 1]
    ensures TrailingRun(ClassifyAll(body, userAgent)) == 1
    ensures Collect(ClassifyAll(body, userAgent), OddRun) == prefixes
  {
    var front, l := ClassifyAll(body[..|body| - 1], userAgent), Classify(body[|body| - 1], userAgent);
    OneMoreLine(body, userAgent);
    RuleLine(body[|body| - 1], prefixes[|prefixes| - 1], userAgent);
    RuleCollected(front, l, prefixes);
  }

  lemma {:induction false} RuleCollected(front: seq<Line>, l: Line, prefixes: seq<string>)
    requires IsRule(l) && prefixes != [] && NormalizePath(l.path) == prefixes[|prefixes| - 1]
    requires TrailingRun(front) == 1 && Collect(front, OddRun) == prefixes[..|prefixes| - 1]
    ensures TrailingRun(front + [l]) == 1 && Collect(front + [l], OddRun) == prefixes
  {
    CollectSnoc(front, l, OddRun);
    assert (front + [l])[..|front|] == front;
    LastBack(prefixes, Collect(front, OddRun), NormalizePath(l.path));
  }

  lemma LastBack(all: seq<string>, front: seq<string>, last: string)
    requires all != [] && front == all[..|all| - 1] && last == all[|all| - 1]
    ensures front + [last] == all
  {
  }

  /** The parser keeps exactly the paths of the group. */
  lemma {:induction false} OneGroupRules(body: seq<string>, userAgent: string, prefixes: seq<string>)
    requires OneGroup(body, userAgent, prefixes)
    ensures TrailingRun(ClassifyAll(body, userAgent)) == 1
    ensures Collect(ClassifyAll(body, userAgent), OddRun) == prefixes
    decreases |body|
  {
    if |body| == 1 {
      FirstLine(body, userAgent);
    } else {
      var front, raw := body[..|body| - 1], body[|body| - 1];
      if SkipsRule(raw) && OneGroup(front, userAgent, prefixes) {
        OneGroupRules(front, userAgent, prefixes);
        OneMoreLine(body, userAgent);
        SkippedRule(raw, userAgent);
      } else {
        LastRule(body, userAgent, prefixes);
        OneGroupRules(front, userAgent, prefixes[..|prefixes| - 1]);
        RuleStep(body, userAgent, prefixes);
      }
    }
  }

  lemma {:induction false} RuleLine(raw: string, prefix: string, userAgent: string)
    requires GivesRule(raw, prefix)
    ensures
      var l := Classify(raw, userAgent);
      IsRule(l) && NormalizePath(l.path) == prefix
  {
    var path :|
      Says(raw, "disallow:", path) && path != "" && prefix == if path[0] == '/' then path else "/" + path;
    RulesOnRawLines(raw, path, userAgent);
    var lead, d, rest :| Blank(lead) && Lower(d) == "disallow:" && raw == lead + d + rest && path == TrimSpace(rest);
    NormalizeTrimmed(rest);
  }

  /** What trimming takes away: white space at both ends, and nothing else. */
  lemma {:induction false} TrimMeans(s: string) returns (lead: string, trail: string)
    ensures Blank(lead) && Blank(trail) && s == lead + TrimSpace(s) + trail
    ensures
      var t := TrimSpace(s);
      t == "" || (!IsSpace(t[0]) && !IsSpace(t[|t| - 1]))
  {
    lead := LeadingSpace(s);
    trail := TrailingSpace(TrimLeftSpace(s));
    TrimLeftMeans(s);
    Associate(lead, TrimSpace(s), trail);
    var t := TrimSpace(s);
    if t != "" { assert t[0] == TrimLeftSpace(s)[0]; }
  }

  lemma {:induction false} LeadingSpace(s: string) returns (lead: string)
    ensures Blank(lead) && s == lead + TrimLeftSpace(s)
  {
    if s != "" && IsSpace(s[0]) {
      var rest := LeadingSpace(s[1..]);
      lead := [s[0]] + rest;
      Associate([s[0]], rest, TrimLeftSpace(s));
      assert s == [s[0]] + s[1..];
    } else {
      lead := "";
    }
  }

  lemma {:induction false} TrailingSpace(s: string) returns (trail: string)
    ensures Blank(trail) && s == TrimRightSpace(s) + trail
    ensures TrimRightSpace(s) != "" ==> !IsSpace(TrimRightSpace(s)[|TrimRightSpace(s)| - 1])
    decreases |s|
  {
    if s != "" && IsSpace(s[|s| - 1]) {
      var rest := TrailingSpace(s[..|s| - 1]);
      trail := rest + [s[|s| - 1]];
      Associate(TrimRightSpace(s), rest, [s[|s| - 1]]);
      assert s == s[..|s| - 1] + [s[|s| - 1]];
    } else {
      trail := "";
    }
  }

  /** A path is compared without the white space around it and with a leading slash. */
  lemma {:induction false} PathForms(path: string)
    ensures Blank(path) ==> NormalizePath(path) == "/"
    ensures
      var t := TrimSpace(path);
      t != "" ==> NormalizePath(path) == if t[0] == '/' then t else "/" + t
    ensures NormalizePath(NormalizePath(path)) == NormalizePath(path)
  {
    if Blank(path) { TrimBlank(path); }
    var t := TrimSpace(path);
    TrimTwice(path);
    if t != "" && t[0] != '/' {
      assert "/" + t == ['/'] + t;
      TrimRightCons('/', t);
      TrimRightFixed(path);
    }
  }

  lemma {:induction false} TrimRightFixed(path: string)
    ensures TrimRightSpace(TrimSpace(path)) == TrimSpace(path)
  {
    TrimRightTwice(TrimLeftSpace(path));
  }
}
