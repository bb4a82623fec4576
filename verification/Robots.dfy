/** The robots.txt subset the crawler reads. */
module Robots {
  import opened Common
  import opened Strings

  function NormalizePath(p: string): (r: string)
    ensures r != "" && r[0] == '/'
  {
    var t := TrimSpace(p);
    if t == "" then "/" else if t[0] != '/' then "/" + t else t
  }

  // ------------------------------------------------------------------------ lines

  /** What one line is: a user-agent line, a rule (a disallowed path, possibly empty, or an
      Allow line, which the parser skips), or neither. A user-agent line can be for `*`, it can
      be `named`, equal to the whole User-Agent header as the parser compares it, and it can be
      `ours`, equal to its product token as the standard compares it. */
  datatype Line = Other | Agent(star: bool, named: bool, ours: bool) | Disallow(path: string) | Allow

  predicate Matches(l: Line) { l.Agent? && (l.star || l.named) }
  predicate Misses(l: Line) { l.Agent? && !l.star && !l.named }

  predicate IsTokenChar(c: char) { 'a' <= c <= 'z' || 'A' <= c <= 'Z' || c == '-' || c == '_' }

  /** The product token at the head of a User-Agent header. */
  function ProductToken(header: string): string {
    if header != "" && IsTokenChar(header[0]) then [header[0]] + ProductToken(header[1..]) else ""
  }

  function AgentLine(agent: string, userAgent: string): Line {
    Agent(agent == "*", Lower(agent) == Lower(userAgent), agent != "" && Lower(agent) == Lower(ProductToken(userAgent)))
  }

  function Classify(raw: string, userAgent: string): Line {
    var line := TrimSpace(raw);
    if line == "" || HasPrefix(line, "#") then Other
    else if HasPrefix(Lower(line), "user-agent:") then
      var agent := TrimSpace(line[|"user-agent:"|..]);
      AgentLine(agent, userAgent)
    else if HasPrefix(Lower(line), "disallow:") then Disallow(TrimSpace(line[|"disallow:"|..]))
    else if HasPrefix(Lower(line), "allow:") then Allow
    else Other
  }

  function ClassifyAll(body: seq<string>, userAgent: string): (r: seq<Line>)
    ensures |r| == |body| && forall i :: 0 <= i < |body| ==> r[i] == Classify(body[i], userAgent)
  {
    seq(|body|, i requires 0 <= i < |body| => Classify(body[i], userAgent))
  }

  /** How many of the latest user-agent lines match in a row. */
  function TrailingRun(ls: seq<Line>): nat {
    if ls == [] then 0
    else
      var front, last := ls[..|ls| - 1], ls[|ls| - 1];
      if Matches(last) then 1 + TrailingRun(front) else if Misses(last) then 0 else TrailingRun(front)
  }

  /** The normalised paths of the non-empty Disallow lines at which `keep` holds of the
      lines before. */
  function Collect(ls: seq<Line>, keep: seq<Line> -> bool): seq<string> {
    if ls == [] then []
    else
      var front, last := ls[..|ls| - 1], ls[|ls| - 1];
      var rest := Collect(front, keep);
      if last.Disallow? && last.path != "" && keep(front) then rest + [NormalizePath(last.path)] else rest
  }

  // -------------------------------------------------------------------- the parser

  predicate OddRun(ls: seq<Line>) { TrailingRun(ls) % 2 == 1 }

  lemma NextLine(ls: seq<Line>, i: nat)
    requires i < |ls|
    ensures OddRun(ls[..i + 1]) == if ls[i].Agent? then Matches(ls[i]) && !OddRun(ls[..i]) else OddRun(ls[..i])
    ensures Collect(ls[..i + 1], OddRun) ==
            Collect(ls[..i], OddRun)
            + if ls[i].Disallow? && ls[i].path != "" && OddRun(ls[..i]) then [NormalizePath(ls[i].path)] else []
  {
    assert ls[..i + 1][..i] == ls[..i];
  }

  /** The parser toggles on every matching user-agent line, so a rule counts exactly when
      the run of matching lines before it is odd. */
  method ParseRobots(body: seq<string>, userAgent: string) returns (rules: seq<string>)
    ensures rules == Collect(ClassifyAll(body, userAgent), OddRun)
  {
    rules := [];
    var inMatchingBlock := false;
    ghost var ls := ClassifyAll(body, userAgent);
    for i := 0 to |body|
      invariant inMatchingBlock == OddRun(ls[..i])
      invariant rules == Collect(ls[..i], OddRun)
    {
      NextLine(ls, i);
      var line := TrimSpace(body[i]);
      if line == "" || HasPrefix(line, "#") {
        continue;
      }
      if HasPrefix(Lower(line), "user-agent:") {
        var agent := TrimSpace(line[|"user-agent:"|..]);
        var matches := agent == "*" || Lower(agent) == Lower(userAgent);
        inMatchingBlock := matches && !inMatchingBlock;
        continue;
      }
      if inMatchingBlock && HasPrefix(Lower(line), "disallow:") {
        var path := TrimSpace(line[|"disallow:"|..]);
        if path != "" {
          rules := rules + [NormalizePath(path)];
        }
      }
    }
    assert ls[..|body|] == ls;
  }

  // ----------------------------------------------------- against simpler readings

  /** Rules belong to the nearest user-agent line before them. */
  predicate NearestMatches(ls: seq<Line>) { TrailingRun(ls) > 0 }

  predicate IsRule(l: Line) { l.Disallow? && l.path != "" }

  /** On the rules of ls, p is the stricter reading. */
  ghost predicate Stricter(ls: seq<Line>, p: seq<Line> -> bool, q: seq<Line> -> bool) {
    forall k :: 0 <= k < |ls| && IsRule(ls[k]) && p(ls[..k]) ==> q(ls[..k])
  }

  lemma StricterFront(ls: seq<Line>, p: seq<Line> -> bool, q: seq<Line> -> bool)
    requires ls != [] && Stricter(ls, p, q)
    ensures Stricter(ls[..|ls| - 1], p, q)
  {
    var front := ls[..|ls| - 1];
    assert forall k :: 0 <= k < |front| ==> front[k] == ls[k] && front[..k] == ls[..k];
  }

  lemma {:induction false} CollectShorter(ls: seq<Line>, p: seq<Line> -> bool, q: seq<Line> -> bool)
    requires Stricter(ls, p, q)
    ensures |Collect(ls, p)| <= |Collect(ls, q)|
  {
    if ls != [] {
      StricterFront(ls, p, q);
      CollectShorter(ls[..|ls| - 1], p, q);
      assert ls[|ls| - 1] in ls;
    }
  }

  /** A stricter reading gives the same rules exactly when it drops no rule. */
  lemma {:induction false} CollectSame(ls: seq<Line>, p: seq<Line> -> bool, q: seq<Line> -> bool)
    requires Stricter(ls, p, q)
    ensures Collect(ls, p) == Collect(ls, q) <==>
            forall k :: 0 <= k < |ls| && IsRule(ls[k]) && q(ls[..k]) ==> p(ls[..k])
  {
    if ls != [] {
      var n := |ls| - 1;
      var front := ls[..n];
      StricterFront(ls, p, q);
      CollectSame(front, p, q);
      CollectShorter(front, p, q);
      assert forall k :: 0 <= k < n ==> front[k] == ls[k] && front[..k] == ls[..k];
      if IsRule(ls[n]) && q(front) && p(front) {
        var x := NormalizePath(ls[n].path);
        assert Collect(ls, p)[..|Collect(front, p)|] == Collect(front, p);
        assert Collect(ls, q)[..|Collect(front, q)|] == Collect(front, q);
      }
    }
  }

  /** The parser's rules are those under the nearest user-agent line, exactly when no rule
      stands after an even, non-empty run of matching lines. */
  lemma {:induction false} NearestReadingHolds(ls: seq<Line>)
    ensures Collect(ls, OddRun) == Collect(ls, NearestMatches) <==>
            forall k :: 0 <= k < |ls| && IsRule(ls[k]) && TrailingRun(ls[..k]) > 0 ==> TrailingRun(ls[..k]) % 2 == 1
  {
    CollectSame(ls, OddRun, NearestMatches);
  }

  /** Between any two matching user-agent lines there is one that does not match. */
  ghost predicate NoSuccessiveMatches(ls: seq<Line>) {
    forall i, j :: 0 <= i < j < |ls| && Matches(ls[i]) && Matches(ls[j]) ==>
      exists k :: i < k < j && Misses(ls[k])
  }

  lemma {:induction false} RunWitness(ls: seq<Line>) returns (i: nat)
    requires TrailingRun(ls) > 0
    ensures i < |ls| && Matches(ls[i]) && forall k :: i < k < |ls| ==> !Misses(ls[k])
  {
    var n := |ls| - 1;
    if Matches(ls[n]) {
      i := n;
    } else {
      i := RunWitness(ls[..n]);
    }
  }

  lemma {:induction false} RunAtMostOne(ls: seq<Line>)
    requires NoSuccessiveMatches(ls)
    ensures TrailingRun(ls) <= 1
  {
    if ls != [] {
      var n := |ls| - 1;
      var front := ls[..n];
      PrefixNoSuccessive(ls, n);
      RunAtMostOne(front);
      if TrailingRun(front) > 0 {
        var i := RunWitness(front);
        assert Matches(ls[i]) && forall k :: i < k < n ==> ls[k] == front[k];
      }
    }
  }

  lemma PrefixNoSuccessive(ls: seq<Line>, n: nat)
    requires NoSuccessiveMatches(ls) && n <= |ls|
    ensures NoSuccessiveMatches(ls[..n])
  {
    var front := ls[..n];
    forall i, j | 0 <= i < j < n && Matches(front[i]) && Matches(front[j])
      ensures exists k :: i < k < j && Misses(front[k])
    {
      assert Matches(ls[i]) && Matches(ls[j]);
      var k :| i < k < j && Misses(ls[k]);
      assert Misses(front[k]);
    }
  }

  /** In particular when no two successive user-agent lines both match. */
  lemma {:induction false} NoSuccessiveMatchesSuffice(ls: seq<Line>)
    requires NoSuccessiveMatches(ls)
    ensures Collect(ls, OddRun) == Collect(ls, NearestMatches)
  {
    NearestReadingHolds(ls);
    forall k | 0 <= k < |ls| ensures TrailingRun(ls[..k]) <= 1 {
      PrefixNoSuccessive(ls, k);
      RunAtMostOne(ls[..k]);
    }
  }

  // ----------------------------------------------------- two readings against each other

  /** The positions of the rules that a reading keeps. */
  function Selected(ls: seq<Line>, keep: seq<Line> -> bool): seq<nat> {
    if ls == [] then []
    else
      var front := ls[..|ls| - 1];
      Selected(front, keep) + if IsRule(ls[|front|]) && keep(front) then [|front|] else []
  }

  /** Selected lists exactly the kept rules. */
  lemma {:induction false} SelectedMeans(ls: seq<Line>, keep: seq<Line> -> bool, k: nat)
    ensures k in Selected(ls, keep) <==> k < |ls| && IsRule(ls[k]) && keep(ls[..k])
  {
    if ls != [] {
      var front := ls[..|ls| - 1];
      SelectedMeans(front, keep, k);
      if k < |front| { assert front[k] == ls[k] && front[..k] == ls[..k]; }
    }
  }

  lemma {:induction false} SelectedLength(ls: seq<Line>, keep: seq<Line> -> bool)
    ensures |Collect(ls, keep)| == |Selected(ls, keep)|
  {
    if ls != [] { SelectedLength(ls[..|ls| - 1], keep); }
  }

  /** And Collect gives their paths. */
  lemma {:induction false} SelectedPaths(ls: seq<Line>, keep: seq<Line> -> bool, i: nat)
    requires i < |Selected(ls, keep)|
    ensures |Collect(ls, keep)| == |Selected(ls, keep)|
    ensures
      var k := Selected(ls, keep)[i];
      k < |ls| && IsRule(ls[k]) && Collect(ls, keep)[i] == NormalizePath(ls[k].path)
  {
    var front := ls[..|ls| - 1];
    SelectedLength(ls, keep);
    SelectedLength(front, keep);
    if i < |Selected(front, keep)| { SelectedPaths(front, keep, i); }
  }

  /** No rule is kept by one reading and dropped by the other. */
  ghost predicate Agree(ls: seq<Line>, p: seq<Line> -> bool, q: seq<Line> -> bool) {
    forall k :: 0 <= k < |ls| && IsRule(ls[k]) ==> p(ls[..k]) == q(ls[..k])
  }

  lemma {:induction false} SelectedSame(ls: seq<Line>, p: seq<Line> -> bool, q: seq<Line> -> bool)
    requires Agree(ls, p, q)
    ensures Selected(ls, p) == Selected(ls, q) && Collect(ls, p) == Collect(ls, q)
  {
    if ls != [] {
      var front := ls[..|ls| - 1];
      assert forall k :: 0 <= k < |front| ==> front[k] == ls[k] && front[..k] == ls[..k];
      SelectedSame(front, p, q);
    }
  }

  /** No two rules name the same path. */
  ghost predicate DistinctRules(ls: seq<Line>) {
    forall i, j :: 0 <= i < j < |ls| && IsRule(ls[i]) && IsRule(ls[j]) ==>
      NormalizePath(ls[i].path) != NormalizePath(ls[j].path)
  }

  lemma DistinctSelected(ls: seq<Line>, p: seq<Line> -> bool, q: seq<Line> -> bool)
    requires DistinctRules(ls) && Collect(ls, p) == Collect(ls, q)
    ensures Selected(ls, p) == Selected(ls, q)
  {
    SelectedLength(ls, p);
    SelectedLength(ls, q);
    var a, b := Selected(ls, p), Selected(ls, q);
    forall i | 0 <= i < |a| ensures a[i] == b[i] {
      SelectedPaths(ls, p, i);
      SelectedPaths(ls, q, i);
    }
  }

  /** When the collected paths tell two readings apart: a path written twice can stand in for
      a dropped one only if each reading keeps a rule that the other drops. */
  ghost predicate Telling(ls: seq<Line>, p: seq<Line> -> bool, q: seq<Line> -> bool) {
    DistinctRules(ls) || Stricter(ls, p, q) || Stricter(ls, q, p)
  }

  /** Two readings keep the same lines exactly when they agree on every rule, and collect the
      same paths exactly then if the paths tell them apart. */
  lemma {:induction false} ReadingsAgree(ls: seq<Line>, p: seq<Line> -> bool, q: seq<Line> -> bool)
    ensures Selected(ls, p) == Selected(ls, q) <==> Agree(ls, p, q)
    ensures Agree(ls, p, q) ==> Collect(ls, p) == Collect(ls, q)
    ensures Telling(ls, p, q) ==> (Collect(ls, p) == Collect(ls, q) <==> Agree(ls, p, q))
  {
    if Agree(ls, p, q) { SelectedSame(ls, p, q); }
    if Selected(ls, p) == Selected(ls, q) {
      forall k | 0 <= k < |ls| && IsRule(ls[k]) ensures p(ls[..k]) == q(ls[..k]) {
        SelectedMeans(ls, p, k);
        SelectedMeans(ls, q, k);
      }
    }
    if Collect(ls, p) == Collect(ls, q) {
      if DistinctRules(ls) { DistinctSelected(ls, p, q); }
      if Stricter(ls, p, q) { CollectSame(ls, p, q); }
      if Stricter(ls, q, p) { CollectSame(ls, q, p); }
    }
  }

  // ----------------------------------------------------------- against whole blocks

  /** A block is a run of user-agent lines, its header, and the rules after it; it is starred,
      named or ours when any line of its header is. Lines that are neither user-agent lines nor
      rules do not end a header. */
  datatype Block = Block(inHeader: bool, star: bool, named: bool, ours: bool)

  function BlockAt(ls: seq<Line>): Block {
    if ls == [] then Block(false, false, false, false)
    else
      var b := BlockAt(ls[..|ls| - 1]);
      match ls[|ls| - 1]
      case Agent(star, named, ours) =>
        if b.inHeader then Block(true, star || b.star, named || b.named, ours || b.ours)
        else Block(true, star, named, ours)
      case Other => b
      case _ => b.(inHeader := false)
  }

  predicate InStarBlock(ls: seq<Line>) { BlockAt(ls).star }
  predicate InNamedBlock(ls: seq<Line>) { BlockAt(ls).named }
  predicate InOurBlock(ls: seq<Line>) { BlockAt(ls).ours }

  /** Every matching block counts. */
  predicate InMatchingBlock(ls: seq<Line>) { InStarBlock(ls) || InNamedBlock(ls) }

  function MatchingBlocks(ls: seq<Line>): nat {
    if ls == [] then 0
    else
      var front := ls[..|ls| - 1];
      var opens := Matches(ls[|front|]) && !(BlockAt(front).inHeader && InMatchingBlock(front));
      MatchingBlocks(front) + if opens then 1 else 0
  }

  /** Only the first matching block counts. */
  predicate FirstBlock(ls: seq<Line>) { InMatchingBlock(ls) && MatchingBlocks(ls) == 1 }

  lemma {:induction false} RunIsMatching(ls: seq<Line>)
    requires TrailingRun(ls) > 0
    ensures InMatchingBlock(ls)
  {
    if !Matches(ls[|ls| - 1]) { RunIsMatching(ls[..|ls| - 1]); }
  }

  /** The parser's rules are those of all matching blocks, exactly when no rule of a
      matching block stands after an even run. */
  lemma {:induction false} MergedReadingHolds(ls: seq<Line>)
    ensures Collect(ls, OddRun) == Collect(ls, InMatchingBlock) <==>
            forall k :: 0 <= k < |ls| && IsRule(ls[k]) && InMatchingBlock(ls[..k]) ==> TrailingRun(ls[..k]) % 2 == 1
  {
    OddRunIsMatching(ls);
    CollectSame(ls, OddRun, InMatchingBlock);
  }

  lemma {:induction false} OddRunIsMatching(ls: seq<Line>)
    ensures Stricter(ls, OddRun, InMatchingBlock)
  {
    forall k | 0 <= k < |ls| && IsRule(ls[k]) && OddRun(ls[..k]) ensures InMatchingBlock(ls[..k]) {
      RunIsMatching(ls[..k]);
    }
  }

  /** The rules after an odd run are those of the first matching block. */
  ghost predicate OddRunIsFirstBlock(ls: seq<Line>) {
    forall k :: 0 <= k < |ls| && IsRule(ls[k]) ==>
      if FirstBlock(ls[..k]) then TrailingRun(ls[..k]) % 2 == 1 else TrailingRun(ls[..k]) % 2 == 0
  }

  /** The parser keeps the rule lines of the first matching block and no others, as
      documented, exactly when those are the rules after an odd run. */
  lemma {:induction false} FirstBlockReadingHolds(ls: seq<Line>)
    ensures Selected(ls, OddRun) == Selected(ls, FirstBlock) <==> OddRunIsFirstBlock(ls)
    ensures OddRunIsFirstBlock(ls) ==> Collect(ls, OddRun) == Collect(ls, FirstBlock)
    ensures Telling(ls, OddRun, FirstBlock) ==>
              (Collect(ls, OddRun) == Collect(ls, FirstBlock) <==> OddRunIsFirstBlock(ls))
  {
    ReadingsAgree(ls, OddRun, FirstBlock);
    assert Agree(ls, OddRun, FirstBlock) <==> OddRunIsFirstBlock(ls);
  }

  /** A block headed by two matching lines: its rule is dropped under both readings. */
  lemma DoubleHeaderIgnored(a: Line, b: Line, p: string)
    requires Matches(a) && Matches(b) && p != ""
    ensures
      var ls := [a, b, Disallow(p)];
      && Collect(ls, OddRun) == []
      && Collect(ls, FirstBlock) == Collect(ls, InMatchingBlock) == [NormalizePath(p)]
  {
    DoubleHeader(a, b);
    CollectAfterHeader(a, b, p, OddRun);
    CollectAfterHeader(a, b, p, FirstBlock);
    CollectAfterHeader(a, b, p, InMatchingBlock);
  }

  lemma DoubleHeader(a: Line, b: Line)
    requires Matches(a) && Matches(b)
    ensures !OddRun([a, b]) && InMatchingBlock([a, b]) && FirstBlock([a, b])
  {
    AgentStep([], a);
    AgentStep([a], b);
    assert [] + [a] == [a] && [a] + [b] == [a, b];
  }

  /** What one more user-agent line does. */
  lemma AgentStep(ls: seq<Line>, l: Line)
    requires l.Agent?
    ensures TrailingRun(ls + [l]) == if Matches(l) then 1 + TrailingRun(ls) else 0
    ensures
      var b := BlockAt(ls);
      && BlockAt(ls + [l]) == (if b.inHeader then Block(true, l.star || b.star, l.named || b.named, l.ours || b.ours)
                               else Block(true, l.star, l.named, l.ours))
      && MatchingBlocks(ls + [l]) == MatchingBlocks(ls) + One(Matches(l) && !(b.inHeader && InMatchingBlock(ls)))
  {
    assert (ls + [l])[..|ls|] == ls;
  }

  lemma CollectSnoc(ls: seq<Line>, l: Line, keep: seq<Line> -> bool)
    ensures Collect(ls + [l], keep) ==
            Collect(ls, keep) + if IsRule(l) && keep(ls) then [NormalizePath(l.path)] else []
  {
    assert (ls + [l])[..|ls|] == ls;
  }

  lemma CollectAfterHeader(a: Line, b: Line, p: string, keep: seq<Line> -> bool)
    requires a.Agent? && b.Agent? && p != ""
    ensures Collect([a, b, Disallow(p)], keep) == if keep([a, b]) then [NormalizePath(p)] else []
  {
    CollectSnoc([], a, keep);
    CollectSnoc([a], b, keep);
    CollectSnoc([a, b], Disallow(p), keep);
    assert [] + [a] == [a] && [a] + [b] == [a, b] && [a, b] + [Disallow(p)] == [a, b, Disallow(p)];
  }

  // -------------------------------------------------------------- against the standard

  /** Some group of the file is for our product token. */
  ghost predicate NamesUs(ls: seq<Line>) { exists i :: 0 <= i < |ls| && ls[i].Agent? && ls[i].ours }

  /** The groups to obey by section 2.2.1 of RFC 9309: all those for our product token, and
      those for `*` only if no group of the file does. */
  ghost function Standard(ls: seq<Line>): seq<Line> -> bool {
    if NamesUs(ls) then InOurBlock else InStarBlock
  }

  /** The rules after an odd run are those of the groups to obey. */
  ghost predicate OddRunIsStandard(ls: seq<Line>) {
    forall k :: 0 <= k < |ls| && IsRule(ls[k]) ==>
      (TrailingRun(ls[..k]) % 2 == 1 <==> if NamesUs(ls) then InOurBlock(ls[..k]) else InStarBlock(ls[..k]))
  }

  /** The parser keeps the rule lines that the standard obeys exactly when those are the
      rules after an odd run. */
  lemma {:induction false} StandardReadingHolds(ls: seq<Line>)
    ensures Selected(ls, OddRun) == Selected(ls, Standard(ls)) <==> OddRunIsStandard(ls)
    ensures OddRunIsStandard(ls) ==> Collect(ls, OddRun) == Collect(ls, Standard(ls))
    ensures Telling(ls, OddRun, Standard(ls)) ==>
              (Collect(ls, OddRun) == Collect(ls, Standard(ls)) <==> OddRunIsStandard(ls))
  {
    ReadingsAgree(ls, OddRun, Standard(ls));
    assert Agree(ls, OddRun, Standard(ls)) <==> OddRunIsStandard(ls);
  }

  /** No line equals the whole header, as for every header that is not a bare token. */
  ghost predicate NoneNamed(ls: seq<Line>) { forall i :: 0 <= i < |ls| && ls[i].Agent? ==> !ls[i].named }

  lemma {:induction false} NoneNamedMeans(ls: seq<Line>)
    requires NoneNamed(ls)
    ensures !InNamedBlock(ls)
  {
    if ls != [] {
      NoneNamedMeans(ls[..|ls| - 1]);
      assert ls[|ls| - 1] in ls;
    }
  }

  /** In a file that names us in neither way the standard's reading is that of all matching
      blocks, so that there the paths always tell: equal if and only if no rule of a `*` group
      stands after an even run. */
  lemma {:induction false} StandardWithoutOurs(ls: seq<Line>)
    requires !NamesUs(ls) && NoneNamed(ls)
    ensures Selected(ls, Standard(ls)) == Selected(ls, InMatchingBlock)
    ensures Collect(ls, OddRun) == Collect(ls, Standard(ls)) <==>
            forall k :: 0 <= k < |ls| && IsRule(ls[k]) && InStarBlock(ls[..k]) ==> TrailingRun(ls[..k]) % 2 == 1
  {
    forall k | 0 <= k < |ls| ensures InMatchingBlock(ls[..k]) == InStarBlock(ls[..k]) {
      NoneNamedMeans(ls[..k]);
    }
    SelectedSame(ls, Standard(ls), InMatchingBlock);
    MergedReadingHolds(ls);
  }

  lemma {:induction false} TokenIsPrefix(header: string)
    ensures |ProductToken(header)| <= |header|
    ensures ProductToken(header) != "" ==> IsTokenChar(ProductToken(header)[0])
  {
    if header != "" && IsTokenChar(header[0]) { TokenIsPrefix(header[1..]); }
  }

  /** A group headed by our product token: the standard obeys it, the parser drops it, because
      the header it compares with goes on after the token. */
  lemma TokenGroupDropped(userAgent: string, p: string)
    requires 0 < |ProductToken(userAgent)| < |userAgent| && p != ""
    ensures
      var ls := [AgentLine(ProductToken(userAgent), userAgent), Disallow(p)];
      Collect(ls, OddRun) == [] && Collect(ls, Standard(ls)) == [NormalizePath(p)]
  {
    var token := ProductToken(userAgent);
    var l := AgentLine(token, userAgent);
    var ls := [l, Disallow(p)];
    TokenIsPrefix(userAgent);
    assert |Lower(token)| != |Lower(userAgent)| && token != "*";
    assert l == Agent(false, false, true) && ls[0] == l;
    AgentStep([], l);
    assert [] + [l] == [l] && [l] + [Disallow(p)] == ls;
    CollectSnoc([], l, OddRun);
    CollectSnoc([l], Disallow(p), OddRun);
    CollectSnoc([], l, InOurBlock);
    CollectSnoc([l], Disallow(p), InOurBlock);
    assert NamesUs(ls);
  }

  lemma CollectSteps(ls: seq<Line>, keep: seq<Line> -> bool)
    requires |ls| == 4 && ls[0].Agent? && IsRule(ls[1]) && ls[2].Agent? && IsRule(ls[3])
    ensures Collect(ls, keep) == (if keep(ls[..1]) then [NormalizePath(ls[1].path)] else [])
                                 + (if keep(ls[..3]) then [NormalizePath(ls[3].path)] else [])
  {
    assert ls[..3][..2] == ls[..2] && ls[..2][..1] == ls[..1] && ls[..1][..0] == [];
    assert Collect(ls[..1], keep) == [];
    assert Collect(ls[..2], keep) == if keep(ls[..1]) then [NormalizePath(ls[1].path)] else [];
    assert Collect(ls[..3], keep) == Collect(ls[..2], keep);
  }

  /** Two matching groups in a row: the second one is ignored. */
  lemma SecondMatchingGroupIgnored(g: Line, h: Line, a: string, b: string)
    requires Matches(g) && Matches(h) && a != "" && b != ""
    ensures
      var ls := [g, Disallow(a), h, Disallow(b)];
      && Collect(ls, OddRun) == [NormalizePath(a)]
      && Collect(ls, NearestMatches) == [NormalizePath(a), NormalizePath(b)]
  {
    var ls := [g, Disallow(a), h, Disallow(b)];
    assert ls[..3] == [g, Disallow(a), h];
    assert ls[..3][..2] == [g, Disallow(a)];
    assert ls[..3][..2][..1] == [g] && [g][..0] == [];
    CollectSteps(ls, OddRun);
    CollectSteps(ls, NearestMatches);
    assert TrailingRun([g]) == 1 && TrailingRun(ls[..3][..2]) == 1 && TrailingRun(ls[..3]) == 2;
  }

  /** A `*` group before our own, for a header that is a bare token: the parser keeps the
      rules of both, and so do all matching blocks together, but the standard obeys only ours. */
  lemma StarGroupKept(star: Line, other: Line, ours: Line, a: string, b: string)
    requires a != "" && b != ""
    requires star == Agent(true, false, false) && other == Agent(false, false, false)
    requires ours == Agent(false, true, true)
    ensures
      var ls := [star, Disallow(a), other, ours, Disallow(b)];
      && Selected(ls, OddRun) == Selected(ls, InMatchingBlock) == [1, 4]
      && Selected(ls, Standard(ls)) == [4]
  {
    var ls := [star, Disallow(a), other, ours, Disallow(b)];
    assert ls[..4] == [star, Disallow(a), other, ours] && ls[..4][..3] == [star, Disallow(a), other];
    assert ls[..4][..3][..2] == [star, Disallow(a)] && ls[..4][..3][..2][..1] == [star] && [star][..0] == [];
    assert TrailingRun([star]) == 1 && BlockAt([star]) == Block(true, true, false, false);
    assert TrailingRun([star, Disallow(a)]) == 1 && BlockAt([star, Disallow(a)]) == Block(false, true, false, false);
    assert TrailingRun(ls[..4][..3]) == 0 && BlockAt(ls[..4][..3]) == Block(true, false, false, false);
    assert TrailingRun(ls[..4]) == 1 && BlockAt(ls[..4]) == Block(true, false, true, true);
    assert ls[3].ours;
    SelectedSteps(ls, OddRun);
    SelectedSteps(ls, InMatchingBlock);
    SelectedSteps(ls, InOurBlock);
  }

  lemma SelectedSteps(ls: seq<Line>, keep: seq<Line> -> bool)
    requires |ls| == 5 && ls[0].Agent? && IsRule(ls[1]) && ls[2].Agent? && ls[3].Agent? && IsRule(ls[4])
    ensures Selected(ls, keep) == (if keep(ls[..1]) then [1] else []) + (if keep(ls[..4]) then [4] else [])
  {
    assert ls[..4][..3] == ls[..3] && ls[..3][..2] == ls[..2] && ls[..2][..1] == ls[..1] && ls[..1][..0] == [];
    assert Selected(ls[..1], keep) == [];
    assert Selected(ls[..2], keep) == if keep(ls[..1]) then [1] else [];
    assert Selected(ls[..3], keep) == Selected(ls[..2], keep);
    assert Selected(ls[..4], keep) == Selected(ls[..3], keep);
  }

  // ------------------------------------------------------------------- the decision

  ghost predicate Refused(rules: seq<string>, path: string) {
    exists i :: 0 <= i < |rules| && HasPrefix(NormalizePath(path), rules[i])
  }

  method Allowed(rules: seq<string>, path: string) returns (ok: bool)
    ensures ok <==> !Refused(rules, path)
  {
    if rules == [] {
      return true;
    }
    var p := NormalizePath(path);
    for i := 0 to |rules|
      invariant forall k :: 0 <= k < i ==> !HasPrefix(p, rules[k])
    {
      if HasPrefix(p, rules[i]) {
        return false;
      }
    }
    return true;
  }

  lemma {:induction false} TrimLeftAppend(p: string, q: string)
    ensures TrimLeftSpace(p) != "" ==> TrimLeftSpace(p + q) == TrimLeftSpace(p) + q && !IsSpace(TrimLeftSpace(p)[0])
  {
    if p != "" {
      assert (p + q)[1..] == p[1..] + q;
      if IsSpace(p[0]) { TrimLeftAppend(p[1..], q); }
    }
  }

  lemma {:induction false} TrimRightKeeps(x: string, y: string)
    requires x != "" && !IsSpace(x[|x| - 1]) && HasPrefix(y, x)
    ensures HasPrefix(TrimRightSpace(y), x)
    decreases |y|
  {
    if IsSpace(y[|y| - 1]) {
      assert |y| > |x|;
      assert y[..|y| - 1][..|x|] == y[..|x|];
      TrimRightKeeps(x, y[..|y| - 1]);
    }
  }

  lemma {:induction false} TrimRightMeans(x: string)
    requires x != "" && !IsSpace(x[0])
    ensures TrimRightSpace(x) != "" && HasPrefix(x, TrimRightSpace(x))
    ensures !IsSpace(TrimRightSpace(x)[|TrimRightSpace(x)| - 1])
    decreases |x|
  {
    if IsSpace(x[|x| - 1]) {
      TrimRightMeans(x[..|x| - 1]);
    }
  }

  lemma NormalizeMonotone(p: string, q: string)
    ensures HasPrefix(NormalizePath(p + q), NormalizePath(p))
  {
    var t := TrimLeftSpace(p);
    TrimLeftAppend(p, q);
    if t != "" {
      TrimRightMeans(t);
      var x := TrimRightSpace(t);
      assert HasPrefix(t + q, x) by { assert (t + q)[..|x|] == t[..|x|]; }
      TrimRightKeeps(x, t + q);
      assert TrimSpace(p) == x && HasPrefix(TrimSpace(p + q), x);
      assert x[0] == TrimSpace(p + q)[0];
    }
  }

  /** A refused path has all its extensions refused. */
  lemma RefusalIsPrefixClosed(rules: seq<string>, p: string, q: string)
    requires Refused(rules, p)
    ensures Refused(rules, p + q)
  {
    var i :| 0 <= i < |rules| && HasPrefix(NormalizePath(p), rules[i]);
    NormalizeMonotone(p, q);
    var r := rules[i];
    assert NormalizePath(p + q)[..|r|] == NormalizePath(p)[..|r|];
  }
}
