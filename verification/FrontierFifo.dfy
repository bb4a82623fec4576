/** A first-in-first-out crawl is a breadth-first search: with one partition, one slot,
    seeds first and no failures it is exact. */
module FrontierFifo {
  import opened Frontier
  import opened FrontierBounds

  /** One partition: positions are dispatched in log order. One slot: of the claimed jobs
      only the oldest publishes. No failures, no redelivery, no late seeds. */
  predicate FifoStep(s: State, e: Event) {
    match e
    case Dispatch(i) => forall k :: k in s.ready ==> i <= k
    case Publish(i) => forall k :: k in s.running ==> i <= k
    case Finish(i) => forall k :: k in s.running ==> i <= k
    case _ => false
  }

  ghost predicate FifoReaches(c: Config, s: State, es: seq<Event>, t: State)
    decreases |es|
  {
    if es == [] then s == t
    else Enabled(c, s, es[0]) && FifoStep(s, es[0]) && FifoReaches(c, Apply(c, s, es[0]), es[1..], t)
  }

  /** The log is sorted by depth and never more than one level ahead of an open position. */
  ghost predicate Levelled(s: State) {
    && (forall i, j :: 0 <= i < j < |s.log| ==> s.log[i].depth <= s.log[j].depth)
    && (forall i, r :: 0 <= i < |s.log| && 0 <= r < |s.log| && (r in s.ready || r in s.running) ==>
          s.log[i].depth <= s.log[r].depth + 1)
  }

  /** Dispatched positions form a prefix, and a URL is claimed at its first position. */
  ghost predicate InOrder(s: State) {
    && (forall i, j :: i in s.ready && i < j < |s.log| ==> j in s.ready)
    && (forall i :: i in s.running ==> i !in s.ready)
    && (forall k, i :: 0 <= k < |s.spawned| && 0 <= i < s.spawned[k] < |s.log| ==>
          s.log[i].url != s.log[s.spawned[k]].url)
  }

  lemma DispatchInOrder(c: Config, s: State, i: nat)
    requires Complete(c, s) && InOrder(s) && Enabled(c, s, Dispatch(i)) && FifoStep(s, Dispatch(i))
    ensures InOrder(Apply(c, s, Dispatch(i)))
  {
    var t := Apply(c, s, Dispatch(i));
    assert t.log == s.log;
    forall k, j | 0 <= k < |t.spawned| && 0 <= j < t.spawned[k] < |t.log|
      ensures t.log[j].url != t.log[t.spawned[k]].url
    {
      if k == |s.spawned| {
        assert j !in s.ready;
      } else {
        assert t.spawned[k] == s.spawned[k];
      }
    }
  }

  lemma DispatchLevelled(c: Config, s: State, i: nat)
    requires Levelled(s) && Enabled(c, s, Dispatch(i))
    ensures Levelled(Apply(c, s, Dispatch(i)))
  {
    assert Apply(c, s, Dispatch(i)).log == s.log;
  }

  lemma AppendInOrder(c: Config, s: State, j: Job, t: State)
    requires Claimed(c, s) && InOrder(s)
    requires t == Append(s.(running := t.running), j) && t.running.Keys == s.running.Keys
    ensures InOrder(t)
  {
  }

  lemma AppendLevelled(s: State, i: nat, j: Job, t: State)
    requires Levelled(s) && InOrder(s) && i in s.running && i < |s.log| && j.depth == s.log[i].depth + 1
    requires forall k :: k in s.running ==> i <= k
    requires t == Append(s.(running := t.running), j) && t.running.Keys == s.running.Keys
    ensures Levelled(t)
  {
    forall r | 0 <= r < |s.log| && (r in s.ready || r in s.running) ensures s.log[i].depth <= s.log[r].depth {
      assert r in s.ready && r < i ==> i in s.ready;
    }
  }

  lemma CountOnly(s: State, t: State)
    requires Levelled(s) && InOrder(s) && t == s.(running := t.running) && t.running.Keys == s.running.Keys
    ensures Levelled(t) && InOrder(t)
  {
  }

  lemma AppendKeeps(c: Config, s: State, i: nat, j: Job, t: State)
    requires Claimed(c, s) && Levelled(s) && InOrder(s) && i in s.running && j.depth == s.log[i].depth + 1
    requires forall k :: k in s.running ==> i <= k
    requires t == Append(s.(running := t.running), j) && t.running.Keys == s.running.Keys
    ensures Levelled(t) && InOrder(t)
  {
    AppendInOrder(c, s, j, t);
    AppendLevelled(s, i, j, t);
  }

  /** What one publish does to the state. */
  lemma PublishEffect(c: Config, s: State, i: nat) returns (t: State, j: Job)
    requires Enabled(c, s, Publish(i))
    ensures t == Apply(c, s, Publish(i)) && t.running.Keys == s.running.Keys && j.depth == s.log[i].depth + 1
    ensures t == Append(s.(running := t.running), j) || t == s.(running := t.running)
  {
    t := Apply(c, s, Publish(i));
    j := Child(s.log[i], c.links(s.log[i].url)[s.running[i]]);
  }

  lemma FinishKeeps(c: Config, s: State, i: nat)
    requires Levelled(s) && InOrder(s) && Enabled(c, s, Finish(i))
    ensures Levelled(Apply(c, s, Finish(i))) && InOrder(Apply(c, s, Finish(i)))
  {
  }

  /** What a FIFO crawl keeps. */
  ghost predicate FifoInv(c: Config, s: State) {
    Sound(c, s) && Complete(c, s) && Levelled(s) && InOrder(s)
  }

  lemma FifoInvStep(c: Config, s: State, e: Event)
    requires FifoInv(c, s) && Enabled(c, s, e) && FifoStep(s, e)
    ensures FifoInv(c, Apply(c, s, e))
  {
    SoundStep(c, s, e);
    CompleteStep(c, s, e);
    match e
    case Dispatch(i) => DispatchInOrder(c, s, i); DispatchLevelled(c, s, i);
    case Publish(i) =>
      var t, j := PublishEffect(c, s, i);
      if t == s.(running := t.running) { CountOnly(s, t); } else { AppendKeeps(c, s, i, j, t); }
    case Finish(i) => FinishKeeps(c, s, i);
  }

  lemma {:induction false} FifoReachesInv(c: Config, s: State, es: seq<Event>, t: State)
    requires FifoInv(c, s) && FifoReaches(c, s, es, t)
    ensures FifoInv(c, t)
    decreases |es|
  {
    if es != [] {
      FifoInvStep(c, s, es[0]);
      FifoReachesInv(c, Apply(c, s, es[0]), es[1..], t);
    }
  }

  /** After the seeds and before the crawl everything is ready, at depth 0. */
  ghost predicate OnlySeeds(s: State) {
    && s.running == map[] && s.spawned == [] && s.visited == {}
    && (forall i :: 0 <= i < |s.log| ==> s.log[i].depth == 0 && i in s.ready)
  }

  lemma {:induction false} SeedingKeeps(c: Config, s: State, es: seq<Event>, t: State)
    requires Sound(c, s) && OnlySeeds(s) && Reaches(c, s, es, t)
    requires forall k :: 0 <= k < |es| ==> es[k].Seed?
    ensures Sound(c, t) && OnlySeeds(t)
    decreases |es|
  {
    if es != [] {
      SoundStep(c, s, es[0]);
      SeedingKeeps(c, Apply(c, s, es[0]), es[1..], t);
    }
  }

  /** t is where a FIFO crawl can be: seeds first, then FIFO steps. */
  ghost predicate FifoCrawl(c: Config, t: State) {
    exists seeding: seq<Event>, s: State, es: seq<Event> ::
      && Reaches(c, START, seeding, s) && (forall k :: 0 <= k < |seeding| ==> seeding[k].Seed?)
      && FifoReaches(c, s, es, t)
  }

  lemma FifoCrawlInv(c: Config, t: State)
    requires FifoCrawl(c, t)
    ensures FifoInv(c, t)
  {
    var seeding: seq<Event>, s: State, es: seq<Event> :|
      && Reaches(c, START, seeding, s) && (forall k :: 0 <= k < |seeding| ==> seeding[k].Seed?)
      && FifoReaches(c, s, es, t);
    SeedingKeeps(c, START, seeding, s);
    assert FifoInv(c, s);
    FifoReachesInv(c, s, es, t);
  }

  /** The position at which a URL was claimed. */
  ghost predicate ClaimedAt(s: State, u: string, i: nat) {
    i in s.spawned && i < |s.log| && s.log[i].url == u
  }

  lemma ClaimedEarly(c: Config, t: State, j: Job) returns (i: nat)
    requires KeysInjective(c) && Complete(c, t) && Levelled(t) && InOrder(t) && Quiet(t) && j in t.log
    ensures ClaimedAt(t, j.url, i) && t.log[i].depth <= j.depth
  {
    var p :| 0 <= p < |t.log| && t.log[p] == j;
    assert p !in t.ready;
    VisitedMeans(c, t, j.url);
    var k :| 0 <= k < |t.spawned| && t.log[t.spawned[k]].url == j.url;
    i := t.spawned[k];
    assert i in t.spawned;
    assert !(p < i);
  }

  /** Every URL within reach is claimed, no later than its link distance. */
  lemma {:induction false} ClaimedWithin(c: Config, t: State, a: string, u: string, n: nat) returns (i: nat)
    requires KeysInjective(c) && Complete(c, t) && Levelled(t) && InOrder(t) && Quiet(t) && c.maxDepth > 0
    requires Seeded(t, a) && Path(c, a, u, n) && n <= c.maxDepth
    ensures ClaimedAt(t, u, i) && t.log[i].depth <= n
    decreases n
  {
    if n == 0 {
      var session :| SeedJob(session, a) in t.log;
      i := ClaimedEarly(c, t, SeedJob(session, a));
    } else {
      var m :| Path(c, a, m, n - 1) && u in c.links(m);
      var p := ClaimedWithin(c, t, a, m, n - 1);
      var k :| 0 <= k < |c.links(m)| && c.links(m)[k] == u;
      assert Child(t.log[p], u) in t.log;
      i := ClaimedEarly(c, t, Child(t.log[p], u));
    }
  }

  /** A URL within maxDepth links of some seed. */
  ghost predicate Within(c: Config, t: State, u: string) {
    exists a, n: nat :: n <= c.maxDepth && Seeded(t, a) && Path(c, a, u, n)
  }

  lemma SameClaim(c: Config, t: State, u: string, i: nat, j: nat)
    requires Claimed(c, t) && ClaimedAt(t, u, i) && ClaimedAt(t, u, j)
    ensures i == j
  {
    var k :| 0 <= k < |t.spawned| && t.spawned[k] == i;
    var l :| 0 <= l < |t.spawned| && t.spawned[l] == j;
  }

  lemma ShortestClaim(c: Config, t: State, u: string, i: nat, a: string, n: nat)
    requires KeysInjective(c) && FifoInv(c, t) && Quiet(t) && c.maxDepth > 0
    requires ClaimedAt(t, u, i) && Seeded(t, a) && Path(c, a, u, n)
    ensures t.log[i].depth <= n
  {
    assert Descends(c, t, t.log[i]);
    if n <= c.maxDepth {
      var j := ClaimedWithin(c, t, a, u, n);
      SameClaim(c, t, u, i, j);
    }
  }

  lemma ClaimIsWithin(c: Config, t: State, u: string, i: nat)
    requires Sound(c, t) && c.maxDepth > 0 && ClaimedAt(t, u, i)
    ensures Within(c, t, u)
  {
    var j := t.log[i];
    assert Descends(c, t, j);
    assert Seeded(t, j.seedUrl) && Path(c, j.seedUrl, u, j.depth);
  }

  lemma WithinIsClaimed(c: Config, t: State, u: string)
    requires KeysInjective(c) && Complete(c, t) && Levelled(t) && InOrder(t) && Quiet(t)
    requires c.maxDepth > 0 && Within(c, t, u)
    ensures exists i :: ClaimedAt(t, u, i)
  {
    var a, n: nat :| n <= c.maxDepth && Seeded(t, a) && Path(c, a, u, n);
    var i := ClaimedWithin(c, t, a, u, n);
  }

  /** Exactness: with the seeds posted first, a FIFO crawl that has come to rest has
      processed exactly the URLs within maxDepth links of a seed. */
  lemma FifoCrawlIsExact(c: Config, t: State, u: string)
    requires KeysInjective(c) && FifoCrawl(c, t) && Quiet(t) && c.maxDepth > 0
    ensures (exists i :: ClaimedAt(t, u, i)) <==> Within(c, t, u)
  {
    FifoCrawlInv(c, t);
    if i :| ClaimedAt(t, u, i) {
      ClaimIsWithin(c, t, u, i);
    }
    if Within(c, t, u) {
      WithinIsClaimed(c, t, u);
    }
  }

  /** And each of them once, at its shortest link distance from any seed. */
  lemma FifoDepthIsShortest(c: Config, t: State, u: string, i: nat)
    requires KeysInjective(c) && FifoCrawl(c, t) && Quiet(t) && c.maxDepth > 0 && ClaimedAt(t, u, i)
    ensures forall j :: ClaimedAt(t, u, j) ==> j == i
    ensures Seeded(t, t.log[i].seedUrl) && 0 <= t.log[i].depth && Path(c, t.log[i].seedUrl, u, t.log[i].depth)
    ensures forall a, n: nat :: Seeded(t, a) && Path(c, a, u, n) ==> t.log[i].depth <= n
  {
    FifoCrawlInv(c, t);
    assert Descends(c, t, t.log[i]);
    assert SeedJob(t.log[i].session, t.log[i].seedUrl) in t.log;
    forall j | ClaimedAt(t, u, j) ensures j == i {
      SameClaim(c, t, u, i, j);
    }
    forall a, n: nat | Seeded(t, a) && Path(c, a, u, n) ensures t.log[i].depth <= n {
      ShortestClaim(c, t, u, i, a, n);
    }
  }

  // --------------------------------------------------- and it does come to rest

  lemma Least(s: set<nat>) returns (m: nat)
    requires s != {}
    ensures m in s && forall k :: k in s ==> m <= k
    decreases |s|
  {
    var pivot :| pivot in s;
    var below := set k | k in s && k < pivot;
    assert forall k :: k in s ==> k in below || pivot <= k;
    if below == {} {
      m := pivot;
    } else {
      SmallerSubset(below, s);
      m := Least(below);
    }
  }

  lemma SmallerSubset(a: set<nat>, b: set<nat>)
    requires a < b
    ensures |a| < |b|
  {
    assert b == a + (b - a) && b - a != {};
  }

  /** A FIFO crawl that is not at rest can go on in FIFO order. */
  lemma FifoCanGoOn(c: Config, s: State) returns (e: Event)
    requires Claimed(c, s) && !Quiet(s)
    ensures Progress(e) && Enabled(c, s, e) && FifoStep(s, e)
  {
    if s.ready != {} {
      var i := Least(s.ready);
      e := Dispatch(i);
    } else {
      var j := SomeRunning(s);
      var i := Least(s.running.Keys);
      e := RunningStepOf(c, s, i);
    }
  }

  lemma {:induction false} FifoRests(c: Config, s: State) returns (es: seq<Event>, t: State)
    requires Sound(c, s) && c.maxDepth > 0
    ensures FifoReaches(c, s, es, t) && Quiet(t)
    decreases TotalDue(c, s, |s.log|)
  {
    if Quiet(s) {
      return [], s;
    }
    var e := FifoCanGoOn(c, s);
    StepDecreases(c, s, e);
    SoundStep(c, s, e);
    var rest;
    rest, t := FifoRests(c, Apply(c, s, e));
    es := [e] + rest;
    assert es[1..] == rest;
  }

  /** Whatever was posted, there is a FIFO crawl at rest to which the two theorems apply. */
  lemma FifoCrawlRests(c: Config, seeding: seq<Event>, s: State) returns (t: State)
    requires Reaches(c, START, seeding, s) && (forall k :: 0 <= k < |seeding| ==> seeding[k].Seed?) && c.maxDepth > 0
    ensures FifoCrawl(c, t) && Quiet(t) && s.log <= t.log
  {
    SeedingKeeps(c, START, seeding, s);
    var es;
    es, t := FifoRests(c, s);
    FifoExtends(c, s, es, t);
  }

  lemma {:induction false} FifoExtends(c: Config, s: State, es: seq<Event>, t: State)
    requires FifoReaches(c, s, es, t)
    ensures s.log <= t.log
    decreases |es|
  {
    if es != [] {
      FifoExtends(c, Apply(c, s, es[0]), es[1..], t);
    }
  }

  // ------------------------------------------------------- order does matter

  /** a links to b and c, b to c, c to d. */
  function Diamond(u: string): seq<string> {
    if u == "a" then ["b", "c"] else if u == "b" then ["c"] else if u == "c" then ["d"] else []
  }

  /** Reached by a crawl without failures. */
  ghost predicate Clean(c: Config, t: State) {
    exists es: seq<Event> :: Reaches(c, START, es, t) && forall k :: 0 <= k < |es| ==> !Failure(es[k])
  }

  lemma CleanStep(c: Config, s: State, e: Event, t: State)
    requires Clean(c, s) && Enabled(c, s, e) && Apply(c, s, e) == t && !Failure(e)
    ensures Clean(c, t)
  {
    var es: seq<Event> :| Reaches(c, START, es, s) && forall k :: 0 <= k < |es| ==> !Failure(es[k]);
    ReachesSnoc(c, START, es, s, e);
  }

  const JOB_A := Job("s", "a", "a", 0)
  const JOB_B := Job("s", "a", "b", 1)
  const EARLY_C := Job("s", "a", "c", 1)
  const LATE_C := Job("s", "a", "c", 2)

  function Keys(c: Config, urls: seq<string>): set<string> { set u | u in urls :: c.key(u) }

  lemma NewKey(c: Config, urls: seq<string>, u: string)
    requires KeysInjective(c)
    ensures c.key(u) in Keys(c, urls) <==> u in urls
    ensures Keys(c, urls + [u]) == Keys(c, urls) + {c.key(u)}
  {
    assert forall x :: x in urls + [u] <==> x in urls || x == u;
    if u in urls { assert c.key(u) in Keys(c, urls); }
  }

  ghost predicate Example(c: Config) { KeysInjective(c) && c == Config(Diamond, 2, c.key) }

  function RunningA(c: Config): State { State([JOB_A], {}, Keys(c, ["a"]), map[0 := 0], [0]) }
  function AfterA(c: Config): State { State([JOB_A, JOB_B, EARLY_C], {1, 2}, Keys(c, ["a"]), map[], [0]) }
  function AfterB(c: Config): State {
    State([JOB_A, JOB_B, EARLY_C, LATE_C], {2, 3}, Keys(c, ["a", "b"]), map[], [0, 1])
  }
  function AtRest(c: Config): State {
    State([JOB_A, JOB_B, EARLY_C, LATE_C], {}, Keys(c, ["a", "b", "c"]), map[], [0, 1, 3])
  }

  lemma ReachRunningA(c: Config)
    requires Example(c)
    ensures Clean(c, RunningA(c))
  {
    assert Reaches(c, START, [], START);
    var s0 := State([JOB_A], {0}, {}, map[], []);
    CleanStep(c, START, Seed("s", "a"), s0);
    NewKey(c, [], "a");
    assert Keys(c, []) == {} && [] + ["a"] == ["a"];
    CleanStep(c, s0, Dispatch(0), RunningA(c));
  }

  lemma ReachAfterA(c: Config)
    requires Example(c)
    ensures Clean(c, AfterA(c))
  {
    ReachRunningA(c);
    var s2 := State([JOB_A, JOB_B], {1}, Keys(c, ["a"]), map[0 := 1], [0]);
    CleanStep(c, RunningA(c), Publish(0), s2);
    var s3 := State([JOB_A, JOB_B, EARLY_C], {1, 2}, Keys(c, ["a"]), map[0 := 2], [0]);
    CleanStep(c, s2, Publish(0), s3);
    CleanStep(c, s3, Finish(0), AfterA(c));
  }

  function RunningB(c: Config): State {
    State([JOB_A, JOB_B, EARLY_C], {2}, Keys(c, ["a", "b"]), map[1 := 0], [0, 1])
  }

  lemma ReachRunningB(c: Config)
    requires Example(c)
    ensures Clean(c, RunningB(c))
  {
    ReachAfterA(c);
    NewKey(c, ["a"], "b");
    assert ["a"] + ["b"] == ["a", "b"];
    CleanStep(c, AfterA(c), Dispatch(1), RunningB(c));
  }

  lemma ReachAfterB(c: Config)
    requires Example(c)
    ensures Clean(c, AfterB(c))
  {
    ReachRunningB(c);
    var s2 := State([JOB_A, JOB_B, EARLY_C, LATE_C], {2, 3}, Keys(c, ["a", "b"]), map[1 := 1], [0, 1]);
    CleanStep(c, RunningB(c), Publish(1), s2);
    CleanStep(c, s2, Finish(1), AfterB(c));
  }

  /** c is claimed at depth 2, through b, before its depth-1 message is dispatched. */
  lemma ReachRunningC(c: Config)
    requires Example(c)
    ensures Clean(c, AtRest(c).(ready := {2}, running := map[3 := 0]))
  {
    ReachAfterB(c);
    NewKey(c, ["a", "b"], "c");
    assert ["a", "b"] + ["c"] == ["a", "b", "c"];
    CleanStep(c, AfterB(c), Dispatch(3), AtRest(c).(ready := {2}, running := map[3 := 0]));
  }

  lemma ReachAfterC(c: Config)
    requires Example(c)
    ensures Clean(c, AtRest(c).(ready := {2}))
  {
    ReachRunningC(c);
    var s1 := AtRest(c).(ready := {2}, running := map[3 := 0]);
    var s2 := s1.(running := map[3 := 1]);
    CleanStep(c, s1, Publish(3), s2);
    CleanStep(c, s2, Finish(3), AtRest(c).(ready := {2}));
  }

  lemma ReachAtRest(c: Config)
    requires Example(c)
    ensures Clean(c, AtRest(c))
  {
    ReachAfterC(c);
    NewKey(c, ["a", "b", "c"], "c");
    CleanStep(c, AtRest(c).(ready := {2}), Dispatch(2), AtRest(c));
  }

  /** Without FIFO order a failure-free crawl can miss a URL well within the limit: d is
      two links from the seed and is never claimed. */
  lemma OutOfOrderMisses(c: Config)
    requires KeysInjective(c) && c == Config(Diamond, 2, c.key)
    ensures exists t :: Clean(c, t) && Quiet(t) && Within(c, t, "d") && !Visited(c, t, "d")
  {
    ReachAtRest(c);
    NewKey(c, ["a", "b", "c"], "d");
    assert Within(c, AtRest(c), "d") by {
      assert SeedJob("s", "a") in AtRest(c).log;
      assert Path(c, "a", "a", 0) && "c" in c.links("a") && "d" in c.links("c");
      assert Path(c, "a", "c", 1);
      assert Path(c, "a", "d", 2);
    }
  }

  // ------------------------------------------------------- and exactly how

  /** v was claimed at the depth limit although it lies fewer links from a seed. */
  ghost predicate LateClaim(c: Config, t: State, v: string) {
    && (exists i: nat :: ClaimedAt(t, v, i) && t.log[i].depth >= c.maxDepth)
    && (exists a, n: nat :: n < c.maxDepth && Seeded(t, a) && Path(c, a, v, n))
  }

  /** No link is lost behind a URL that was claimed too late to be expanded. */
  ghost predicate NothingLost(c: Config, t: State) {
    forall v, x :: LateClaim(c, t, v) && x in c.links(v) ==> Visited(c, t, x)
  }

  lemma LoggedIsVisited(c: Config, t: State, j: Job)
    requires Complete(c, t) && Quiet(t) && j in t.log
    ensures Visited(c, t, j.url)
  {
    var p :| 0 <= p < |t.log| && t.log[p] == j;
    assert p !in t.ready;
  }

  lemma {:induction false} VisitedWithin(c: Config, t: State, a: string, u: string, n: nat)
    requires KeysInjective(c) && Complete(c, t) && Quiet(t) && c.maxDepth > 0 && NothingLost(c, t)
    requires Seeded(t, a) && Path(c, a, u, n) && n <= c.maxDepth
    ensures Visited(c, t, u)
    decreases n
  {
    if n == 0 {
      var session :| SeedJob(session, a) in t.log;
      LoggedIsVisited(c, t, SeedJob(session, a));
    } else {
      var m :| Path(c, a, m, n - 1) && u in c.links(m);
      VisitedWithin(c, t, a, m, n - 1);
      VisitedMeans(c, t, m);
      var k :| 0 <= k < |t.spawned| && t.log[t.spawned[k]].url == m;
      var i := t.spawned[k];
      assert ClaimedAt(t, m, i);
      if t.log[i].depth < c.maxDepth {
        var l :| 0 <= l < |c.links(m)| && c.links(m)[l] == u;
        LoggedIsVisited(c, t, Child(t.log[i], u));
      } else {
        assert LateClaim(c, t, m);
      }
    }
  }

  lemma VisitedIsWithin(c: Config, t: State, u: string)
    requires KeysInjective(c) && Sound(c, t) && c.maxDepth > 0 && Visited(c, t, u)
    ensures Within(c, t, u)
  {
    VisitedMeans(c, t, u);
    var k :| 0 <= k < |t.spawned| && t.log[t.spawned[k]].url == u;
    ClaimIsWithin(c, t, u, t.spawned[k]);
  }

  lemma LostLinkIsWithin(c: Config, t: State, v: string, x: string)
    requires LateClaim(c, t, v) && x in c.links(v)
    ensures Within(c, t, x)
  {
    var a, n: nat :| n < c.maxDepth && Seeded(t, a) && Path(c, a, v, n);
    assert Path(c, a, x, n + 1);
  }

  /** Under any schedule, a failure-free crawl at rest has visited exactly the URLs within
      the limit if and only if every link of a URL claimed late was visited some other way. */
  lemma ExactUnlessLinksLost(c: Config, t: State)
    requires KeysInjective(c) && Clean(c, t) && Quiet(t) && c.maxDepth > 0
    ensures (forall u :: Visited(c, t, u) <==> Within(c, t, u)) <==> NothingLost(c, t)
  {
    var es: seq<Event> :| Reaches(c, START, es, t) && forall k :: 0 <= k < |es| ==> !Failure(es[k]);
    CompleteReaches(c, START, es, t);
    CrawlIsSound(c, START, es, t);
    forall u | Visited(c, t, u) ensures Within(c, t, u) { VisitedIsWithin(c, t, u); }
    if NothingLost(c, t) {
      forall u | Within(c, t, u) ensures Visited(c, t, u) {
        var a, n: nat :| n <= c.maxDepth && Seeded(t, a) && Path(c, a, u, n);
        VisitedWithin(c, t, a, u, n);
      }
    }
    if forall u :: Visited(c, t, u) <==> Within(c, t, u) {
      forall v, x | LateClaim(c, t, v) && x in c.links(v) ensures Visited(c, t, x) {
        LostLinkIsWithin(c, t, v, x);
      }
    }
  }
}
