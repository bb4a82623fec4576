/** Termination under a depth limit, and full closure without one. */
module FrontierBounds {
  import opened Frontier

  /** Every frontier job of every crawl, under any schedule and any failures. */
  lemma SoundCrawl(c: Config, es: seq<Event>, t: State)
    requires Reaches(c, START, es, t)
    ensures forall i :: 0 <= i < |t.log| ==> Descends(c, t, t.log[i])
    ensures forall k :: 0 <= k < |t.spawned| ==> t.spawned[k] < |t.log|
    ensures forall k, l :: 0 <= k < l < |t.spawned| ==>
              c.key(t.log[t.spawned[k]].url) != c.key(t.log[t.spawned[l]].url)
  {
    CrawlIsSound(c, START, es, t);
  }

  // ------------------------------------------------------------------- termination

  /** An upper bound on the steps one link, or one job, can still cause. */
  ghost function JobWork(c: Config, url: string, depth: int): nat
    decreases c.maxDepth - depth, 1, 0
  {
    2 + LinksWork(c, c.links(url), depth)
  }

  ghost function LinksWork(c: Config, urls: seq<string>, depth: int): nat
    decreases c.maxDepth - depth, 0, |urls|
  {
    if urls == [] then 0
    else 1 + (if depth < c.maxDepth then JobWork(c, urls[0], depth + 1) else 0) + LinksWork(c, urls[1..], depth)
  }

  /** The steps position i still accounts for. */
  ghost function Due(c: Config, s: State, i: nat): nat
    requires i < |s.log|
  {
    var j := s.log[i];
    (if i in s.ready then JobWork(c, j.url, j.depth) else 0)
    + (if i in s.running && s.running[i] <= |c.links(j.url)|
       then 1 + LinksWork(c, c.links(j.url)[s.running[i]..], j.depth) else 0)
  }

  ghost function TotalDue(c: Config, s: State, n: nat): nat
    requires n <= |s.log|
  {
    if n == 0 then 0 else TotalDue(c, s, n - 1) + Due(c, s, n - 1)
  }

  /** Steps of which each message is dispatched at most once and no seed is added. */
  predicate Progress(e: Event) { !e.Seed? && !e.Redeliver? }

  lemma {:induction false} TotalChange(c: Config, s: State, t: State, n: nat, i: nat, less: int)
    requires n <= |s.log| && n <= |t.log| && i < |s.log| && i < |t.log|
    requires forall k :: 0 <= k < n && k != i ==> Due(c, t, k) == Due(c, s, k)
    requires Due(c, t, i) == Due(c, s, i) - less
    ensures TotalDue(c, t, n) == TotalDue(c, s, n) - if i < n then less else 0
  {
    if n > 0 {
      TotalChange(c, s, t, n - 1, i, less);
    }
  }

  lemma LinksWorkStep(c: Config, urls: seq<string>, k: nat, depth: int)
    requires k < |urls|
    ensures LinksWork(c, urls[k..], depth) ==
            1 + (if depth < c.maxDepth then JobWork(c, urls[k], depth + 1) else 0) + LinksWork(c, urls[k + 1..], depth)
  {
    assert urls[k..][0] == urls[k] && urls[k..][1..] == urls[k + 1..];
  }

  lemma DuePublish(c: Config, s: State, i: nat)
    requires Sound(c, s) && c.maxDepth > 0 && Enabled(c, s, Publish(i))
    ensures
      var j, k := s.log[i], s.running[i];
      Due(c, Apply(c, s, Publish(i)), i) ==
      Due(c, s, i) - 1 - (if MayExpand(c, j) then JobWork(c, c.links(j.url)[k], j.depth + 1) else 0)
  {
    LinksWorkStep(c, c.links(s.log[i].url), s.running[i], s.log[i].depth);
    assert Apply(c, s, Publish(i)).log[i] == s.log[i];
  }

  lemma DueChild(c: Config, s: State, i: nat)
    requires Claimed(c, s) && Enabled(c, s, Publish(i))
    ensures
      var t, j, k := Apply(c, s, Publish(i)), s.log[i], s.running[i];
      && (MayExpand(c, j) ==> && |t.log| == |s.log| + 1
                              && Due(c, t, |s.log|) == JobWork(c, c.links(j.url)[k], j.depth + 1))
      && (!MayExpand(c, j) ==> t.log == s.log)
  {
    assert |s.log| !in s.running;
  }

  lemma DueOther(c: Config, s: State, i: nat, e: Event)
    requires Sound(c, s) && Enabled(c, s, e) && i < |s.log|
    requires e == Dispatch(i) || e == DispatchFails(i) || e == Finish(i) || e == Abort(i)
    ensures Apply(c, s, e).log == s.log && Due(c, Apply(c, s, e), i) < Due(c, s, i)
  {
    assert c.links(s.log[i].url)[0..] == c.links(s.log[i].url);
    if e.Dispatch? && i in s.running {
      var k :| 0 <= k < |s.spawned| && s.spawned[k] == i;
      assert Visited(c, s, s.log[i].url);
    }
  }

  lemma DueUntouched(c: Config, s: State, e: Event, k: nat)
    requires Enabled(c, s, e) && Progress(e) && k < |s.log| && k != e.i
    ensures s.log <= Apply(c, s, e).log && Due(c, Apply(c, s, e), k) == Due(c, s, k)
  {
  }

  lemma DueElsewhere(c: Config, s: State, e: Event)
    requires Enabled(c, s, e) && Progress(e)
    ensures s.log <= Apply(c, s, e).log
    ensures forall k :: 0 <= k < |s.log| && k != e.i ==> Due(c, Apply(c, s, e), k) == Due(c, s, k)
  {
    forall k: nat | k < |s.log| && k != e.i ensures Due(c, Apply(c, s, e), k) == Due(c, s, k) {
      DueUntouched(c, s, e, k);
    }
  }

  lemma PublishDecreases(c: Config, s: State, i: nat)
    requires Sound(c, s) && c.maxDepth > 0 && Enabled(c, s, Publish(i))
    ensures TotalDue(c, Apply(c, s, Publish(i)), |Apply(c, s, Publish(i)).log|) < TotalDue(c, s, |s.log|)
  {
    var t := Apply(c, s, Publish(i));
    DueElsewhere(c, s, Publish(i));
    DuePublish(c, s, i);
    DueChild(c, s, i);
    TotalChange(c, s, t, |s.log|, i, Due(c, s, i) - Due(c, t, i));
  }

  lemma StepDecreases(c: Config, s: State, e: Event)
    requires Sound(c, s) && c.maxDepth > 0 && Enabled(c, s, e) && Progress(e)
    ensures TotalDue(c, Apply(c, s, e), |Apply(c, s, e).log|) < TotalDue(c, s, |s.log|)
  {
    var i := e.i;
    if e.Publish? {
      PublishDecreases(c, s, i);
    } else {
      DueElsewhere(c, s, e);
      DueOther(c, s, i, e);
      TotalChange(c, s, Apply(c, s, e), |s.log|, i, Due(c, s, i) - Due(c, Apply(c, s, e), i));
    }
  }

  /** Termination: with a depth limit, and with each message dispatched once, no schedule
      takes more steps than the seeds allow. */
  lemma {:induction false} CrawlTerminates(c: Config, s: State, es: seq<Event>, t: State)
    requires Sound(c, s) && c.maxDepth > 0 && Reaches(c, s, es, t)
    requires forall k :: 0 <= k < |es| ==> Progress(es[k])
    ensures |es| + TotalDue(c, t, |t.log|) <= TotalDue(c, s, |s.log|)
    decreases |es|
  {
    if es != [] {
      var u := Apply(c, s, es[0]);
      StepDecreases(c, s, es[0]);
      SoundStep(c, s, es[0]);
      CrawlTerminates(c, u, es[1..], t);
    }
  }

  // ------------------------------------------------------------------- coming to rest

  predicate Failure(e: Event) { e.DispatchFails? || e.Abort? }

  /** A step of a crawl in which nothing fails, is redelivered or is newly posted. */
  predicate Forward(e: Event) { Progress(e) && !Failure(e) }

  lemma SomeReady(s: State) returns (i: nat)
    requires s.ready != {}
    ensures i in s.ready
  {
    i :| i in s.ready;
  }

  lemma SomeRunning(s: State) returns (i: nat)
    requires s.running != map[]
    ensures i in s.running
  {
    assert s.running.Keys != {};
    i :| i in s.running.Keys;
  }

  ghost function RunningStepOf(c: Config, s: State, i: nat): Event
    requires Claimed(c, s) && i in s.running
  {
    if s.running[i] < |c.links(s.log[i].url)| then Publish(i) else Finish(i)
  }

  /** A crawl that is not at rest can go on. */
  lemma CanGoOn(c: Config, s: State) returns (e: Event)
    requires Claimed(c, s) && !Quiet(s)
    ensures Forward(e) && Enabled(c, s, e)
  {
    if s.ready != {} {
      var i := SomeReady(s);
      e := Dispatch(i);
    } else {
      var i := SomeRunning(s);
      e := RunningStepOf(c, s, i);
    }
  }

  ghost predicate AllForward(es: seq<Event>) { forall k :: 0 <= k < |es| ==> Forward(es[k]) }

  /** Under a depth limit every way of going on ends at rest: no run of forward steps is
      longer than the frontier allows, and one that cannot be continued is at rest. */
  lemma MaximalRunRests(c: Config, s: State, es: seq<Event>, t: State)
    requires Sound(c, s) && c.maxDepth > 0 && Reaches(c, s, es, t) && AllForward(es)
    ensures |es| <= TotalDue(c, s, |s.log|)
    ensures Quiet(t) <==> forall e :: Forward(e) ==> !Enabled(c, t, e)
  {
    CrawlTerminates(c, s, es, t);
    CrawlIsSound(c, s, es, t);
    if !Quiet(t) { var e := CanGoOn(c, t); }
  }

  lemma ForwardCons(c: Config, s: State, e: Event, es: seq<Event>, t: State)
    requires Forward(e) && Enabled(c, s, e) && Reaches(c, Apply(c, s, e), es, t) && AllForward(es)
    ensures Reaches(c, s, [e] + es, t) && AllForward([e] + es)
  {
    assert ([e] + es)[1..] == es;
    forall k | 0 <= k < |[e] + es| ensures Forward(([e] + es)[k]) {
      assert k > 0 ==> ([e] + es)[k] == es[k - 1];
    }
  }

  /** So every crawl can be brought to rest without a failure. */
  lemma {:induction false} ComesToRest(c: Config, s: State) returns (es: seq<Event>, t: State)
    requires Sound(c, s) && c.maxDepth > 0
    ensures Reaches(c, s, es, t) && AllForward(es) && Quiet(t)
    decreases TotalDue(c, s, |s.log|)
  {
    if Quiet(s) {
      return [], s;
    }
    var e := CanGoOn(c, s);
    StepDecreases(c, s, e);
    SoundStep(c, s, e);
    var rest;
    rest, t := ComesToRest(c, Apply(c, s, e));
    ForwardCons(c, s, e, rest, t);
    es := [e] + rest;
  }

  // ------------------------------------------------------------------------ closure

  /** How many links of a claimed position have been handled. */
  function Handled(c: Config, s: State, i: nat): nat
    requires i < |s.log|
  {
    if i in s.running then s.running[i] else |c.links(s.log[i].url)|
  }

  /** Nothing that was discovered is forgotten: a position is dispatched or its URL
      visited, and every handled link of a job that may expand is on the frontier. */
  ghost predicate Complete(c: Config, s: State) {
    && Claimed(c, s)
    && (forall i :: 0 <= i < |s.log| ==> i in s.ready || Visited(c, s, s.log[i].url))
    && (forall i, k :: i in s.spawned && i < |s.log| && MayExpand(c, s.log[i])
                       && 0 <= k < Handled(c, s, i) && k < |c.links(s.log[i].url)| ==>
          Child(s.log[i], c.links(s.log[i].url)[k]) in s.log)
  }

  lemma LinkKept(c: Config, s: State, e: Event, i: nat, k: nat)
    requires Complete(c, s) && Enabled(c, s, e) && !Failure(e)
    requires
      var t := Apply(c, s, e);
      i in t.spawned && i < |t.log| && MayExpand(c, t.log[i]) && k < Handled(c, t, i) && k < |c.links(t.log[i].url)|
    ensures Child(Apply(c, s, e).log[i], c.links(Apply(c, s, e).log[i].url)[k]) in Apply(c, s, e).log
  {
    var t := Apply(c, s, e);
    assert s.log <= t.log;
    if e == Publish(i) && k == s.running[i] {
      assert t.log[|s.log|] == Child(t.log[i], c.links(t.log[i].url)[k]);
    } else {
      assert i in s.spawned && i < |s.log|;
      assert k < Handled(c, s, i);
      assert Child(s.log[i], c.links(s.log[i].url)[k]) in s.log;
    }
  }

  lemma DispatchedVisited(c: Config, s: State, e: Event, i: nat)
    requires Complete(c, s) && Enabled(c, s, e) && !Failure(e) && i < |Apply(c, s, e).log|
    ensures i in Apply(c, s, e).ready || Visited(c, Apply(c, s, e), Apply(c, s, e).log[i].url)
  {
    assert s.log <= Apply(c, s, e).log;
  }

  lemma CompleteStep(c: Config, s: State, e: Event)
    requires Complete(c, s) && Enabled(c, s, e) && !Failure(e)
    ensures Complete(c, Apply(c, s, e))
  {
    var t := Apply(c, s, e);
    ClaimedStep(c, s, e);
    forall i | 0 <= i < |t.log| ensures i in t.ready || Visited(c, t, t.log[i].url) {
      DispatchedVisited(c, s, e, i);
    }
    forall i, k | i in t.spawned && i < |t.log| && MayExpand(c, t.log[i])
                  && 0 <= k < Handled(c, t, i) && k < |c.links(t.log[i].url)|
      ensures Child(t.log[i], c.links(t.log[i].url)[k]) in t.log
    {
      LinkKept(c, s, e, i, k);
    }
  }

  lemma {:induction false} CompleteReaches(c: Config, s: State, es: seq<Event>, t: State)
    requires Complete(c, s) && Reaches(c, s, es, t)
    requires forall k :: 0 <= k < |es| ==> !Failure(es[k])
    ensures Complete(c, t)
    decreases |es|
  {
    if es != [] {
      CompleteStep(c, s, es[0]);
      CompleteReaches(c, Apply(c, s, es[0]), es[1..], t);
    }
  }

  lemma {:induction false} QuietIsClosed(c: Config, t: State, a: string, b: string, n: nat)
    requires Complete(c, t) && KeysInjective(c) && Quiet(t) && c.maxDepth <= 0 && Seeded(t, a) && Path(c, a, b, n)
    ensures Visited(c, t, b)
    decreases n
  {
    if n == 0 {
      var session :| SeedJob(session, a) in t.log;
      var i :| 0 <= i < |t.log| && t.log[i] == SeedJob(session, a);
    } else {
      var m :| Path(c, a, m, n - 1) && b in c.links(m);
      QuietIsClosed(c, t, a, m, n - 1);
      VisitedMeans(c, t, m);
      var k :| 0 <= k < |t.spawned| && t.log[t.spawned[k]].url == m;
      var l :| 0 <= l < |c.links(m)| && c.links(m)[l] == b;
      assert t.spawned[k] in t.spawned;
      assert Child(t.log[t.spawned[k]], b) in t.log;
    }
  }

  ghost predicate Reachable(c: Config, t: State, u: string) {
    exists a, n: nat :: Seeded(t, a) && Path(c, a, u, n)
  }

  lemma VisitedReachable(c: Config, t: State, u: string)
    requires Sound(c, t) && KeysInjective(c) && Visited(c, t, u)
    ensures Reachable(c, t, u)
  {
    VisitedMeans(c, t, u);
    var k :| 0 <= k < |t.spawned| && t.log[t.spawned[k]].url == u;
    var j := t.log[t.spawned[k]];
    assert Descends(c, t, j);
    assert Seeded(t, j.seedUrl) && Path(c, j.seedUrl, u, j.depth);
  }

  /** Closure: without a depth limit and without failures, a crawl that has come to rest
      has visited exactly the URLs reachable from its seeds, whatever the schedule. */
  lemma CrawlIsClosed(c: Config, es: seq<Event>, t: State, u: string)
    requires KeysInjective(c) && Reaches(c, START, es, t) && Quiet(t) && c.maxDepth <= 0
    requires forall k :: 0 <= k < |es| ==> !Failure(es[k])
    ensures Visited(c, t, u) <==> Reachable(c, t, u)
  {
    CompleteReaches(c, START, es, t);
    CrawlIsSound(c, START, es, t);
    if Visited(c, t, u) {
      VisitedReachable(c, t, u);
    }
    if Reachable(c, t, u) {
      var a, n: nat :| Seeded(t, a) && Path(c, a, u, n);
      QuietIsClosed(c, t, a, u, n);
    }
  }
}
