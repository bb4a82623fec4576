/** The crawl as a whole: every worker, the frontier topic and the shared visited set.
    Messages are dispatched in any order, jobs interleave, fail or are delivered again. */
module Frontier {
  datatype Job = Job(session: string, seedUrl: string, url: string, depth: int)

  /** `links(u)` are the URLs that a completed fetch of u leads to, in publishing order;
      `key(u)` is the key under which u is claimed in the dedupe store. */
  datatype Config = Config(links: string -> seq<string>, maxDepth: int, key: string -> string)

  ghost predicate KeysInjective(c: Config) { forall a, b :: c.key(a) == c.key(b) ==> a == b }

  datatype State = State(
    log: seq<Job>,           // the frontier topic, in append order
    ready: set<nat>,         // positions still to be dispatched
    visited: set<string>,    // keys claimed in the dedupe store
    running: map<nat, nat>,  // claimed position -> links published so far
    spawned: seq<nat>)       // every position whose claim was won

  datatype Event =
    | Seed(session: string, url: string)  // the API accepts a crawl
    | Dispatch(i: nat)                    // dedupe answered: claimed or skipped
    | DispatchFails(i: nat)               // dedupe store error: the job is dropped
    | Publish(i: nat)                     // one link of job i handled
    | Finish(i: nat)
    | Abort(i: nat)                       // fetch, publish or shutdown ended job i early
    | Redeliver(i: nat)                   // the broker hands position i out again

  function SeedJob(session: string, url: string): Job { Job(session, url, url, 0) }

  function Child(j: Job, url: string): Job { Job(j.session, j.seedUrl, url, j.depth + 1) }

  /** The depth test in front of every frontier write. */
  predicate MayExpand(c: Config, j: Job) { !(c.maxDepth > 0 && j.depth >= c.maxDepth) }

  predicate Visited(c: Config, s: State, url: string) { c.key(url) in s.visited }

  predicate Enabled(c: Config, s: State, e: Event) {
    match e
    case Seed(_, _) => true
    case Dispatch(i) => i in s.ready && i < |s.log|
    case DispatchFails(i) => i in s.ready
    case Publish(i) => i in s.running && i < |s.log| && s.running[i] < |c.links(s.log[i].url)|
    case Finish(i) => i in s.running && i < |s.log| && s.running[i] == |c.links(s.log[i].url)|
    case Abort(i) => i in s.running
    case Redeliver(i) => i < |s.log|
  }

  function Append(s: State, j: Job): State {
    s.(log := s.log + [j], ready := s.ready + {|s.log|})
  }

  function Apply(c: Config, s: State, e: Event): State
    requires Enabled(c, s, e)
  {
    match e
    case Seed(session, url) => Append(s, SeedJob(session, url))
    case Dispatch(i) =>
      var t := s.(ready := s.ready - {i});
      if Visited(c, s, s.log[i].url) then t
      else t.(visited := s.visited + {c.key(s.log[i].url)}, running := s.running[i := 0], spawned := s.spawned + [i])
    case DispatchFails(i) => s.(ready := s.ready - {i})
    case Publish(i) =>
      var t := s.(running := s.running[i := s.running[i] + 1]);
      if MayExpand(c, s.log[i]) then Append(t, Child(s.log[i], c.links(s.log[i].url)[s.running[i]])) else t
    case Finish(i) => s.(running := s.running - {i})
    case Abort(i) => s.(running := s.running - {i})
    case Redeliver(i) => s.(ready := s.ready + {i})
  }

  const START := State([], {}, {}, map[], [])

  predicate Reaches(c: Config, s: State, es: seq<Event>, t: State)
    decreases |es|
  {
    if es == [] then s == t
    else Enabled(c, s, es[0]) && Reaches(c, Apply(c, s, es[0]), es[1..], t)
  }

  lemma {:induction false} ReachesSnoc(c: Config, s: State, es: seq<Event>, t: State, e: Event)
    requires Reaches(c, s, es, t) && Enabled(c, t, e)
    ensures Reaches(c, s, es + [e], Apply(c, t, e))
    decreases |es|
  {
    if es != [] {
      ReachesSnoc(c, Apply(c, s, es[0]), es[1..], t, e);
      assert (es + [e])[1..] == es[1..] + [e];
    }
  }

  // ----------------------------------------------------------------- link distance

  /** b is reached from a over exactly n links. */
  ghost predicate Path(c: Config, a: string, b: string, n: nat)
    decreases n
  {
    if n == 0 then a == b else exists m :: Path(c, a, m, n - 1) && b in c.links(m)
  }

  /** `url` was posted to the API. */
  ghost predicate Seeded(s: State, url: string) {
    exists session :: SeedJob(session, url) in s.log
  }

  ghost predicate Quiet(s: State) { s.ready == {} && s.running == map[] }

  // --------------------------------------------------------------------- soundness

  /** A job descends from a posted seed: same session and seed URL, reached from that
      URL over exactly `depth` links, within the depth limit. */
  ghost predicate Descends(c: Config, s: State, j: Job) {
    && 0 <= j.depth
    && (c.maxDepth > 0 ==> j.depth <= c.maxDepth)
    && SeedJob(j.session, j.seedUrl) in s.log
    && Path(c, j.seedUrl, j.url, j.depth)
  }

  /** One claim per key, ever, and the visited keys are those of the claims. */
  ghost predicate Claims(c: Config, log: seq<Job>, spawned: seq<nat>, visited: set<string>) {
    && (forall k :: 0 <= k < |spawned| ==> spawned[k] < |log|)
    && (forall k :: 0 <= k < |spawned| ==> c.key(log[spawned[k]].url) in visited)
    && (forall k, l :: 0 <= k < l < |spawned| ==> c.key(log[spawned[k]].url) != c.key(log[spawned[l]].url))
    && (forall x :: x in visited ==> exists k :: 0 <= k < |spawned| && c.key(log[spawned[k]].url) == x)
  }

  ghost predicate RunningClaimed(c: Config, s: State) {
    forall i :: i in s.running ==> i in s.spawned && i < |s.log| && s.running[i] <= |c.links(s.log[i].url)|
  }

  /** Claims, running jobs and visited keys agree. */
  ghost predicate Claimed(c: Config, s: State) {
    Claims(c, s.log, s.spawned, s.visited) && RunningClaimed(c, s) && forall i :: i in s.ready ==> i < |s.log|
  }

  ghost predicate Sound(c: Config, s: State) {
    && Claimed(c, s)
    && forall i :: 0 <= i < |s.log| ==> Descends(c, s, s.log[i])
  }

  /** A URL reads as visited exactly when a position with that URL was claimed. */
  lemma VisitedMeans(c: Config, s: State, u: string)
    requires Claimed(c, s) && KeysInjective(c)
    ensures Visited(c, s, u) <==> exists k :: 0 <= k < |s.spawned| && s.log[s.spawned[k]].url == u
  {
    if Visited(c, s, u) {
      var k :| 0 <= k < |s.spawned| && c.key(s.log[s.spawned[k]].url) == c.key(u);
    }
  }

  lemma VisitedAfterClaim(c: Config, log: seq<Job>, spawned: seq<nat>, i: nat, x: string)
    requires (forall k :: 0 <= k < |spawned| ==> spawned[k] < |log|) && i < |log|
    requires x == c.key(log[i].url) || exists k :: 0 <= k < |spawned| && c.key(log[spawned[k]].url) == x
    ensures
      var all := spawned + [i];
      exists k :: 0 <= k < |all| && all[k] < |log| && c.key(log[all[k]].url) == x
  {
    var all := spawned + [i];
    if x == c.key(log[i].url) {
      assert all[|spawned|] == i;
    } else {
      var k :| 0 <= k < |spawned| && c.key(log[spawned[k]].url) == x;
      assert all[k] == spawned[k];
    }
  }

  lemma ClaimsWon(c: Config, log: seq<Job>, spawned: seq<nat>, visited: set<string>, i: nat)
    requires Claims(c, log, spawned, visited) && i < |log| && c.key(log[i].url) !in visited
    ensures Claims(c, log, spawned + [i], visited + {c.key(log[i].url)})
  {
    var all, keys := spawned + [i], visited + {c.key(log[i].url)};
    forall x | x in keys ensures exists k :: 0 <= k < |all| && c.key(log[all[k]].url) == x {
      VisitedAfterClaim(c, log, spawned, i, x);
    }
  }

  lemma ClaimsGrow(c: Config, log: seq<Job>, more: seq<Job>, spawned: seq<nat>, visited: set<string>)
    requires Claims(c, log, spawned, visited) && log <= more
    ensures Claims(c, more, spawned, visited)
  {
    assert forall k :: 0 <= k < |spawned| ==> more[spawned[k]] == log[spawned[k]];
    forall x | x in visited ensures exists k :: 0 <= k < |spawned| && c.key(more[spawned[k]].url) == x {
      var k :| 0 <= k < |spawned| && c.key(log[spawned[k]].url) == x;
      assert c.key(more[spawned[k]].url) == x;
    }
  }

  lemma RunningStep(c: Config, s: State, e: Event)
    requires RunningClaimed(c, s) && Enabled(c, s, e)
    ensures RunningClaimed(c, Apply(c, s, e))
  {
  }

  /** What a step does to the claims. */
  lemma StepClaims(c: Config, s: State, e: Event)
    requires Enabled(c, s, e)
    ensures
      var t := Apply(c, s, e);
      if e.Dispatch? && !Visited(c, s, s.log[e.i].url)
      then t.log == s.log && t.spawned == s.spawned + [e.i] && t.visited == s.visited + {c.key(s.log[e.i].url)}
      else s.log <= t.log && t.spawned == s.spawned && t.visited == s.visited
  {
  }

  lemma ReadyStep(c: Config, s: State, e: Event)
    requires Enabled(c, s, e) && forall i :: i in s.ready ==> i < |s.log|
    ensures forall i :: i in Apply(c, s, e).ready ==> i < |Apply(c, s, e).log|
  {
  }

  lemma ClaimedStep(c: Config, s: State, e: Event)
    requires Claimed(c, s) && Enabled(c, s, e)
    ensures Claimed(c, Apply(c, s, e))
  {
    var t := Apply(c, s, e);
    assert Claims(c, t.log, t.spawned, t.visited) by {
      StepClaims(c, s, e);
      if e.Dispatch? && !Visited(c, s, s.log[e.i].url) {
        ClaimsWon(c, s.log, s.spawned, s.visited, e.i);
      } else {
        ClaimsGrow(c, s.log, t.log, s.spawned, s.visited);
      }
    }
    RunningStep(c, s, e);
    ReadyStep(c, s, e);
  }

  lemma DescendsKept(c: Config, s: State, t: State, j: Job)
    requires Descends(c, s, j) && s.log <= t.log
    ensures Descends(c, t, j)
  {
  }

  lemma ChildDescends(c: Config, s: State, j: Job, k: nat)
    requires Descends(c, s, j) && MayExpand(c, j) && k < |c.links(j.url)|
    ensures Descends(c, s, Child(j, c.links(j.url)[k]))
  {
    assert Path(c, j.seedUrl, j.url, j.depth) && c.links(j.url)[k] in c.links(j.url);
  }

  /** What a step appends, if anything, descends as well. */
  lemma NewestDescends(c: Config, s: State, e: Event)
    requires Sound(c, s) && Enabled(c, s, e)
    ensures
      var t := Apply(c, s, e);
      t.log == s.log || (|t.log| == |s.log| + 1 && s.log <= t.log && Descends(c, t, t.log[|s.log|]))
  {
    var t := Apply(c, s, e);
    if e.Publish? && MayExpand(c, s.log[e.i]) {
      ChildDescends(c, s, s.log[e.i], s.running[e.i]);
      DescendsKept(c, s, t, t.log[|s.log|]);
    } else if e.Seed? {
      assert t.log[|s.log|] == SeedJob(e.session, e.url);
    }
  }

  lemma SoundStep(c: Config, s: State, e: Event)
    requires Sound(c, s) && Enabled(c, s, e)
    ensures Sound(c, Apply(c, s, e))
  {
    var t := Apply(c, s, e);
    ClaimedStep(c, s, e);
    NewestDescends(c, s, e);
    forall i | 0 <= i < |t.log| ensures Descends(c, t, t.log[i]) {
      if i < |s.log| { DescendsKept(c, s, t, s.log[i]); }
    }
  }

  /** Soundness of every crawl: whatever the number of workers, order, failures and
      redeliveries, every frontier job descends from a posted seed within the depth limit
      and no key, hence no URL, is claimed twice. */
  lemma {:induction false} CrawlIsSound(c: Config, s: State, es: seq<Event>, t: State)
    requires Sound(c, s) && Reaches(c, s, es, t)
    ensures Sound(c, t)
    decreases |es|
  {
    if es != [] {
      SoundStep(c, s, es[0]);
      CrawlIsSound(c, Apply(c, s, es[0]), es[1..], t);
    }
  }
}
