/** The worker process never gets stuck: with the bounded channel and the semaphore, every
    message that was fetched reaches the coordinator or is dropped. */
module PipelineProgress {
  import opened Common
  import opened Pipeline
  import opened PipelineInvariants
  import opened PipelineTheorems
  import Spec = PartitionCommits

  /** The coordinator is in its receive loop, not in the final flush. */
  predicate Serving(s: State) {
    s.mode.Receiving? || ((s.mode.Draining? || s.mode.Committing?) && s.mode.rest.None?)
  }

  /** Nothing is under way. */
  predicate Idle(s: State) {
    s.dispatcher.Fetching? && s.jobs == map[] && s.channel == [] && s.mode.Receiving?
  }

  /** Steps of the messages already fetched, failures included. Not among them: a new fetch,
      another worker's claim and the shutdown. */
  predicate Steady(e: Event) {
    !e.Fetch? && !e.OtherWorkerClaims? && !e.BeginFlush? && !e.FlushPartition? && !e.EndFlush?
  }

  /** Those of them that need nothing to go wrong. */
  predicate Onward(e: Event) {
    Steady(e) && !e.ClaimFails? && !e.CancelWait? && !e.JobFails? && !e.CommitRefused?
  }

  // ------------------------------------------------------------------- no deadlock

  ghost function JobStep(s: State, m: Message): Event
    requires m in s.jobs
  {
    match s.jobs[m]
    case Handling => JobSucceeds(m)
    case Publishing => LowerGauge(m)
    case Ungauged => ReleaseSlot(m)
    case Released => LeaveGroup(m)
    case Done => JobSends(m)
  }

  ghost function DispatcherStep(c: Config, s: State): Event
    requires !s.dispatcher.Fetching?
  {
    match s.dispatcher
    case Decoding(m) => if c.decodes(m) then Decode else DecodeFails
    case Claiming(m) => if c.key(m) in s.claimed then ClaimTaken else ClaimWon
    case Sending(_) => DispatcherSends
    case Waiting(_) => AcquireSlot
    case Acquired(_) => Spawn
  }

  ghost function CoordinatorStep(s: State): Event
    requires Serving(s) && (!s.mode.Receiving? || s.channel != [])
  {
    if s.mode.Receiving? then Receive
    else if s.mode.Committing? then CommitAccepted
    else if Spec.Expected(PartOf(s, s.mode.p)) in PartOf(s, s.mode.p).pending then TakeNext
    else NothingNext
  }

  lemma NoJobsNoSlots(jobs: map<Message, Phase>)
    requires jobs == map[]
    ensures |Holding(jobs, HasSlot)| == 0
  {
    assert Holding(jobs, HasSlot) == {};
  }

  lemma CoordinatorCan(c: Config, s: State)
    requires Serving(s) && (!s.mode.Receiving? || s.channel != [])
    ensures Onward(CoordinatorStep(s)) && Enabled(c, s, CoordinatorStep(s))
  {
  }

  lemma JobCan(c: Config, s: State, m: Message)
    requires c.concurrentJobs > 0 && s.channel == [] && m in s.jobs
    ensures Onward(JobStep(s, m)) && Enabled(c, s, JobStep(s, m))
  {
  }

  lemma DispatcherCan(c: Config, s: State)
    requires Accounted(c, s) && c.concurrentJobs > 0 && s.channel == [] && s.jobs == map[]
    requires !s.dispatcher.Fetching?
    ensures Onward(DispatcherStep(c, s)) && Enabled(c, s, DispatcherStep(c, s))
  {
    NoJobsNoSlots(s.jobs);
  }

  lemma SomeJob(jobs: map<Message, Phase>) returns (m: Message)
    requires jobs != map[]
    ensures m in jobs
  {
    assert jobs.Keys != {};
    m :| m in jobs.Keys;
  }

  /** No deadlock: while anything is under way some step is enabled that is neither a fetch
      nor a failure nor the shutdown, however full channel and semaphore are. */
  lemma NoDeadlock(c: Config, s: State) returns (e: Event)
    requires Accounted(c, s) && c.concurrentJobs > 0 && Serving(s) && !Idle(s)
    ensures Onward(e) && Enabled(c, s, e)
  {
    if !s.mode.Receiving? || s.channel != [] {
      CoordinatorCan(c, s);
      e := CoordinatorStep(s);
    } else if s.jobs != map[] {
      var m := SomeJob(s.jobs);
      JobCan(c, s, m);
      e := JobStep(s, m);
    } else {
      DispatcherCan(c, s);
      e := DispatcherStep(c, s);
    }
  }

  // ---------------------------------------------------------------- no endless run

  /** What each place of a message still has to do at most. */
  function DispatcherWork(d: Dispatcher): nat {
    match d
    case Fetching => 0
    case Decoding(_) => 14
    case Claiming(_) => 13
    case Waiting(_) => 12
    case Acquired(_) => 11
    case Sending(_) => 6
  }

  ghost function JobsWork(jobs: map<Message, Phase>): nat {
    6 * |jobs| + |Holding(jobs, InGroup)| + |Holding(jobs, HasSlot)| + |Holding(jobs, HasGauge)|
    + |Holding(jobs, IsHandling)|
  }

  ghost function BufferedSlots(parts: map<int, Spec.Partition>): set<(int, int)> {
    set p, o | p in parts && o in parts[p].pending :: (p, o)
  }

  function ModeWork(m: Mode): nat { if m.Draining? then 2 else if m.Committing? then 3 else 0 }

  ghost function Work(s: State): nat {
    DispatcherWork(s.dispatcher) + JobsWork(s.jobs) + 5 * |s.channel| + 2 * |BufferedSlots(s.parts)|
    + ModeWork(s.mode)
  }

  lemma JobMoves(jobs: map<Message, Phase>, m: Message, to: Phase)
    requires m in jobs
    requires (jobs[m], to) in {(Handling, Publishing), (Publishing, Ungauged), (Ungauged, Released), (Released, Done)}
    ensures JobsWork(jobs[m := to]) < JobsWork(jobs)
  {
    PhaseChange(jobs, m, to);
    assert jobs[m := to].Keys == jobs.Keys;
  }

  lemma JobStarts(jobs: map<Message, Phase>, m: Message)
    ensures JobsWork(jobs[m := Handling]) <= JobsWork(jobs) + 10
  {
    PhaseChange(jobs, m, Handling);
    assert jobs[m := Handling].Keys == jobs.Keys + {m};
  }

  lemma JobEnds(jobs: map<Message, Phase>, m: Message)
    requires m in jobs && jobs[m] == Done
    ensures JobsWork(jobs - {m}) == JobsWork(jobs) - 6
  {
    HoldingRemove(jobs, HasGauge, m);
    HoldingRemove(jobs, HasSlot, m);
    HoldingRemove(jobs, InGroup, m);
    HoldingRemove(jobs, IsHandling, m);
    assert (jobs - {m}).Keys == jobs.Keys - {m};
  }

  lemma SlotsAfterEnqueue(parts: map<int, Spec.Partition>, p: int, q: Spec.Partition, o: int)
    requires forall x :: x in q.pending ==> x == o || (p in parts && x in parts[p].pending)
    ensures |BufferedSlots(parts[p := q])| <= |BufferedSlots(parts)| + 1
  {
    var a, b := BufferedSlots(parts), BufferedSlots(parts[p := q]);
    assert b <= a + {(p, o)};
    SubsetSize(b, a + {(p, o)});
  }

  lemma SlotsAfterTake(parts: map<int, Spec.Partition>, p: int, q: Spec.Partition, o: int)
    requires p in parts && o in parts[p].pending && q.pending == parts[p].pending - {o}
    ensures |BufferedSlots(parts[p := q])| == |BufferedSlots(parts)| - 1
  {
    assert (p, o) in BufferedSlots(parts);
    assert BufferedSlots(parts[p := q]) == BufferedSlots(parts) - {(p, o)};
  }

  lemma SlotsUnchanged(parts: map<int, Spec.Partition>, p: int, q: Spec.Partition)
    requires q.pending == (if p in parts then parts[p].pending else map[])
    ensures BufferedSlots(parts[p := q]) == BufferedSlots(parts)
  {
  }

  lemma SubsetSize(a: set<(int, int)>, b: set<(int, int)>)
    requires a <= b
    ensures |a| <= |b|
  {
    assert b == a + (b - a);
  }

  lemma DispatcherWorks(c: Config, s: State, e: Event)
    requires Enabled(c, s, e)
    requires e in {DecodeFails, Decode, ClaimFails, ClaimTaken, ClaimWon, CancelWait, AcquireSlot, DispatcherSends}
    ensures Work(Apply(c, s, e)) < Work(s)
  {
  }

  lemma SpawnWorks(c: Config, s: State)
    requires Enabled(c, s, Spawn)
    ensures Work(Apply(c, s, Spawn)) < Work(s)
  {
    JobStarts(s.jobs, s.dispatcher.m);
  }

  lemma JobWorks(c: Config, s: State, e: Event)
    requires Enabled(c, s, e)
    requires e.JobSucceeds? || e.JobFails? || e.LowerGauge? || e.ReleaseSlot? || e.LeaveGroup? || e.JobSends?
    ensures Work(Apply(c, s, e)) < Work(s)
  {
    match e
    case JobSends(m) => JobEnds(s.jobs, m);
    case LowerGauge(m) => JobMoves(s.jobs, m, Ungauged);
    case ReleaseSlot(m) => JobMoves(s.jobs, m, Released);
    case LeaveGroup(m) => JobMoves(s.jobs, m, Done);
    case JobSucceeds(m) => JobMoves(s.jobs, m, Publishing);
    case JobFails(m) => JobMoves(s.jobs, m, Publishing);
    case _ =>
  }

  lemma CoordinatorWorks(c: Config, s: State, e: Event)
    requires Enabled(c, s, e) && Serving(s) && CoordinatorEvent(e) && Steady(e)
    ensures Work(Apply(c, s, e)) < Work(s) && Serving(Apply(c, s, e))
  {
    match e
    case Receive =>
      var m := s.channel[0];
      SlotsAfterEnqueue(s.parts, m.partition, Spec.Enqueue(PartOf(s, m.partition), m), m.offset);
    case TakeNext =>
      var p := s.mode.p;
      SlotsAfterTake(s.parts, p, Spec.Take(PartOf(s, p)), Spec.Expected(PartOf(s, p)));
    case CommitAccepted => SlotsUnchanged(s.parts, s.mode.p, Spec.Accept(PartOf(s, s.mode.p), s.mode.m));
    case CommitRefused =>
      var p := PartOf(s, s.mode.p);
      SlotsAfterEnqueue(s.parts, s.mode.p, Spec.Requeue(p, s.mode.m), Spec.Expected(p));
    case _ =>
  }

  lemma SteadyWorks(c: Config, s: State, e: Event)
    requires Enabled(c, s, e) && Serving(s) && Steady(e)
    ensures Work(Apply(c, s, e)) < Work(s) && Serving(Apply(c, s, e))
  {
    if CoordinatorEvent(e) {
      CoordinatorWorks(c, s, e);
    } else if e.Spawn? {
      SpawnWorks(c, s);
    } else if MovesJob(e) || e.JobSends? {
      JobWorks(c, s, e);
    } else {
      DispatcherWorks(c, s, e);
    }
  }

  ghost predicate AllSteady(es: seq<Event>) { forall k :: 0 <= k < |es| ==> Steady(es[k]) }

  lemma {:induction false} SteadyRunWorks(c: Config, s: State, es: seq<Event>, t: State)
    requires Reaches(c, s, es, t) && Serving(s) && AllSteady(es)
    ensures |es| + Work(t) <= Work(s) && Serving(t)
    decreases |es|
  {
    if es != [] {
      SteadyWorks(c, s, es[0]);
      SteadyRunWorks(c, Apply(c, s, es[0]), es[1..], t);
    }
  }

  lemma ReachableCanGoOn(c: Config, s: State) returns (e: Event)
    requires Reachable(c, s) && c.concurrentJobs > 0 && Serving(s) && !Idle(s)
    ensures Onward(e) && Enabled(c, s, e)
  {
    ReachableInv(c, s);
    e := NoDeadlock(c, s);
  }

  lemma IdleIsStill(c: Config, t: State, e: Event)
    requires Idle(t) && Steady(e)
    ensures !Enabled(c, t, e)
  {
  }

  lemma IdleHandedOver(c: Config, t: State, m: Message)
    requires Reachable(c, t) && Idle(t) && m in t.fetched
    ensures Buffered(t, m) || Committed(t, m) || m in t.dropped
  {
    Conservation(c, t, m);
  }

  /** Liveness: between fetches the process comes to rest, whatever fails. No interleaving
      takes more steps than the work at hand, one that cannot be continued is idle, and then
      every fetched message is committed, buffered or dropped. */
  lemma SteadyRunRests(c: Config, s: State, es: seq<Event>, t: State)
    requires Reachable(c, s) && c.concurrentJobs > 0 && Serving(s) && Reaches(c, s, es, t) && AllSteady(es)
    ensures |es| <= Work(s)
    ensures Idle(t) <==> forall e :: Steady(e) ==> !Enabled(c, t, e)
    ensures Idle(t) ==> forall m :: m in t.fetched ==> Buffered(t, m) || Committed(t, m) || m in t.dropped
  {
    SteadyRunWorks(c, s, es, t);
    ReachableLater(c, s, es, t);
    if Idle(t) {
      forall e | Steady(e) ensures !Enabled(c, t, e) { IdleIsStill(c, t, e); }
      forall m | m in t.fetched ensures Buffered(t, m) || Committed(t, m) || m in t.dropped {
        IdleHandedOver(c, t, m);
      }
    } else {
      var e := ReachableCanGoOn(c, t);
    }
  }

  lemma {:induction false} ReachableLater(c: Config, s: State, es: seq<Event>, t: State)
    requires Reachable(c, s) && Reaches(c, s, es, t)
    ensures Reachable(c, t)
    decreases |es|
  {
    if es != [] {
      ReachableStep(c, s, es[0]);
      ReachableLater(c, Apply(c, s, es[0]), es[1..], t);
    }
  }

  // ------------------------------------------------------------ all slots can be used

  function AllHandling(ms: seq<Message>): map<Message, Phase> { map m | m in ms :: Handling }

  ghost function KeysOf(c: Config, ms: seq<Message>): set<string> { set m | m in ms :: c.key(m) }

  /** Every message of ms is being handled, and nothing else has happened. */
  ghost function AllRunning(c: Config, ms: seq<Message>): State {
    var n := |ms|;
    START.(fetched := ms, jobs := AllHandling(ms), claimed := KeysOf(c, ms), slots := n, inFlight := n, group := n,
           tally := Tally(n, 0, 0, 0, 0, 0), spawned := ms)
  }

  /** Messages of one partition, in order, that decode to jobs with different keys. */
  ghost predicate DifferentJobs(c: Config, ms: seq<Message>) {
    && (forall i :: 0 <= i < |ms| ==> c.decodes(ms[i]))
    && (forall i, j :: 0 <= i < j < |ms| ==> c.key(ms[i]) != c.key(ms[j]) && ms[i].offset < ms[j].offset)
  }

  lemma ClaimOne(c: Config, ms: seq<Message>, m: Message)
    requires Reachable(c, AllRunning(c, ms)) && DifferentJobs(c, ms + [m])
    ensures Reachable(c, AllRunning(c, ms).(fetched := ms + [m], dispatcher := Waiting(m),
                                            claimed := KeysOf(c, ms + [m]), tally := Tally(|ms| + 1, 0, 0, 0, 0, 0)))
  {
    var s := AllRunning(c, ms);
    LastIsNew(c, ms, m);
    ReachableStep(c, s, Fetch(m));
    var s1 := s.(fetched := ms + [m], dispatcher := Decoding(m));
    ReachableStep(c, s1, Decode);
    var s2 := s1.(dispatcher := Claiming(m), tally := Tally(|ms| + 1, 0, 0, 0, 0, 0));
    ReachableStep(c, s2, ClaimWon);
    assert KeysOf(c, ms + [m]) == KeysOf(c, ms) + {c.key(m)};
  }

  lemma LastIsNew(c: Config, ms: seq<Message>, m: Message)
    requires DifferentJobs(c, ms + [m])
    ensures c.decodes(m) && c.key(m) !in KeysOf(c, ms) && Follows(ms, m)
  {
    var all := ms + [m];
    assert all[|ms|] == m;
    forall n | n in ms ensures c.key(n) != c.key(m) && n.offset < m.offset {
      var i :| 0 <= i < |ms| && ms[i] == n;
      assert all[i] == n;
    }
  }

  lemma StartOne(c: Config, ms: seq<Message>, m: Message)
    requires Reachable(c, AllRunning(c, ms).(fetched := ms + [m], dispatcher := Waiting(m),
                                             claimed := KeysOf(c, ms + [m]), tally := Tally(|ms| + 1, 0, 0, 0, 0, 0)))
    requires |ms| < c.concurrentJobs
    ensures Reachable(c, AllRunning(c, ms + [m]))
  {
    var s := AllRunning(c, ms).(fetched := ms + [m], dispatcher := Waiting(m),
                                claimed := KeysOf(c, ms + [m]), tally := Tally(|ms| + 1, 0, 0, 0, 0, 0));
    ReachableStep(c, s, AcquireSlot);
    var t := s.(dispatcher := Acquired(m), slots := |ms| + 1);
    ReachableStep(c, t, Spawn);
    assert AllHandling(ms + [m]) == AllHandling(ms)[m := Handling];
  }

  /** As many jobs as there are slots can be handled at the same time. */
  lemma {:induction false} SlotsCanBeFilled(c: Config, ms: seq<Message>)
    requires DifferentJobs(c, ms) && |ms| <= c.concurrentJobs
    ensures Reachable(c, AllRunning(c, ms))
  {
    if ms == [] {
      assert Reaches(c, START, [], START);
      assert AllRunning(c, []) == START;
    } else {
      var front, m := ms[..|ms| - 1], ms[|ms| - 1];
      assert ms == front + [m];
      assert DifferentJobs(c, front) by { assert forall i :: 0 <= i < |front| ==> front[i] == ms[i]; }
      SlotsCanBeFilled(c, front);
      ClaimOne(c, front, m);
      StartOne(c, front, m);
    }
  }
}
