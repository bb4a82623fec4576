/** What every step of the worker process keeps. */
module PipelineInvariants {
  import opened Common
  import opened Pipeline
  import Spec = PartitionCommits

  // --------------------------------------------------------------- conservation

  predicate AtDispatcher(s: State, m: Message) { !s.dispatcher.Fetching? && s.dispatcher.m == m }

  /** How many places hold m. */
  ghost function Copies(s: State, m: Message): nat {
    One(AtDispatcher(s, m)) + One(m in s.jobs) + multiset(s.channel)[m] + multiset(s.arrived)[m] + One(m in s.dropped)
  }

  ghost predicate Conserved(s: State) {
    && (forall m :: Copies(s, m) == One(m in s.fetched))
    && (forall m, n :: m in s.fetched && n in s.fetched && m.partition == n.partition && m.offset == n.offset ==>
          m == n)
  }

  lemma MoveIn(ms: seq<Message>, m: Message)
    ensures multiset(ms + [m]) == multiset(ms) + multiset{m}
  {
  }

  lemma MoveOut(ms: seq<Message>)
    requires ms != []
    ensures multiset(ms) == multiset{ms[0]} + multiset(ms[1..])
  {
    assert ms == [ms[0]] + ms[1..];
  }

  /** Only a fetch makes a message appear; every other step moves it or leaves it. */
  lemma CopiesStep(c: Config, s: State, e: Event, m: Message)
    requires Enabled(c, s, e) && Copies(s, m) <= 1
    ensures Copies(Apply(c, s, e), m) == Copies(s, m) + One(e == Fetch(m))
  {
    match e
    case DispatcherSends => MoveIn(s.channel, s.dispatcher.m);
    case JobSends(x) => MoveIn(s.channel, x);
    case Receive => MoveOut(s.channel); MoveIn(s.arrived, s.channel[0]);
    case _ =>
  }

  lemma ConservedStep(c: Config, s: State, e: Event)
    requires Conserved(s) && Enabled(c, s, e)
    ensures Conserved(Apply(c, s, e))
  {
    var t := Apply(c, s, e);
    assert t.fetched == if e.Fetch? then s.fetched + [e.m] else s.fetched;
    forall m ensures Copies(t, m) == One(m in t.fetched) {
      CopiesStep(c, s, e, m);
    }
  }

  // ------------------------------------------------------------ slots and tallies

  ghost function Holding(jobs: map<Message, Phase>, p: Phase -> bool): set<Message> {
    set m | m in jobs && p(jobs[m])
  }

  lemma HoldingSet(jobs: map<Message, Phase>, p: Phase -> bool, m: Message, to: Phase)
    ensures |Holding(jobs[m := to], p)| == |Holding(jobs, p)| - One(m in jobs && p(jobs[m])) + One(p(to))
  {
    var was, now := Holding(jobs, p), Holding(jobs[m := to], p);
    assert now - {m} == was - {m};
    assert |now| == |now - {m}| + One(m in now);
    assert |was| == |was - {m}| + One(m in was);
  }

  lemma HoldingRemove(jobs: map<Message, Phase>, p: Phase -> bool, m: Message)
    requires m in jobs && !p(jobs[m])
    ensures Holding(jobs - {m}, p) == Holding(jobs, p)
  {
  }

  lemma HoldingWithin(jobs: map<Message, Phase>, p: Phase -> bool, q: Phase -> bool)
    requires forall x :: p(x) ==> q(x)
    ensures |Holding(jobs, p)| <= |Holding(jobs, q)|
  {
    var a, b := Holding(jobs, p), Holding(jobs, q);
    assert a <= b;
    assert |b| == |a| + |b - a| by { assert b == a + (b - a); }
  }

  predicate IsHandling(p: Phase) { p.Handling? }

  /** Jobs received whose fate is not counted yet. */
  ghost function Uncounted(s: State): nat {
    |Holding(s.jobs, IsHandling)| + One(s.dispatcher.Claiming? || s.dispatcher.Waiting? || s.dispatcher.Acquired?)
  }

  /** Each counter is exactly what it is named for, and the bounded resources stay bounded. */
  ghost predicate Accounted(c: Config, s: State) {
    && s.inFlight == |Holding(s.jobs, HasGauge)|
    && s.slots == |Holding(s.jobs, HasSlot)| + One(s.dispatcher.Acquired?)
    && s.group == |Holding(s.jobs, InGroup)|
    && s.slots <= c.concurrentJobs
    && |s.channel| <= Capacity(c)
    && s.tally.received == s.tally.skipped + s.tally.success + s.tally.failed
                           + s.tally.dedupeErrors + s.tally.cancelled + Uncounted(s)
    && |s.dropped| == s.tally.dedupeErrors + s.tally.cancelled
  }

  lemma PhaseChange(jobs: map<Message, Phase>, m: Message, to: Phase)
    ensures |Holding(jobs[m := to], HasGauge)| ==
            |Holding(jobs, HasGauge)| - One(m in jobs && HasGauge(jobs[m])) + One(HasGauge(to))
    ensures |Holding(jobs[m := to], HasSlot)| ==
            |Holding(jobs, HasSlot)| - One(m in jobs && HasSlot(jobs[m])) + One(HasSlot(to))
    ensures |Holding(jobs[m := to], InGroup)| ==
            |Holding(jobs, InGroup)| - One(m in jobs && InGroup(jobs[m])) + One(InGroup(to))
    ensures |Holding(jobs[m := to], IsHandling)| ==
            |Holding(jobs, IsHandling)| - One(m in jobs && IsHandling(jobs[m])) + One(IsHandling(to))
  {
    HoldingSet(jobs, HasGauge, m, to);
    HoldingSet(jobs, HasSlot, m, to);
    HoldingSet(jobs, InGroup, m, to);
    HoldingSet(jobs, IsHandling, m, to);
  }

  ghost predicate MovesJob(e: Event) {
    e.Spawn? || e.JobSucceeds? || e.JobFails? || e.LowerGauge? || e.ReleaseSlot? || e.LeaveGroup?
  }

  lemma AccountedSpawn(c: Config, s: State)
    requires Accounted(c, s) && Enabled(c, s, Spawn) && s.dispatcher.m !in s.jobs
    ensures Accounted(c, Apply(c, s, Spawn))
  {
    PhaseChange(s.jobs, s.dispatcher.m, Handling);
  }

  lemma AccountedOutcome(c: Config, s: State, e: Event)
    requires Accounted(c, s) && Enabled(c, s, e) && (e.JobSucceeds? || e.JobFails?)
    ensures Accounted(c, Apply(c, s, e))
  {
    PhaseChange(s.jobs, e.m, Publishing);
  }

  lemma AccountedLeave(c: Config, s: State, e: Event)
    requires Accounted(c, s) && Enabled(c, s, e) && (e.LowerGauge? || e.ReleaseSlot? || e.LeaveGroup?)
    ensures Accounted(c, Apply(c, s, e))
  {
    PhaseChange(s.jobs, e.m, if e.LowerGauge? then Ungauged else if e.ReleaseSlot? then Released else Done);
  }

  lemma AccountedSend(c: Config, s: State, m: Message)
    requires Accounted(c, s) && Enabled(c, s, JobSends(m))
    ensures Accounted(c, Apply(c, s, JobSends(m)))
  {
    HoldingRemove(s.jobs, HasGauge, m);
    HoldingRemove(s.jobs, HasSlot, m);
    HoldingRemove(s.jobs, InGroup, m);
    HoldingRemove(s.jobs, IsHandling, m);
  }

  lemma AccountedRest(c: Config, s: State, e: Event)
    requires Accounted(c, s) && Enabled(c, s, e) && !MovesJob(e) && !e.JobSends?
    requires !s.dispatcher.Fetching? ==> s.dispatcher.m !in s.dropped
    ensures Accounted(c, Apply(c, s, e))
  {
    assert Apply(c, s, e).jobs == s.jobs;
  }

  lemma AccountedStep(c: Config, s: State, e: Event)
    requires Conserved(s) && Accounted(c, s) && Enabled(c, s, e)
    ensures Accounted(c, Apply(c, s, e))
  {
    assert !s.dispatcher.Fetching? ==> Copies(s, s.dispatcher.m) <= 1;
    if e.Spawn? {
      AccountedSpawn(c, s);
    } else if e.JobSucceeds? || e.JobFails? {
      AccountedOutcome(c, s, e);
    } else if MovesJob(e) {
      AccountedLeave(c, s, e);
    } else if e.JobSends? {
      AccountedSend(c, s, e.m);
    } else {
      AccountedRest(c, s, e);
    }
  }

  // ------------------------------------------------------------------ coordinator

  /** Partition p with the message of an unfinished commit put back. */
  ghost function Settled(s: State, p: int): Spec.Partition {
    var q := PartOf(s, p);
    if s.mode.Committing? && s.mode.p == p then q.(pending := q.pending[Spec.Expected(q) := s.mode.m]) else q
  }

  ghost predicate CommitUnderWay(s: State) {
    s.mode.Committing? ==>
      var q := PartOf(s, s.mode.p);
      q.next == Some(s.mode.m.offset) && s.mode.m.partition == s.mode.p && s.mode.m.offset !in q.pending
  }

  /** Every partition stands to what the coordinator received as in its specification. */
  ghost predicate Coordinated(s: State) {
    && CommitUnderWay(s)
    && forall p :: CoordinatedAt(s, p)
  }

  ghost predicate CoordinatedAt(s: State, p: int) {
    var ms := OfPartition(s.arrived, p);
    && Spec.Tracks(Settled(s, p), ms)
    && Spec.Separate(Settled(s, p), ms)
    && Spec.DistinctOffsets(ms)
  }

  lemma SameStanding(s: State, t: State, p: int)
    requires CoordinatedAt(s, p)
    requires OfPartition(t.arrived, p) == OfPartition(s.arrived, p)
    requires Settled(t, p).next == Settled(s, p).next
    requires Settled(t, p).pending == Settled(s, p).pending
    requires Settled(t, p).log == Settled(s, p).log
    ensures CoordinatedAt(t, p)
  {
  }

  lemma NewOffset(s: State, m: Message)
    requires Conserved(s) && m in s.channel
    ensures !Spec.Arrived(OfPartition(s.arrived, m.partition), m.offset)
  {
    forall n | n in OfPartition(s.arrived, m.partition) ensures n.offset != m.offset {
      assert multiset(s.arrived)[n] >= 1 && multiset(s.channel)[m] >= 1;
      assert n in s.fetched && m in s.fetched by {
        assert Copies(s, n) == One(n in s.fetched) && Copies(s, m) == One(m in s.fetched);
      }
      assert Copies(s, m) <= 1;
    }
  }

  lemma CoordinatedReceive(s: State, t: State, m: Message)
    requires CoordinatedAt(s, m.partition) && !Spec.Arrived(OfPartition(s.arrived, m.partition), m.offset)
    requires s.mode.Receiving? && !t.mode.Committing? && t.arrived == s.arrived + [m]
    requires t.parts == s.parts[m.partition := Spec.Enqueue(PartOf(s, m.partition), m)]
    ensures CoordinatedAt(t, m.partition)
  {
    var ms := OfPartition(s.arrived, m.partition);
    OfPartitionSnoc(s.arrived, m, m.partition);
    Spec.EnqueueTracks(PartOf(s, m.partition), ms, m);
    forall i, j | 0 <= i < j < |ms + [m]| ensures (ms + [m])[i].offset != (ms + [m])[j].offset {
      assert ms[i] in ms;
    }
  }

  lemma CoordinatedTake(s: State, t: State)
    requires s.mode.Draining? && CoordinatedAt(s, s.mode.p)
    requires
      var q := PartOf(s, s.mode.p);
      && Spec.Expected(q) in q.pending
      && t == s.(mode := Committing(s.mode.p, q.pending[Spec.Expected(q)], s.mode.rest),
                 parts := s.parts[s.mode.p := Spec.Take(q)])
    ensures CoordinatedAt(t, s.mode.p) && CommitUnderWay(t)
  {
    var q, p := PartOf(s, s.mode.p), s.mode.p;
    var k := Spec.Expected(q);
    assert q.pending[k] in OfPartition(s.arrived, p);
    assert (q.pending - {k})[k := q.pending[k]] == q.pending;
    SameStanding(s, t, p);
  }

  lemma CoordinatedAccepted(s: State, t: State)
    requires s.mode.Committing? && CommitUnderWay(s) && CoordinatedAt(s, s.mode.p)
    requires t == s.(mode := Draining(s.mode.p, s.mode.rest),
                     parts := s.parts[s.mode.p := Spec.Accept(PartOf(s, s.mode.p), s.mode.m)])
    ensures CoordinatedAt(t, s.mode.p)
  {
    var q, p := PartOf(s, s.mode.p), s.mode.p;
    var whole := Settled(s, p);
    Spec.CommitTracks(whole, OfPartition(s.arrived, p), k => true);
    assert whole.pending - {s.mode.m.offset} == q.pending;
  }

  ghost predicate CoordinatorEvent(e: Event) {
    e.Receive? || e.TakeNext? || e.NothingNext? || e.CommitAccepted? || e.CommitRefused?
    || e.BeginFlush? || e.FlushPartition? || e.EndFlush?
  }

  /** Nothing else touches what the coordinator knows of a partition. */
  lemma SettledByOthers(c: Config, s: State, e: Event)
    requires Enabled(c, s, e) && !CoordinatorEvent(e)
    ensures Apply(c, s, e).parts == s.parts && Apply(c, s, e).mode == s.mode && Apply(c, s, e).arrived == s.arrived
  {
  }

  lemma SettledElsewhere(c: Config, s: State, e: Event, p: int)
    requires Enabled(c, s, e) && CoordinatorEvent(e)
    requires e.Receive? ==> s.channel[0].partition != p
    requires e.TakeNext? || e.CommitAccepted? ==> s.mode.p != p
    ensures Settled(Apply(c, s, e), p).next == Settled(s, p).next
    ensures Settled(Apply(c, s, e), p).pending == Settled(s, p).pending
    ensures Settled(Apply(c, s, e), p).log == Settled(s, p).log
  {
  }

  lemma ReceivedElsewhere(c: Config, s: State, e: Event, p: int)
    requires Enabled(c, s, e) && (e.Receive? ==> s.channel[0].partition != p)
    ensures OfPartition(Apply(c, s, e).arrived, p) == OfPartition(s.arrived, p)
  {
    if e.Receive? { OfPartitionSnoc(s.arrived, s.channel[0], p); } else { assert Apply(c, s, e).arrived == s.arrived; }
  }

  lemma CoordinatedByOthers(s: State, t: State, p: int)
    requires CoordinatedAt(s, p) && t.parts == s.parts && t.mode == s.mode && t.arrived == s.arrived
    ensures CoordinatedAt(t, p)
  {
  }

  lemma CoordinatedElsewhere(c: Config, s: State, e: Event, p: int)
    requires Enabled(c, s, e) && CoordinatedAt(s, p)
    requires e.Receive? ==> s.channel[0].partition != p
    requires e.TakeNext? || e.CommitAccepted? ==> s.mode.p != p
    ensures CoordinatedAt(Apply(c, s, e), p)
  {
    if CoordinatorEvent(e) {
      SettledElsewhere(c, s, e, p);
      ReceivedElsewhere(c, s, e, p);
      SameStanding(s, Apply(c, s, e), p);
    } else {
      SettledByOthers(c, s, e);
      CoordinatedByOthers(s, Apply(c, s, e), p);
    }
  }

  lemma UnderWayStep(c: Config, s: State, e: Event)
    requires Enabled(c, s, e) && CommitUnderWay(s) && !e.TakeNext?
    ensures CommitUnderWay(Apply(c, s, e))
  {
    if !CoordinatorEvent(e) { SettledByOthers(c, s, e); }
  }

  /** The partition an event works on. */
  lemma CoordinatedHere(c: Config, s: State, e: Event)
    requires Conserved(s) && Coordinated(s) && Enabled(c, s, e)
    ensures e.Receive? ==> CoordinatedAt(Apply(c, s, e), s.channel[0].partition)
    ensures e.TakeNext? ==> CoordinatedAt(Apply(c, s, e), s.mode.p) && CommitUnderWay(Apply(c, s, e))
    ensures e.CommitAccepted? ==> CoordinatedAt(Apply(c, s, e), s.mode.p)
  {
    var t := Apply(c, s, e);
    if e.Receive? {
      NewOffset(s, s.channel[0]);
      CoordinatedReceive(s, t, s.channel[0]);
    } else if e.TakeNext? {
      CoordinatedTake(s, t);
    } else if e.CommitAccepted? {
      CoordinatedAccepted(s, t);
    }
  }

  lemma CoordinatedStep(c: Config, s: State, e: Event)
    requires Conserved(s) && Coordinated(s) && Enabled(c, s, e)
    ensures Coordinated(Apply(c, s, e))
  {
    var t := Apply(c, s, e);
    CoordinatedHere(c, s, e);
    if !e.TakeNext? { UnderWayStep(c, s, e); }
    forall p ensures CoordinatedAt(t, p) {
      if (e.Receive? && s.channel[0].partition == p) || ((e.TakeNext? || e.CommitAccepted?) && s.mode.p == p) {
      } else {
        CoordinatedElsewhere(c, s, e, p);
      }
    }
  }

  // ------------------------------------------------------------- claims and order

  /** Past the dedupe step a message that decodes has its key claimed. */
  ghost predicate ClaimsHeld(c: Config, s: State) {
    forall m :: c.decodes(m) &&
                (m in s.channel || m in s.arrived || m in s.jobs
                 || s.dispatcher == Sending(m) || s.dispatcher == Waiting(m) || s.dispatcher == Acquired(m))
                ==> c.key(m) in s.claimed
  }

  lemma ClaimsHeldStep(c: Config, s: State, e: Event)
    requires ClaimsHeld(c, s) && Enabled(c, s, e)
    ensures ClaimsHeld(c, Apply(c, s, e))
  {
  }

  /** Every goroutine was started for a key of its own, and the key of the message next in
      line belongs to none of them. */
  ghost predicate KeysSpawnedOnce(c: Config, s: State) {
    && (forall i, j :: 0 <= i < j < |s.spawned| ==> c.key(s.spawned[i]) != c.key(s.spawned[j]))
    && (forall i :: 0 <= i < |s.spawned| ==> c.key(s.spawned[i]) in s.claimed)
    && (s.dispatcher.Waiting? || s.dispatcher.Acquired? ==>
          && c.key(s.dispatcher.m) in s.claimed
          && forall i :: 0 <= i < |s.spawned| ==> c.key(s.spawned[i]) != c.key(s.dispatcher.m))
    && (forall m :: m in s.jobs ==> m in s.spawned)
  }

  lemma KeysSpawnedOnceStep(c: Config, s: State, e: Event)
    requires KeysSpawnedOnce(c, s) && Enabled(c, s, e)
    ensures KeysSpawnedOnce(c, Apply(c, s, e))
  {
    var t := Apply(c, s, e);
    assert t.spawned == if e.Spawn? then s.spawned + [s.dispatcher.m] else s.spawned;
    assert s.claimed <= t.claimed;
  }

  ghost predicate Ordered(s: State) {
    forall i, j :: 0 <= i < j < |s.fetched| && s.fetched[i].partition == s.fetched[j].partition ==>
      s.fetched[i].offset < s.fetched[j].offset
  }

  lemma OrderedStep(c: Config, s: State, e: Event)
    requires Ordered(s) && Enabled(c, s, e)
    ensures Ordered(Apply(c, s, e))
  {
    assert Apply(c, s, e).fetched == if e.Fetch? then s.fetched + [e.m] else s.fetched;
  }

  // -------------------------------------------------------------------- all runs

  ghost predicate Inv(c: Config, s: State) {
    Conserved(s) && Accounted(c, s) && Coordinated(s) && ClaimsHeld(c, s) && KeysSpawnedOnce(c, s) && Ordered(s)
  }

  lemma StartInv(c: Config)
    ensures Inv(c, START)
  {
    forall m ensures Copies(START, m) == 0 {}
    assert forall p :: Holding(map[], p) == {};
    forall p ensures CoordinatedAt(START, p) {
      assert OfPartition([], p) == [];
    }
  }

  lemma InvStep(c: Config, s: State, e: Event)
    requires Inv(c, s) && Enabled(c, s, e)
    ensures Inv(c, Apply(c, s, e))
  {
    ConservedStep(c, s, e);
    AccountedStep(c, s, e);
    CoordinatedStep(c, s, e);
    ClaimsHeldStep(c, s, e);
    KeysSpawnedOnceStep(c, s, e);
    OrderedStep(c, s, e);
  }

  lemma {:induction false} InvReaches(c: Config, s: State, es: seq<Event>, t: State)
    requires Inv(c, s) && Reaches(c, s, es, t)
    ensures Inv(c, t)
    decreases |es|
  {
    if es != [] {
      InvStep(c, s, es[0]);
      InvReaches(c, Apply(c, s, es[0]), es[1..], t);
    }
  }

  lemma {:induction false} ReachesExtends(c: Config, s: State, es: seq<Event>, t: State)
    requires Reaches(c, s, es, t)
    ensures s.arrived <= t.arrived && s.fetched <= t.fetched
    decreases |es|
  {
    if es != [] {
      var u := Apply(c, s, es[0]);
      assert s.arrived <= u.arrived && s.fetched <= u.fetched;
      ReachesExtends(c, u, es[1..], t);
    }
  }
}
