/** Safety of the worker process over whole runs, under every interleaving. */
module PipelineTheorems {
  import opened Common
  import opened Pipeline
  import opened PipelineInvariants
  import Spec = PartitionCommits
  import CommitTheorems

  ghost predicate Reachable(c: Config, t: State) {
    exists es :: Reaches(c, START, es, t)
  }

  lemma ReachableInv(c: Config, t: State)
    requires Reachable(c, t)
    ensures Inv(c, t)
  {
    var es :| Reaches(c, START, es, t);
    StartInv(c);
    InvReaches(c, START, es, t);
  }

  // --------------------------------------------------------------- conservation

  predicate Buffered(s: State, m: Message) {
    m.offset in PartOf(s, m.partition).pending && PartOf(s, m.partition).pending[m.offset] == m
  }

  predicate BeingCommitted(s: State, m: Message) { s.mode.Committing? && s.mode.m == m }

  predicate Committed(s: State, m: Message) { m in PartOf(s, m.partition).log }

  lemma DistinctAt(ms: seq<Message>, m: Message, n: Message)
    requires Spec.DistinctOffsets(ms) && m in ms && n in ms && m.offset == n.offset
    ensures m == n
  {
    var i, j :| 0 <= i < |ms| && ms[i] == m && 0 <= j < |ms| && ms[j] == n;
  }

  /** What the specification says of one received message. */
  lemma TracksSplit(q: Spec.Partition, ms: seq<Message>, m: Message)
    requires Spec.Tracks(q, ms) && Spec.Separate(q, ms) && Spec.DistinctOffsets(ms)
    ensures m in ms <==> m in q.log || (m.offset in q.pending && q.pending[m.offset] == m)
    ensures !(m in q.log && m.offset in q.pending)
  {
    if m in ms {
      assert Spec.Arrived(ms, m.offset);
      if m.offset in q.pending {
        DistinctAt(ms, m, q.pending[m.offset]);
      } else {
        var k := m.offset - ms[0].offset;
        DistinctAt(ms, m, q.log[k]);
      }
    }
  }

  lemma ReceivedSplit(s: State, m: Message)
    requires CommitUnderWay(s) && CoordinatedAt(s, m.partition)
    ensures One(m in s.arrived) == One(Buffered(s, m)) + One(BeingCommitted(s, m)) + One(Committed(s, m))
  {
    TracksSplit(Settled(s, m.partition), OfPartition(s.arrived, m.partition), m);
  }

  /** Conservation: in every reachable state a fetched message is in exactly one place,
      and nothing else is anywhere. */
  lemma Conservation(c: Config, s: State, m: Message)
    requires Reachable(c, s)
    ensures One(AtDispatcher(s, m)) + One(m in s.jobs) + One(m in s.channel) + One(Buffered(s, m))
            + One(BeingCommitted(s, m)) + One(Committed(s, m)) + One(m in s.dropped) == One(m in s.fetched)
  {
    ReachableInv(c, s);
    assert Copies(s, m) == One(m in s.fetched);
    assert CoordinatedAt(s, m.partition);
    ReceivedSplit(s, m);
  }

  /** Slots and counters: gauge, semaphore and channel stay within their bounds and no
      received job is lost from the books. */
  lemma SlotsAndCounters(c: Config, s: State)
    requires Reachable(c, s)
    ensures 0 <= s.inFlight <= s.slots <= c.concurrentJobs
    ensures 0 <= s.inFlight <= s.group
    ensures |s.channel| <= 2 * c.concurrentJobs
    ensures s.tally.received == s.tally.skipped + s.tally.success + s.tally.failed
                                + s.tally.dedupeErrors + s.tally.cancelled + Uncounted(s)
    ensures |s.dropped| == s.tally.dedupeErrors + s.tally.cancelled
  {
    ReachableInv(c, s);
    HoldingWithin(s.jobs, HasGauge, HasSlot);
    HoldingWithin(s.jobs, HasGauge, InGroup);
  }

  /** Whatever reached the commit channel and decodes had its key claimed first. */
  lemma CommittedJobsWereClaimed(c: Config, s: State, m: Message)
    requires Reachable(c, s) && c.decodes(m)
    requires m in s.channel || Buffered(s, m) || BeingCommitted(s, m) || Committed(s, m)
    ensures c.key(m) in s.claimed
  {
    ReachableInv(c, s);
    assert CoordinatedAt(s, m.partition);
    ReceivedSplit(s, m);
  }

  /** One spawn per key: of all messages with the same dedupe key at most one ever gets a
      goroutine, so no two goroutines share a key. */
  lemma OneSpawnPerKey(c: Config, s: State)
    requires Reachable(c, s)
    ensures forall i, j :: 0 <= i < j < |s.spawned| ==> c.key(s.spawned[i]) != c.key(s.spawned[j])
    ensures forall m, n :: m in s.jobs && n in s.jobs && c.key(m) == c.key(n) ==> m == n
  {
    ReachableInv(c, s);
    forall m, n | m in s.jobs && n in s.jobs && c.key(m) == c.key(n) ensures m == n {
      var i :| 0 <= i < |s.spawned| && s.spawned[i] == m;
      var j :| 0 <= j < |s.spawned| && s.spawned[j] == n;
    }
  }

  // ---------------------------------------------------------------- commit safety

  /** Handed over: sent to the commit channel. */
  predicate Handed(s: State, m: Message) { m in s.channel || m in s.arrived }

  /** The offset the coordinator first received from partition p. */
  function FirstReceived(s: State, p: int): int
    requires OfPartition(s.arrived, p) != []
  {
    OfPartition(s.arrived, p)[0].offset
  }

  /** The broker has been told to resume after m. */
  ghost predicate Passed(s: State, m: Message) {
    exists n :: n in PartOf(s, m.partition).log && m.offset < n.offset
  }

  lemma FirstCommitted(s: State, p: int)
    requires CommitUnderWay(s) && CoordinatedAt(s, p)
    ensures PartOf(s, p).log != [] ==>
              OfPartition(s.arrived, p) != [] && PartOf(s, p).log[0].offset == FirstReceived(s, p)
  {
  }

  /** Exactly the offsets below the first received one can be passed while they are still
      being worked on (or were dropped). */
  lemma CommitSafety(c: Config, s: State, m: Message)
    requires Reachable(c, s) && m in s.fetched && !Handed(s, m)
    ensures Passed(s, m) <==> PartOf(s, m.partition).log != [] && OfPartition(s.arrived, m.partition) != []
                              && m.offset < FirstReceived(s, m.partition)
  {
    ReachableInv(c, s);
    var p := m.partition;
    var ms, log := OfPartition(s.arrived, p), PartOf(s, p).log;
    assert CoordinatedAt(s, p);
    FirstCommitted(s, p);
    if log != [] {
      assert Spec.Arrived(ms, m.offset) <==>
             ms[0].offset <= m.offset < ms[0].offset + |log| || m.offset in Settled(s, p).pending;
      assert !Spec.Arrived(ms, m.offset) by {
        forall n | n in ms ensures n.offset != m.offset {
          assert multiset(s.arrived)[n] >= 1;
          assert Copies(s, n) == One(n in s.fetched);
        }
      }
      assert log[0] in log && log[|log| - 1] in log;
    }
  }

  lemma FirstFetchedIsLeast(ms: seq<Message>, p: int, m: Message)
    requires forall i, j :: 0 <= i < j < |ms| && ms[i].partition == ms[j].partition ==> ms[i].offset < ms[j].offset
    requires m in ms && m.partition == p
    ensures OfPartition(ms, p) != [] && OfPartition(ms, p)[0].offset <= m.offset
  {
    var front, last := ms[..|ms| - 1], ms[|ms| - 1];
    assert ms == front + [last];
    OfPartitionSnoc(front, last, p);
    if m in front {
      FirstFetchedIsLeast(front, p, m);
    } else if OfPartition(front, p) != [] {
      var f := OfPartition(front, p)[0];
      var i :| 0 <= i < |front| && front[i] == f;
      assert ms[i] == f;
    }
  }

  /** When the first message received of a partition is the first one fetched, no commit
      ever passes a message that has not been handed over. */
  lemma CommitSafetyInOrderStart(c: Config, s: State, m: Message)
    requires Reachable(c, s) && m in s.fetched && !Handed(s, m)
    requires OfPartition(s.arrived, m.partition) != []
    requires OfPartition(s.arrived, m.partition)[0] == OfPartition(s.fetched, m.partition)[0]
    ensures !Passed(s, m)
  {
    ReachableInv(c, s);
    CommitSafety(c, s, m);
    FirstFetchedIsLeast(s.fetched, m.partition, m);
  }

  // --------------------------------------------------- blocking and stale offsets

  lemma FirstReceivedStays(c: Config, s: State, es: seq<Event>, t: State, p: int)
    requires Reaches(c, s, es, t) && OfPartition(s.arrived, p) != []
    ensures OfPartition(t.arrived, p) != [] && FirstReceived(t, p) == FirstReceived(s, p)
  {
    ReachesExtends(c, s, es, t);
    assert t.arrived == s.arrived + t.arrived[|s.arrived|..];
    OfPartitionPrefix(s.arrived, t.arrived[|s.arrived|..], p);
  }

  /** Head-of-line blocking: as long as offset d, at or above the expected one, has not
      reached the coordinator, no run commits any offset from d on. */
  lemma HeadOfLineBlocking(c: Config, s: State, es: seq<Event>, t: State, p: int, d: int)
    requires Reachable(c, s) && Reaches(c, s, es, t)
    requires PartOf(s, p).next.Some? && PartOf(s, p).next.value <= d
    requires !Spec.Arrived(OfPartition(t.arrived, p), d)
    ensures forall n :: n in PartOf(t, p).log ==> n.offset < d
    ensures Spec.Expected(PartOf(t, p)) <= d
  {
    ReachableInv(c, s);
    InvReaches(c, s, es, t);
    assert CoordinatedAt(s, p) && CoordinatedAt(t, p);
    FirstReceivedStays(c, s, es, t, p);
    var ms, q := OfPartition(t.arrived, p), Settled(t, p);
    assert Spec.Arrived(ms, d) <==> ms[0].offset <= d < q.next.value || d in q.pending;
  }

  lemma StaleNow(c: Config, t: State, m: Message)
    requires Inv(c, t) && m in t.arrived && m.offset < FirstReceived(t, m.partition)
    ensures Buffered(t, m) && !Committed(t, m)
  {
    var p := m.partition;
    assert CoordinatedAt(t, p);
    TracksSplit(Settled(t, p), OfPartition(t.arrived, p), m);
  }

  /** A message received below the first received offset is never committed and stays in
      the buffer in every continuation. */
  lemma StaleForever(c: Config, s: State, es: seq<Event>, t: State, m: Message)
    requires Reachable(c, s) && Reaches(c, s, es, t)
    requires m in s.arrived && m.offset < FirstReceived(s, m.partition)
    ensures Buffered(t, m) && !Committed(t, m)
  {
    ReachableInv(c, s);
    InvReaches(c, s, es, t);
    FirstReceivedStays(c, s, es, t, m.partition);
    ReachesExtends(c, s, es, t);
    assert m in t.arrived;
    StaleNow(c, t, m);
  }

  // ----------------------------------------------- the in-order start is necessary

  lemma {:induction false} ReachesOneMore(c: Config, s: State, es: seq<Event>, t: State, e: Event)
    requires Reaches(c, s, es, t) && Enabled(c, t, e)
    ensures Reaches(c, s, es + [e], Apply(c, t, e))
    decreases |es|
  {
    if es != [] {
      ReachesOneMore(c, Apply(c, s, es[0]), es[1..], t, e);
      assert (es + [e])[1..] == es[1..] + [e];
    }
  }

  lemma ReachableStep(c: Config, s: State, e: Event)
    requires Reachable(c, s) && Enabled(c, s, e)
    ensures Reachable(c, Apply(c, s, e))
  {
    var es :| Reaches(c, START, es, s);
    ReachesOneMore(c, START, es, s, e);
  }

  /** m is running and nothing else has happened. */
  ghost function OneRunning(c: Config, m: Message): State {
    State([m], Fetching, map[m := Handling], [], [], Receiving, map[], {}, {c.key(m)}, 1, 1, 1,
          Tally(1, 0, 0, 0, 0, 0), [m])
  }

  lemma OneRunningReachable(c: Config, m: Message)
    requires c.concurrentJobs >= 1 && c.decodes(m)
    ensures Reachable(c, OneRunning(c, m))
  {
    assert Reaches(c, START, [], START);
    var s1 := START.(fetched := [m], dispatcher := Decoding(m));
    assert s1 == Apply(c, START, Fetch(m)) by { assert [] + [m] == [m]; }
    ReachableStep(c, START, Fetch(m));
    var s2 := s1.(dispatcher := Claiming(m), tally := Tally(1, 0, 0, 0, 0, 0));
    ReachableStep(c, s1, Decode);
    var s3 := s2.(dispatcher := Waiting(m), claimed := {c.key(m)});
    assert s3 == Apply(c, s2, ClaimWon) by { assert {} + {c.key(m)} == {c.key(m)}; }
    ReachableStep(c, s2, ClaimWon);
    var s4 := s3.(dispatcher := Acquired(m), slots := 1);
    ReachableStep(c, s3, AcquireSlot);
    assert OneRunning(c, m) == Apply(c, s4, Spawn) by { assert [] + [m] == [m]; }
    ReachableStep(c, s4, Spawn);
  }

  /** Same, and a duplicate n has been skipped and received by the coordinator. */
  ghost function DuplicateReceived(c: Config, m: Message, n: Message): State {
    OneRunning(c, m).(fetched := [m, n], arrived := [n], mode := Draining(n.partition, None),
                      parts := map[n.partition := Spec.Enqueue(Spec.FRESH, n)], tally := Tally(2, 1, 0, 0, 0, 0))
  }

  lemma DuplicateSkippedReachable(c: Config, m: Message, n: Message)
    requires c.concurrentJobs >= 1 && c.decodes(m) && c.decodes(n) && c.key(m) == c.key(n)
    requires m.partition == n.partition && m.offset < n.offset
    ensures Reachable(c, OneRunning(c, m).(fetched := [m, n], dispatcher := Sending(n),
                                           tally := Tally(2, 1, 0, 0, 0, 0)))
  {
    OneRunningReachable(c, m);
    var s0 := OneRunning(c, m);
    var s1 := s0.(fetched := [m, n], dispatcher := Decoding(n));
    assert s1 == Apply(c, s0, Fetch(n)) by { assert [m] + [n] == [m, n]; }
    ReachableStep(c, s0, Fetch(n));
    var s2 := s1.(dispatcher := Claiming(n), tally := Tally(2, 0, 0, 0, 0, 0));
    ReachableStep(c, s1, Decode);
    ReachableStep(c, s2, ClaimTaken);
  }

  lemma DuplicateReceivedReachable(c: Config, m: Message, n: Message)
    requires c.concurrentJobs >= 1 && c.decodes(m) && c.decodes(n) && c.key(m) == c.key(n)
    requires m.partition == n.partition && m.offset < n.offset
    ensures Reachable(c, DuplicateReceived(c, m, n))
  {
    DuplicateSkippedReachable(c, m, n);
    var s3 := OneRunning(c, m).(fetched := [m, n], dispatcher := Sending(n), tally := Tally(2, 1, 0, 0, 0, 0));
    var s4 := s3.(dispatcher := Fetching, channel := [n]);
    assert s4 == Apply(c, s3, DispatcherSends) by { assert [] + [n] == [n]; }
    ReachableStep(c, s3, DispatcherSends);
    assert DuplicateReceived(c, m, n) == Apply(c, s4, Receive) by { assert [n][1..] == [] && [] + [n] == [n]; }
    ReachableStep(c, s4, Receive);
  }

  /** Even with a single slot: while m is still being fetched, a later duplicate skips the
      queue, seeds the partition and is committed past m. */
  lemma DuplicatePassesRunningJob(c: Config, m: Message, n: Message)
    requires c.concurrentJobs >= 1 && c.decodes(m) && c.decodes(n) && c.key(m) == c.key(n)
    requires m.partition == n.partition && m.offset < n.offset
    ensures exists s :: Reachable(c, s) && InPhase(s, m, Handling) && Passed(s, m)
  {
    DuplicateReceivedReachable(c, m, n);
    var s0 := DuplicateReceived(c, m, n);
    var s1 := Apply(c, s0, TakeNext);
    ReachableStep(c, s0, TakeNext);
    var s2 := Apply(c, s1, CommitAccepted);
    ReachableStep(c, s1, CommitAccepted);
    assert PartOf(s2, m.partition).log == [n];
    assert Passed(s2, m) by { assert n in PartOf(s2, m.partition).log; }
  }

  // --------------------------------------------------------------------- shutdown

  /** The wait group empties exactly when every goroutine left has only its send to do. */
  lemma WaitGroupEmpty(c: Config, s: State)
    requires Reachable(c, s)
    ensures s.group == 0 <==> forall m :: m in s.jobs ==> s.jobs[m] == Done
  {
    ReachableInv(c, s);
    assert forall m :: m in s.jobs && s.jobs[m] != Done ==> m in Holding(s.jobs, InGroup);
    assert (forall m :: m in s.jobs ==> s.jobs[m] == Done) ==> Holding(s.jobs, InGroup) == {};
  }

  /** m is published and has left the gauge. */
  ghost function OneUngauged(c: Config, m: Message): State {
    OneRunning(c, m).(jobs := map[m := Ungauged], inFlight := 0, tally := Tally(1, 0, 1, 0, 0, 0))
  }

  lemma OneUngaugedReachable(c: Config, m: Message)
    requires c.concurrentJobs >= 1 && c.decodes(m)
    ensures Reachable(c, OneUngauged(c, m))
  {
    OneRunningReachable(c, m);
    var s := OneRunning(c, m);
    var t := s.(jobs := map[m := Publishing], tally := Tally(1, 0, 1, 0, 0, 0));
    assert Apply(c, s, JobSucceeds(m)) == t by { assert s.jobs[m := Publishing] == map[m := Publishing]; }
    ReachableStep(c, s, JobSucceeds(m));
    assert Apply(c, t, LowerGauge(m)) == OneUngauged(c, m) by { assert t.jobs[m := Ungauged] == map[m := Ungauged]; }
    ReachableStep(c, t, LowerGauge(m));
  }

  /** So waiting for the group does not wait for the sends: the channel can be closed
      while a goroutine still has to send on it. */
  lemma SendCanOutliveWait(c: Config, m: Message)
    requires c.concurrentJobs >= 1 && c.decodes(m)
    ensures exists s :: Reachable(c, s) && s.group == 0 && InPhase(s, m, Done)
  {
    OneUngaugedReachable(c, m);
    var s := OneUngauged(c, m);
    var t := Apply(c, s, ReleaseSlot(m));
    ReachableStep(c, s, ReleaseSlot(m));
    var u := Apply(c, t, LeaveGroup(m));
    ReachableStep(c, t, LeaveGroup(m));
    assert u.group == 0 && InPhase(u, m, Done);
  }

  // ---------------------------------------------------------------- the final flush

  predicate Drained(s: State, p: int) { Spec.Expected(PartOf(s, p)) !in PartOf(s, p).pending }

  /** During the flush every partition is drained, or being drained, or still listed. */
  ghost predicate FlushProgress(s: State) {
    match s.mode
    case Flushing(todo) => forall p :: p in s.parts ==> p in todo || Drained(s, p)
    case Draining(q, rest) => rest.Some? && forall p :: p in s.parts && p != q ==> p in rest.value || Drained(s, p)
    case Committing(q, _, rest) => rest.Some? && forall p :: p in s.parts && p != q ==> p in rest.value || Drained(s, p)
    case Stopped => forall p :: p in s.parts ==> Drained(s, p)
    case Receiving => false
  }

  lemma FlushProgressStep(c: Config, s: State, e: Event)
    requires FlushProgress(s) && Enabled(c, s, e) && !e.CommitRefused?
    ensures FlushProgress(Apply(c, s, e))
  {
    if !CoordinatorEvent(e) { SettledByOthers(c, s, e); }
  }

  lemma {:induction false} FlushProgressReaches(c: Config, s: State, es: seq<Event>, t: State)
    requires FlushProgress(s) && Reaches(c, s, es, t)
    requires forall k :: 0 <= k < |es| ==> !es[k].CommitRefused?
    ensures FlushProgress(t)
    decreases |es|
  {
    if es != [] {
      FlushProgressStep(c, s, es[0]);
      FlushProgressReaches(c, Apply(c, s, es[0]), es[1..], t);
    }
  }

  lemma DrainedIsBatch(s: State, p: int)
    requires CoordinatedAt(s, p) && !s.mode.Committing? && Drained(s, p) && OfPartition(s.arrived, p) != []
    ensures CommitTheorems.StandingOf(PartOf(s, p)) == CommitTheorems.Batch(OfPartition(s.arrived, p))
  {
    var ms, q := OfPartition(s.arrived, p), PartOf(s, p);
    var n := q.next.value;
    CommitTheorems.OffsetsArrived(ms);
    assert Spec.Arrived(ms, n) <==> ms[0].offset <= n < n || n in q.pending;
    CommitTheorems.GapUnique(ms[0].offset, CommitTheorems.Offsets(ms), n);
    CommitTheorems.GapStandingLog(q, ms);
    CommitTheorems.GapStandingPending(q, ms);
  }

  /** However the process ran, when the coordinator stops after a flush without a refused
      commit, every partition stands exactly where committing the received messages as one
      batch would have left it. */
  lemma CleanFlushIsBatch(c: Config, s: State, es: seq<Event>, t: State, p: int)
    requires Reachable(c, s) && s.mode == Flushing(s.parts.Keys)
    requires Reaches(c, s, es, t) && t.mode.Stopped? && forall k :: 0 <= k < |es| ==> !es[k].CommitRefused?
    requires OfPartition(t.arrived, p) != []
    ensures CommitTheorems.StandingOf(PartOf(t, p)) == CommitTheorems.Batch(OfPartition(t.arrived, p))
  {
    ReachableInv(c, s);
    InvReaches(c, s, es, t);
    FlushProgressReaches(c, s, es, t);
    assert CoordinatedAt(t, p);
    assert p in t.parts;
    DrainedIsBatch(t, p);
  }

  // -------------------------------------------------------------- the job counters

  /** What happened in a run, as the counters are named. */
  function Happened(es: seq<Event>): Tally {
    if es == [] then Tally(0, 0, 0, 0, 0, 0)
    else
      var rest := Happened(es[1..]);
      rest.(received := rest.received + One(es[0].Decode?), skipped := rest.skipped + One(es[0].ClaimTaken?),
            success := rest.success + One(es[0].JobSucceeds?), failed := rest.failed + One(es[0].JobFails?),
            dedupeErrors := rest.dedupeErrors + One(es[0].ClaimFails?),
            cancelled := rest.cancelled + One(es[0].CancelWait?))
  }

  function Plus(a: Tally, b: Tally): Tally {
    Tally(a.received + b.received, a.skipped + b.skipped, a.success + b.success, a.failed + b.failed,
          a.dedupeErrors + b.dedupeErrors, a.cancelled + b.cancelled)
  }

  lemma OneHappened(c: Config, s: State, e: Event, rest: Tally)
    requires Enabled(c, s, e)
    ensures Plus(Apply(c, s, e).tally, rest) ==
            Plus(s.tally, rest.(received := rest.received + One(e.Decode?),
                                skipped := rest.skipped + One(e.ClaimTaken?),
                                success := rest.success + One(e.JobSucceeds?), failed := rest.failed + One(e.JobFails?),
                                dedupeErrors := rest.dedupeErrors + One(e.ClaimFails?),
                                cancelled := rest.cancelled + One(e.CancelWait?)))
  {
  }

  /** Every counter counts its own kind of step and nothing else. */
  lemma {:induction false} CountersCount(c: Config, s: State, es: seq<Event>, t: State)
    requires Reaches(c, s, es, t)
    ensures t.tally == Plus(s.tally, Happened(es))
    decreases |es|
  {
    if es != [] {
      OneHappened(c, s, es[0], Happened(es[1..]));
      CountersCount(c, Apply(c, s, es[0]), es[1..], t);
    }
  }
}
