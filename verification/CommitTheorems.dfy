/** What the commit coordinator promises of one partition, over every sequence of
    completions and every pattern of commit failures. */
module CommitTheorems {
  import opened Common
  import opened PartitionCommits

  // ------------------------------------------------------- the batch reference

  /** Where a partition stands, without the attempt counters. */
  datatype Standing = Standing(next: int, log: seq<Message>, pending: map<int, Message>)

  function StandingOf(s: Partition): Standing {
    Standing(Expected(s), s.log, s.pending)
  }

  ghost function Offsets(ms: seq<Message>): set<int> {
    set m | m in ms :: m.offset
  }

  /** The least number at or above `from` that is not in `offsets`. */
  ghost function Gap(from: int, offsets: set<int>): (n: int)
    ensures from <= n && n !in offsets
    ensures forall k :: from <= k < n ==> k in offsets
    decreases offsets
  {
    if from !in offsets then from
    else
      var n := Gap(from + 1, offsets - {from});
      assert n !in offsets;
      n
  }

  ghost function MessageAt(ms: seq<Message>, o: int): Message
    requires Arrived(ms, o)
  {
    var m :| m in ms && m.offset == o; m
  }

  lemma OffsetsArrived(ms: seq<Message>)
    ensures forall o :: o in Offsets(ms) <==> Arrived(ms, o)
  {
  }

  /** Committing a whole batch at once: from the first completion up to the first
      offset that never completed, everything else staying buffered. */
  ghost function Batch(ms: seq<Message>): Standing
    requires ms != []
  {
    var f := ms[0].offset;
    var n := Gap(f, Offsets(ms));
    OffsetsArrived(ms);
    Standing(n,
             seq(n - f, i requires 0 <= i < n - f => MessageAt(ms, f + i)),
             map o | o in Offsets(ms) && !(f <= o < n) :: MessageAt(ms, o))
  }

  lemma DistinctMessageAt(ms: seq<Message>, m: Message)
    requires DistinctOffsets(ms) && m in ms
    ensures Arrived(ms, m.offset) && MessageAt(ms, m.offset) == m
  {
    var i :| 0 <= i < |ms| && ms[i] == m;
    var n := MessageAt(ms, m.offset);
    var j :| 0 <= j < |ms| && ms[j] == n;
  }

  // ------------------------------------------------------ streaming and batch

  /** Invariant of every run: with `f` the first completed offset, the successful
      commits are exactly f, f+1, .., next-1 in order, and commits and buffer together
      are exactly the completions; with distinct offsets they do not overlap. */
  lemma {:induction false} RunTracks(ms: seq<Message>, ok: Outcomes)
    ensures Tracks(Run(ms, ok), ms) && Tracks(RunAndFlush(ms, ok), ms)
    ensures DistinctOffsets(ms) ==> Separate(Run(ms, ok), ms) && Separate(RunAndFlush(ms, ok), ms)
  {
    if ms == [] {
      assert !exists m :: m in ms;
    } else {
      var front, last := ms[..|ms| - 1], ms[|ms| - 1];
      RunTracks(front, ok);
      assert ms == front + [last];
      assert DistinctOffsets(ms) ==> DistinctOffsets(front) && !Arrived(front, last.offset);
      var s := Run(front, ok);
      EnqueueTracks(s, front, last);
      DrainTracks(Enqueue(s, last), ms, ok);
    }
    DrainTracks(Run(ms, ok), ms, ok);
  }

  /** Among distinct offsets a new completion finds its slot free. */
  lemma DistinctNotBuffered(all: seq<Message>, ms: seq<Message>, m: Message, ok: Outcomes)
    requires DistinctOffsets(all) && ms + [m] <= all
    ensures m.offset !in Run(ms, ok).pending
  {
    RunTracks(ms, ok);
    assert !Arrived(ms, m.offset) by {
      forall n | n in ms ensures n.offset != m.offset {
        var k :| 0 <= k < |ms| && ms[k] == n;
        assert all[k] == (ms + [m])[k] && all[|ms|] == (ms + [m])[|ms|];
      }
    }
  }

  /** Draining never loses a commit, and a drain without a failed attempt stops only
      at an offset that is not buffered. */
  lemma {:induction false} DrainStops(s: Partition, ok: Outcomes)
    ensures s.failures <= Drain(s, ok).failures
    ensures s.log <= Drain(s, ok).log
    ensures Drain(s, ok).failures == s.failures ==> Expected(Drain(s, ok)) !in Drain(s, ok).pending
    decreases |s.pending|
  {
    var (t, again) := CommitNext(s, ok);
    if again {
      CommitShrinks(s, ok);
      DrainStops(t, ok);
    }
  }

  lemma {:induction false} DrainLeavesDue(s: Partition, ok: Outcomes)
    ensures Expected(Drain(s, ok)) in Drain(s, ok).pending <==> Drain(s, ok).failures > s.failures
    ensures Drain(s, ok).failures <= s.failures + 1
    decreases |s.pending|
  {
    var (t, again) := CommitNext(s, ok);
    if again {
      CommitShrinks(s, ok);
      DrainLeavesDue(t, ok);
    }
  }

  /** After each message everything due is committed: the expected offset stays buffered if
      and only if a commit was refused in the drain after that very message. */
  lemma DueWaitsExactly(ms: seq<Message>, m: Message, ok: Outcomes)
    ensures Expected(Run(ms + [m], ok)) in Run(ms + [m], ok).pending <==>
            Run(ms + [m], ok).failures == Run(ms, ok).failures + 1
    ensures Run(ms, ok).failures <= Run(ms + [m], ok).failures <= Run(ms, ok).failures + 1
  {
    RunSnoc(ms, m, ok);
    DrainLeavesDue(Enqueue(Run(ms, ok), m), ok);
    DrainStops(Enqueue(Run(ms, ok), m), ok);
  }

  lemma GapUnique(from: int, offsets: set<int>, n: int)
    requires from <= n && n !in offsets && forall k :: from <= k < n ==> k in offsets
    ensures Gap(from, offsets) == n
  {
    var g := Gap(from, offsets);
    assert g < n ==> g in offsets;
    assert n < g ==> n in offsets;
  }

  /** With repeated offsets too: after a flush without failures the next offset is the
      least one, from the first completion on, that never completed. */
  lemma FlushReachesGap(ms: seq<Message>, ok: Outcomes)
    requires ms != []
    requires RunAndFlush(ms, ok).failures == Run(ms, ok).failures
    ensures Expected(RunAndFlush(ms, ok)) == Gap(ms[0].offset, Offsets(ms))
  {
    var t := RunAndFlush(ms, ok);
    RunTracks(ms, ok);
    DrainStops(Run(ms, ok), ok);
    var n := t.next.value;
    assert !Arrived(ms, n);
    forall k | ms[0].offset <= k < n ensures k in Offsets(ms) {
      assert Arrived(ms, k);
    }
    GapUnique(ms[0].offset, Offsets(ms), n);
  }

  lemma GapStandingLog(t: Partition, ms: seq<Message>)
    requires ms != [] && DistinctOffsets(ms) && Tracks(t, ms)
    requires t.next == Some(Gap(ms[0].offset, Offsets(ms)))
    ensures t.log == Batch(ms).log
  {
    var log := Batch(ms).log;
    forall i | 0 <= i < |t.log| ensures t.log[i] == log[i] {
      DistinctMessageAt(ms, t.log[i]);
    }
  }

  lemma GapStandingPending(t: Partition, ms: seq<Message>)
    requires ms != [] && DistinctOffsets(ms) && Tracks(t, ms) && Separate(t, ms)
    requires t.next == Some(Gap(ms[0].offset, Offsets(ms)))
    ensures t.pending == Batch(ms).pending
  {
    var pending := Batch(ms).pending;
    OffsetsArrived(ms);
    assert t.pending.Keys == pending.Keys;
    forall o | o in t.pending ensures t.pending[o] == pending[o] {
      DistinctMessageAt(ms, t.pending[o]);
    }
  }

  /** Streaming refines batch. */
  lemma StreamingRefinesBatch(ms: seq<Message>, ok: Outcomes)
    requires ms != [] && DistinctOffsets(ms)
    requires RunAndFlush(ms, ok).failures == Run(ms, ok).failures
    ensures StandingOf(RunAndFlush(ms, ok)) == Batch(ms)
  {
    RunTracks(ms, ok);
    FlushReachesGap(ms, ok);
    GapStandingLog(RunAndFlush(ms, ok), ms);
    GapStandingPending(RunAndFlush(ms, ok), ms);
  }

  lemma BatchIgnoresOrder(ms: seq<Message>, ns: seq<Message>)
    requires ms != [] && ns != [] && ms[0] == ns[0]
    requires DistinctOffsets(ms) && DistinctOffsets(ns)
    requires forall m :: m in ms <==> m in ns
    ensures Batch(ms) == Batch(ns)
  {
    assert Offsets(ms) == Offsets(ns);
    forall o | o in Offsets(ms) ensures Arrived(ms, o) && Arrived(ns, o) && MessageAt(ms, o) == MessageAt(ns, o) {
      var m :| m in ms && m.offset == o;
      DistinctMessageAt(ms, m);
      DistinctMessageAt(ns, m);
    }
    assert Batch(ms).log == Batch(ns).log;
    assert Batch(ms).pending == Batch(ns).pending;
  }

  /** Commit failures and arrival order leave no trace: two runs over the same
      completions with the same first one end alike. */
  lemma FailuresAndOrderInvisible(ms: seq<Message>, ns: seq<Message>, ok: Outcomes, ok': Outcomes)
    requires ms != [] && DistinctOffsets(ms) && DistinctOffsets(ns)
    requires forall m :: m in ms <==> m in ns
    requires ns != [] && ms[0] == ns[0]
    requires RunAndFlush(ms, ok).failures == Run(ms, ok).failures
    requires RunAndFlush(ns, ok').failures == Run(ns, ok').failures
    ensures StandingOf(RunAndFlush(ms, ok)) == StandingOf(RunAndFlush(ns, ok'))
  {
    StreamingRefinesBatch(ms, ok);
    StreamingRefinesBatch(ns, ok');
    BatchIgnoresOrder(ms, ns);
  }

  /** With repeated offsets the same holds of everything but the leftover copies: the
      next offset, the committed offsets and the buffered offsets outside f..next-1. */
  lemma OffsetsInvisible(ms: seq<Message>, ns: seq<Message>, ok: Outcomes, ok': Outcomes)
    requires ms != [] && ns != [] && ms[0].offset == ns[0].offset
    requires Offsets(ms) == Offsets(ns)
    requires RunAndFlush(ms, ok).failures == Run(ms, ok).failures
    requires RunAndFlush(ns, ok').failures == Run(ns, ok').failures
    ensures
      var s, t, f := RunAndFlush(ms, ok), RunAndFlush(ns, ok'), ms[0].offset;
      && s.next == t.next
      && |s.log| == |t.log| && (forall i :: 0 <= i < |s.log| ==> s.log[i].offset == t.log[i].offset)
      && (forall o :: !(f <= o < Expected(s)) ==> (o in s.pending <==> o in t.pending))
      && (forall o :: f <= o < Expected(s) ==> (o in s.pending <==> ReceivedLate(ms, ok, o)))
      && (forall o :: f <= o < Expected(t) ==> (o in t.pending <==> ReceivedLate(ns, ok', o)))
  {
    forall o ensures Stranded(RunAndFlush(ms, ok), o) <==> ReceivedLate(ms, ok, o) { StrandedExactly(ms, ok, o); }
    forall o ensures Stranded(RunAndFlush(ns, ok'), o) <==> ReceivedLate(ns, ok', o) { StrandedExactly(ns, ok', o); }
    RunTracks(ms, ok);
    RunTracks(ns, ok');
    FlushReachesGap(ms, ok);
    FlushReachesGap(ns, ok');
    OffsetsArrived(ms);
    OffsetsArrived(ns);
  }

  lemma DrainAccepts(s: Partition, ok: Outcomes, rest: map<int, Message>)
    requires Expected(s) in s.pending && ok(s.attempts)
    requires s.pending - {Expected(s)} == rest && Expected(s) + 1 !in rest
    ensures Drain(s, ok) == Partition(Some(Expected(s) + 1), rest, s.log + [s.pending[Expected(s)]],
                                      s.attempts + 1, s.failures)
  {
    var t := CommitNext(s, ok).0;
    assert Drain(t, ok) == t;
  }

  lemma DrainRefused(s: Partition, ok: Outcomes)
    requires Expected(s) in s.pending && !ok(s.attempts)
    ensures Drain(s, ok) == s.(attempts := s.attempts + 1, failures := s.failures + 1)
  {
    assert (s.pending - {Expected(s)})[Expected(s) := s.pending[Expected(s)]] == s.pending;
  }

  lemma LateCopyStranded(a: Message, b: Message, c: Message, ok: Outcomes)
    requires b.offset == c.offset == a.offset + 1
    requires forall k :: ok(k)
    ensures RunAndFlush([a, b, c], ok).pending == map[c.offset := c]
  {
    assert [a, b, c][..2] == [a, b] && [a, b][..1] == [a] && [a][..0] == [];
    assert Run([a], ok) == Drain(Enqueue(FRESH, a), ok);
    DrainAccepts(Enqueue(FRESH, a), ok, map[]);
    DrainAccepts(Enqueue(Run([a], ok), b), ok, map[]);
    var s := Enqueue(Run([a, b], ok), c);
    assert Drain(s, ok) == s;
  }

  lemma EarlyCopyReplaces(a: Message, b: Message, c: Message, ok: Outcomes)
    requires b.offset == c.offset == a.offset + 1
    requires forall k :: ok(k) <==> k >= 3
    ensures RunAndFlush([a, b, c], ok).pending == map[]
  {
    assert [a, b, c][..2] == [a, b] && [a, b][..1] == [a] && [a][..0] == [];
    assert Run([a], ok) == Drain(Enqueue(FRESH, a), ok);
    DrainRefused(Enqueue(FRESH, a), ok);
    DrainRefused(Enqueue(Run([a], ok), b), ok);
    DrainRefused(Enqueue(Run([a, b], ok), c), ok);
    var s := Run([a, b, c], ok);
    assert s.pending == map[a.offset := a, c.offset := c];
    var t := CommitNext(s, ok).0;
    assert t.pending == map[c.offset := c];
    DrainAccepts(t, ok, map[]);
  }

  /** Leftover copies do depend on failures: a second copy of offset 8 is stranded when
      the first one was already committed, and replaces it when commits were failing. */
  lemma RepeatedOffsetIsVisible()
    ensures
      var ms := [Message(0, 7, "a"), Message(0, 8, "b"), Message(0, 8, "c")];
      && RunAndFlush(ms, k => true).pending == map[8 := ms[2]]
      && RunAndFlush(ms, k => k >= 3).pending == map[]
  {
    LateCopyStranded(Message(0, 7, "a"), Message(0, 8, "b"), Message(0, 8, "c"), k => true);
    EarlyCopyReplaces(Message(0, 7, "a"), Message(0, 8, "b"), Message(0, 8, "c"), k => k >= 3);
  }

  // -------------------------------------------------- blocking and stale offsets

  /** Runs only ever extend the log, and the first completion fixes its start. */
  lemma {:induction false} RunExtends(ms: seq<Message>, ns: seq<Message>, ok: Outcomes)
    ensures Run(ms, ok).log <= Run(ms + ns, ok).log
    decreases |ns|
  {
    if ns == [] {
      assert ms + ns == ms;
    } else {
      var front, last := ns[..|ns| - 1], ns[|ns| - 1];
      RunExtends(ms, front, ok);
      assert (ms + ns)[..|ms + ns| - 1] == ms + front;
      DrainStops(Enqueue(Run(ms + front, ok), last), ok);
    }
  }

  /** Head-of-line blocking: while offset `d`, at or above the expected one, has not
      completed, no offset from `d` on is committed, however the run goes on. */
  lemma HeadOfLineBlocks(ms: seq<Message>, ns: seq<Message>, d: int, ok: Outcomes)
    requires ms != [] && Expected(Run(ms, ok)) <= d && !Arrived(ms + ns, d)
    ensures Expected(RunAndFlush(ms + ns, ok)) <= d
    ensures forall m :: m in RunAndFlush(ms + ns, ok).log ==> m.offset < d
  {
    RunTracks(ms, ok);
    RunTracks(ms + ns, ok);
    var t := RunAndFlush(ms + ns, ok);
    assert d < t.next.value ==> Arrived(ms + ns, d);
  }

  /** In particular the second of two messages with a gap between them stays buffered. */
  lemma BehindGap(a: Message, b: Message, ok: Outcomes)
    requires a.offset + 1 < b.offset
    ensures b.offset in Run([a, b], ok).pending
  {
    RunTracks([a, b], ok);
    assert b in [a, b] && !Arrived([a, b], a.offset + 1);
    assert Arrived([a, b], b.offset);
  }

  // ------------------------------------------------------------ stranded messages

  /** Buffered behind the expected offset, where no drain looks again. */
  ghost predicate Stranded(s: Partition, o: int) {
    s.next.Some? && o in s.pending && o < Expected(s)
  }

  /** Some completion of `ms` carried offset o when the expected offset had passed it. */
  ghost predicate ReceivedLate(ms: seq<Message>, ok: Outcomes, o: int) {
    exists i :: 0 <= i < |ms| && LateAt(ms, ok, o, i)
  }

  ghost predicate LateAt(ms: seq<Message>, ok: Outcomes, o: int, i: nat)
    requires i < |ms|
  {
    ms[i].offset == o && Run(ms[..i], ok).next.Some? && o < Expected(Run(ms[..i], ok))
  }

  lemma EnqueueStrands(s: Partition, m: Message, o: int)
    requires s.next.None? ==> s.pending == map[]
    ensures Stranded(Enqueue(s, m), o) <==>
            Stranded(s, o) || (o == m.offset && s.next.Some? && o < Expected(s))
  {
  }

  lemma CommitStrands(s: Partition, ok: Outcomes, o: int)
    requires s.next.Some?
    ensures CommitNext(s, ok).0.next.Some?
    ensures Stranded(CommitNext(s, ok).0, o) <==> Stranded(s, o)
  {
  }

  lemma {:induction false} DrainStrands(s: Partition, ok: Outcomes, o: int)
    requires s.next.Some?
    ensures Drain(s, ok).next.Some?
    ensures Stranded(Drain(s, ok), o) <==> Stranded(s, o)
    decreases |s.pending|
  {
    CommitStrands(s, ok, o);
    if CommitNext(s, ok).1 {
      CommitShrinks(s, ok);
      DrainStrands(CommitNext(s, ok).0, ok, o);
    }
  }

  lemma LateSnoc(ms: seq<Message>, ok: Outcomes, o: int)
    requires ms != []
    ensures ReceivedLate(ms, ok, o) <==>
            ReceivedLate(ms[..|ms| - 1], ok, o) || LateAt(ms, ok, o, |ms| - 1)
  {
    var front := ms[..|ms| - 1];
    assert forall i :: 0 <= i < |front| ==> front[i] == ms[i] && front[..i] == ms[..i];
    assert forall i :: 0 <= i < |front| ==> (LateAt(front, ok, o, i) <==> LateAt(ms, ok, o, i));
  }

  /** A message is stranded exactly when it was received behind the expected offset:
      for every sequence of completions, repeated offsets included, every pattern of
      failures, and before and after the final flush. */
  lemma {:induction false} StrandedExactly(ms: seq<Message>, ok: Outcomes, o: int)
    ensures Stranded(Run(ms, ok), o) <==> ReceivedLate(ms, ok, o)
    ensures Stranded(RunAndFlush(ms, ok), o) <==> ReceivedLate(ms, ok, o)
  {
    RunTracks(ms, ok);
    if ms == [] {
      assert Drain(FRESH, ok) == FRESH;
    } else {
      var front, last := ms[..|ms| - 1], ms[|ms| - 1];
      var s := Run(front, ok);
      RunTracks(front, ok);
      StrandedExactly(front, ok, o);
      EnqueueStrands(s, last, o);
      DrainStrands(Enqueue(s, last), ok, o);
      DrainStrands(Run(ms, ok), ok, o);
      LateSnoc(ms, ok, o);
    }
  }

  /** And for good: from then on every commit is of a later offset. */
  lemma StrandedForever(ms: seq<Message>, ns: seq<Message>, m: Message, ok: Outcomes)
    requires Run(ms, ok).next.Some? && m.offset < Expected(Run(ms, ok))
    ensures Stranded(Run(ms + [m] + ns, ok), m.offset) && Stranded(RunAndFlush(ms + [m] + ns, ok), m.offset)
    ensures forall k :: |Run(ms, ok).log| <= k < |RunAndFlush(ms + [m] + ns, ok).log| ==>
              RunAndFlush(ms + [m] + ns, ok).log[k].offset > m.offset
  {
    var all := ms + [m] + ns;
    assert all[..|ms|] == ms && all[|ms|] == m;
    assert LateAt(all, ok, m.offset, |ms|);
    StrandedExactly(all, ok, m.offset);
    RunTracks(ms, ok);
    RunTracks(all, ok);
  }

  /** An offset below the first completion is never committed and stays buffered. */
  lemma StaleStaysBuffered(ms: seq<Message>, m: Message, ok: Outcomes)
    requires m in ms && m.offset < ms[0].offset
    ensures m.offset in Run(ms, ok).pending && m.offset in RunAndFlush(ms, ok).pending
    ensures m !in Run(ms, ok).log && m !in RunAndFlush(ms, ok).log
  {
    RunTracks(ms, ok);
    assert Arrived(ms, m.offset);
  }
}
