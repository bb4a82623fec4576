/** One partition of the commit coordinator, as a function of the messages that
    completed and of the outcome of every commit attempt. */
module PartitionCommits {
  import opened Common

  /** `outcomes(k)` says whether the k-th commit attempt of this partition succeeds. */
  type Outcomes = nat -> bool

  /** What the coordinator and the broker know about one partition. `log` holds the
      messages whose commit succeeded, oldest first. */
  datatype Partition = Partition(
    next: Option<int>,
    pending: map<int, Message>,
    log: seq<Message>,
    attempts: nat,
    failures: nat)

  const FRESH := Partition(None, map[], [], 0, 0)

  function Enqueue(s: Partition, m: Message): Partition {
    s.(pending := s.pending[m.offset := m],
       next := if s.next.None? then Some(m.offset) else s.next)
  }

  /** The offset looked up by the next commit; an unseeded partition reads as 0. */
  function Expected(s: Partition): int {
    if s.next.Some? then s.next.value else 0
  }

  /** The three stretches of one commit: the message leaves the buffer, then the
      broker either accepts it or it is put back. */
  function Take(s: Partition): Partition {
    s.(pending := s.pending - {Expected(s)})
  }

  function Accept(s: Partition, m: Message): Partition {
    s.(next := Some(Expected(s) + 1), log := s.log + [m], attempts := s.attempts + 1)
  }

  function Requeue(s: Partition, m: Message): Partition {
    s.(pending := s.pending[Expected(s) := m], attempts := s.attempts + 1, failures := s.failures + 1)
  }

  function CommitNext(s: Partition, ok: Outcomes): (Partition, bool) {
    var next := Expected(s);
    if next !in s.pending then (s, false)
    else
      var m := s.pending[next];
      if ok(s.attempts) then (Accept(Take(s), m), true) else (Requeue(Take(s), m), false)
  }

  function Drain(s: Partition, ok: Outcomes): Partition
    decreases |s.pending|
  {
    var (t, again) := CommitNext(s, ok);
    CommitShrinks(s, ok);
    if again then Drain(t, ok) else t
  }

  /** The partition after the coordinator has received `ms`, one drain per message. */
  function Run(ms: seq<Message>, ok: Outcomes): Partition {
    if ms == [] then FRESH
    else Drain(Enqueue(Run(ms[..|ms| - 1], ok), ms[|ms| - 1]), ok)
  }

  /** The partition after `ms` and the flush at shutdown. */
  function RunAndFlush(ms: seq<Message>, ok: Outcomes): Partition {
    Drain(Run(ms, ok), ok)
  }

  lemma CommitShrinks(s: Partition, ok: Outcomes)
    ensures CommitNext(s, ok).1 ==> |CommitNext(s, ok).0.pending| < |s.pending|
  {
    var (t, again) := CommitNext(s, ok);
    if again {
      assert t.pending.Keys == s.pending.Keys - {Expected(s)};
      assert |t.pending.Keys| < |s.pending.Keys|;
    }
  }

  lemma RunSnoc(ms: seq<Message>, m: Message, ok: Outcomes)
    ensures Run(ms + [m], ok) == Drain(Enqueue(Run(ms, ok), m), ok)
  {
    assert (ms + [m])[..|ms|] == ms;
  }

  // ---------------------------------------------------------------- invariant

  ghost predicate Arrived(ms: seq<Message>, o: int) {
    exists m :: m in ms && m.offset == o
  }

  ghost predicate DistinctOffsets(ms: seq<Message>) {
    forall i, j :: 0 <= i < j < |ms| ==> ms[i].offset != ms[j].offset
  }

  /** Everything that ties a partition to the completions `ms`: nothing before the
      first completion; then the log is exactly the run of offsets f, f+1, .., next-1
      and, with the buffer, covers exactly the completed offsets. */
  ghost predicate Tracks(s: Partition, ms: seq<Message>) {
    && (ms == [] ==> s.next.None? && s.pending == map[] && s.log == [])
    && (ms != [] ==>
          && s.next.Some?
          && s.next.value == ms[0].offset + |s.log|
          && (forall i :: 0 <= i < |s.log| ==> s.log[i].offset == ms[0].offset + i && s.log[i] in ms)
          && (forall o :: o in s.pending ==> s.pending[o].offset == o && s.pending[o] in ms)
          && (forall o :: Arrived(ms, o) <==> ms[0].offset <= o < s.next.value || o in s.pending))
  }

  /** No offset is both committed and buffered. */
  ghost predicate Separate(s: Partition, ms: seq<Message>) {
    ms != [] && s.next.Some? ==> forall o :: o in s.pending ==> !(ms[0].offset <= o < s.next.value)
  }

  lemma EnqueueTracks(s: Partition, ms: seq<Message>, m: Message)
    requires Tracks(s, ms)
    ensures Tracks(Enqueue(s, m), ms + [m])
    ensures Separate(s, ms) && !Arrived(ms, m.offset) ==> Separate(Enqueue(s, m), ms + [m])
  {
    var t, ns := Enqueue(s, m), ms + [m];
    assert ns[0] == if ms == [] then m else ms[0];
    forall o
      ensures Arrived(ns, o) <==> ns[0].offset <= o < t.next.value || o in t.pending
    {
      assert Arrived(ns, o) <==> Arrived(ms, o) || o == m.offset by {
        if o == m.offset { assert m in ns; }
        assert forall x :: x in ns <==> x in ms || x == m;
      }
    }
  }

  lemma CommitTracks(s: Partition, ms: seq<Message>, ok: Outcomes)
    requires Tracks(s, ms)
    ensures Tracks(CommitNext(s, ok).0, ms)
    ensures Separate(s, ms) ==> Separate(CommitNext(s, ok).0, ms)
  {
    var (t, again) := CommitNext(s, ok);
    if Expected(s) in s.pending && !again {
      assert t.pending == s.pending;
    }
  }

  lemma {:induction false} DrainTracks(s: Partition, ms: seq<Message>, ok: Outcomes)
    requires Tracks(s, ms)
    ensures Tracks(Drain(s, ok), ms)
    ensures Separate(s, ms) ==> Separate(Drain(s, ok), ms)
    decreases |s.pending|
  {
    CommitTracks(s, ms, ok);
    var (t, again) := CommitNext(s, ok);
    if again {
      CommitShrinks(s, ok);
      DrainTracks(t, ms, ok);
    }
  }
}
