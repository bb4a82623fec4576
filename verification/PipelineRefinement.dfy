/** The coordinator inside the worker process refines the coordinator on its own: whatever
    is interleaved with it, each partition stands where its specification says. */
module PipelineRefinement {
  import opened Common
  import opened Pipeline
  import opened PipelineInvariants
  import opened PipelineTheorems
  import opened PipelineProgress
  import Coordinator = CommitCoordinator
  import Spec = PartitionCommits
  import CommitTheorems

  type Oracle = (int, nat) -> bool

  /** The broker's answer in this step, if it gives one, is the one of `outcome`. */
  predicate Answers(s: State, e: Event, outcome: Oracle) {
    (e.CommitAccepted? || e.CommitRefused?) && s.mode.Committing? ==>
      (e.CommitAccepted? <==> outcome(s.mode.p, PartOf(s, s.mode.p).attempts))
  }

  /** A run in which `outcome(p, k)` answers the k-th commit attempt on partition p. */
  ghost predicate ReachesWith(c: Config, s: State, es: seq<Event>, t: State, outcome: Oracle)
    decreases |es|
  {
    if es == [] then s == t
    else
      && Enabled(c, s, es[0]) && Answers(s, es[0], outcome)
      && ReachesWith(c, Apply(c, s, es[0]), es[1..], t, outcome)
  }

  // ------------------------------------------------------------------ every run has one

  function Attempts(s: State, p: int): nat { PartOf(s, p).attempts }

  ghost predicate SameFrom(s: State, a: Oracle, b: Oracle) {
    forall p, k: nat :: Attempts(s, p) <= k ==> a(p, k) == b(p, k)
  }

  lemma AttemptsGrow(c: Config, s: State, e: Event, p: int)
    requires Enabled(c, s, e)
    ensures Attempts(s, p) <= Attempts(Apply(c, s, e), p)
  {
  }

  /** Answers that are already given do not matter. */
  lemma {:induction false} ForgetPast(c: Config, s: State, es: seq<Event>, t: State, a: Oracle, b: Oracle)
    requires ReachesWith(c, s, es, t, a) && SameFrom(s, a, b)
    ensures ReachesWith(c, s, es, t, b)
    decreases |es|
  {
    if es != [] {
      forall p ensures Attempts(s, p) <= Attempts(Apply(c, s, es[0]), p) { AttemptsGrow(c, s, es[0], p); }
      ForgetPast(c, Apply(c, s, es[0]), es[1..], t, a, b);
    }
  }

  /** Every run is a run with some answers. */
  lemma {:induction false} SomeAnswers(c: Config, s: State, es: seq<Event>, t: State) returns (outcome: Oracle)
    requires Reaches(c, s, es, t)
    ensures ReachesWith(c, s, es, t, outcome)
    decreases |es|
  {
    if es == [] {
      return (p, k: nat) => true;
    }
    var e, u := es[0], Apply(c, s, es[0]);
    var rest := SomeAnswers(c, u, es[1..], t);
    outcome := rest;
    if e.CommitAccepted? || e.CommitRefused? {
      var q, n := s.mode.p, Attempts(s, s.mode.p);
      outcome := (p, k: nat) => if p == q && k == n then e.CommitAccepted? else rest(p, k);
      assert Attempts(u, q) == n + 1;
      forall p, k: nat | Attempts(u, p) <= k ensures rest(p, k) == outcome(p, k) {}
      ForgetPast(c, u, es[1..], t, rest, outcome);
    }
  }

  // -------------------------------------------------------------------- the refinement

  /** Where the specification puts partition p after the messages received so far. */
  function Specified(s: State, p: int, outcome: Oracle): Spec.Partition {
    Spec.Run(OfPartition(s.arrived, p), Coordinator.OutcomesOf(outcome, p))
  }

  function AfterFlush(s: State, p: int, outcome: Oracle): Spec.Partition {
    Spec.RunAndFlush(OfPartition(s.arrived, p), Coordinator.OutcomesOf(outcome, p))
  }

  /** The place partition p has reached, or is on its way to. */
  ghost predicate InStep(s: State, p: int, outcome: Oracle) {
    var ok := Coordinator.OutcomesOf(outcome, p);
    match s.mode
    case Receiving => PartOf(s, p) == Specified(s, p, outcome)
    case Draining(q, rest) =>
      if p == q then Spec.Drain(PartOf(s, p), ok) == Target(s, p, rest, outcome) && Unlisted(p, rest)
      else PartOf(s, p) == Listed(s, p, rest, outcome)
    case Committing(q, _, rest) =>
      if p == q then Spec.Drain(Settled(s, p), ok) == Target(s, p, rest, outcome) && Unlisted(p, rest)
      else PartOf(s, p) == Listed(s, p, rest, outcome)
    case Flushing(todo) => PartOf(s, p) == Listed(s, p, Some(todo), outcome)
    case Stopped => PartOf(s, p) == AfterFlush(s, p, outcome)
  }

  predicate Unlisted(p: int, rest: Option<set<int>>) { rest.Some? ==> p !in rest.value }

  function Target(s: State, p: int, rest: Option<set<int>>, outcome: Oracle): Spec.Partition {
    if rest.None? then Specified(s, p, outcome) else AfterFlush(s, p, outcome)
  }

  function Listed(s: State, p: int, rest: Option<set<int>>, outcome: Oracle): Spec.Partition {
    if rest.None? || p in rest.value then Specified(s, p, outcome) else AfterFlush(s, p, outcome)
  }

  lemma DrainNothing(q: Spec.Partition, ok: Spec.Outcomes)
    requires Spec.Expected(q) !in q.pending
    ensures Spec.Drain(q, ok) == q
  {
  }

  lemma DrainAccepted(q: Spec.Partition, ok: Spec.Outcomes)
    requires Spec.Expected(q) in q.pending && ok(q.attempts)
    ensures Spec.Drain(q, ok) == Spec.Drain(Spec.Accept(Spec.Take(q), q.pending[Spec.Expected(q)]), ok)
  {
  }

  lemma DrainRefused(q: Spec.Partition, ok: Spec.Outcomes)
    requires Spec.Expected(q) in q.pending && !ok(q.attempts)
    ensures Spec.Drain(q, ok) == Spec.Requeue(Spec.Take(q), q.pending[Spec.Expected(q)])
  {
  }

  lemma ReceiveInStep(c: Config, s: State, p: int, outcome: Oracle)
    requires Enabled(c, s, Receive) && InStep(s, p, outcome)
    ensures InStep(Apply(c, s, Receive), p, outcome)
  {
    var m := s.channel[0];
    OfPartitionSnoc(s.arrived, m, p);
    Spec.RunSnoc(OfPartition(s.arrived, p), m, Coordinator.OutcomesOf(outcome, p));
  }

  lemma TakeInStep(c: Config, s: State, p: int, outcome: Oracle)
    requires Enabled(c, s, TakeNext) && InStep(s, p, outcome)
    ensures InStep(Apply(c, s, TakeNext), p, outcome)
  {
    var t, q := Apply(c, s, TakeNext), PartOf(s, p);
    if p == s.mode.p {
      assert Settled(t, p).pending == q.pending;
      assert Settled(t, p) == q;
    }
  }

  /** An unfinished commit is that of the expected offset. */
  lemma UnderWayMeans(s: State)
    requires CommitUnderWay(s) && s.mode.Committing?
    ensures
      var q := Settled(s, s.mode.p);
      && Spec.Expected(q) in q.pending && q.pending[Spec.Expected(q)] == s.mode.m
      && Spec.Take(q) == PartOf(s, s.mode.p)
  {
    var q, p := Settled(s, s.mode.p), PartOf(s, s.mode.p);
    assert q.pending - {Spec.Expected(q)} == p.pending;
  }

  lemma AnswerInStep(c: Config, s: State, e: Event, p: int, outcome: Oracle)
    requires Enabled(c, s, e) && (e.CommitAccepted? || e.CommitRefused?) && Answers(s, e, outcome)
    requires CommitUnderWay(s) && InStep(s, p, outcome)
    ensures InStep(Apply(c, s, e), p, outcome)
  {
    if p == s.mode.p {
      var q, ok := Settled(s, p), Coordinator.OutcomesOf(outcome, p);
      UnderWayMeans(s);
      assert q.attempts == PartOf(s, p).attempts;
      if e.CommitAccepted? { DrainAccepted(q, ok); } else { DrainRefused(q, ok); }
    }
  }

  lemma NothingInStep(c: Config, s: State, p: int, outcome: Oracle)
    requires Enabled(c, s, NothingNext) && InStep(s, p, outcome)
    ensures InStep(Apply(c, s, NothingNext), p, outcome)
  {
    if p == s.mode.p { DrainNothing(PartOf(s, p), Coordinator.OutcomesOf(outcome, p)); }
  }

  /** A partition nothing was received of is not touched by the flush. */
  lemma NothingToFlush(s: State, p: int, outcome: Oracle)
    requires p !in s.parts && PartOf(s, p) == Specified(s, p, outcome)
    ensures AfterFlush(s, p, outcome) == PartOf(s, p)
  {
    DrainNothing(Spec.FRESH, Coordinator.OutcomesOf(outcome, p));
  }

  lemma FlushInStep(c: Config, s: State, e: Event, p: int, outcome: Oracle)
    requires Enabled(c, s, e) && (e.BeginFlush? || e.FlushPartition? || e.EndFlush?) && InStep(s, p, outcome)
    ensures InStep(Apply(c, s, e), p, outcome)
  {
    if e.BeginFlush? && p !in s.parts { NothingToFlush(s, p, outcome); }
  }

  lemma InStepStep(c: Config, s: State, e: Event, p: int, outcome: Oracle)
    requires Enabled(c, s, e) && Answers(s, e, outcome) && CommitUnderWay(s) && InStep(s, p, outcome)
    ensures InStep(Apply(c, s, e), p, outcome)
  {
    if !CoordinatorEvent(e) {
      SettledByOthers(c, s, e);
      SameInStep(s, Apply(c, s, e), p, outcome);
    } else if e.Receive? {
      ReceiveInStep(c, s, p, outcome);
    } else if e.TakeNext? {
      TakeInStep(c, s, p, outcome);
    } else if e.NothingNext? {
      NothingInStep(c, s, p, outcome);
    } else if e.CommitAccepted? || e.CommitRefused? {
      AnswerInStep(c, s, e, p, outcome);
    } else {
      FlushInStep(c, s, e, p, outcome);
    }
  }

  lemma SameInStep(s: State, t: State, p: int, outcome: Oracle)
    requires InStep(s, p, outcome) && t.parts == s.parts && t.mode == s.mode && t.arrived == s.arrived
    ensures InStep(t, p, outcome)
  {
  }

  lemma {:induction false} InStepReaches(c: Config, s: State, es: seq<Event>, t: State, p: int, outcome: Oracle)
    requires Inv(c, s) && InStep(s, p, outcome) && ReachesWith(c, s, es, t, outcome)
    ensures InStep(t, p, outcome)
    decreases |es|
  {
    if es != [] {
      InStepStep(c, s, es[0], p, outcome);
      InvStep(c, s, es[0]);
      InStepReaches(c, Apply(c, s, es[0]), es[1..], t, p, outcome);
    }
  }

  lemma StartsInStep(p: int, outcome: Oracle)
    ensures InStep(START, p, outcome)
  {
  }

  /** Refinement: however the dispatcher and the jobs are interleaved with it, whenever the
      coordinator is ready to receive, each partition stands where one drain after each
      message received puts it, and when it has stopped, where the flush puts it. */
  lemma CoordinatorRefined(c: Config, es: seq<Event>, t: State, outcome: Oracle, p: int)
    requires ReachesWith(c, START, es, t, outcome)
    ensures t.mode.Receiving? ==>
              PartOf(t, p) == Spec.Run(OfPartition(t.arrived, p), Coordinator.OutcomesOf(outcome, p))
    ensures t.mode.Stopped? ==>
              PartOf(t, p) == Spec.RunAndFlush(OfPartition(t.arrived, p), Coordinator.OutcomesOf(outcome, p))
  {
    StartInv(c);
    StartsInStep(p, outcome);
    InStepReaches(c, START, es, t, p, outcome);
  }

  // ------------------------------------------------------ without a refused commit

  ghost predicate NoRefusal(es: seq<Event>) { forall k :: 0 <= k < |es| ==> !es[k].CommitRefused? }

  lemma {:induction false} AcceptedThroughout(c: Config, s: State, es: seq<Event>, t: State)
    requires Reaches(c, s, es, t) && NoRefusal(es)
    ensures ReachesWith(c, s, es, t, (p, k: nat) => true)
    decreases |es|
  {
    if es != [] { AcceptedThroughout(c, Apply(c, s, es[0]), es[1..], t); }
  }

  lemma {:induction false} NeverFails(s: Spec.Partition, ok: Spec.Outcomes)
    requires forall k: nat :: ok(k)
    ensures Spec.Expected(Spec.Drain(s, ok)) !in Spec.Drain(s, ok).pending
    decreases |s.pending|
  {
    Spec.CommitShrinks(s, ok);
    if Spec.CommitNext(s, ok).1 { NeverFails(Spec.CommitNext(s, ok).0, ok); }
  }

  /** So while no commit is refused nothing due waits for the shutdown: whenever the
      coordinator is ready to receive, no partition has its expected offset buffered, and each
      stands where committing all it received as one batch would have left it. */
  lemma DueIsCommitted(c: Config, es: seq<Event>, t: State, p: int)
    requires Reaches(c, START, es, t) && NoRefusal(es) && t.mode.Receiving?
    ensures Spec.Expected(PartOf(t, p)) !in PartOf(t, p).pending
    ensures OfPartition(t.arrived, p) != [] ==>
              CommitTheorems.StandingOf(PartOf(t, p)) == CommitTheorems.Batch(OfPartition(t.arrived, p))
  {
    var outcome: Oracle := (p, k: nat) => true;
    var ms, ok := OfPartition(t.arrived, p), Coordinator.OutcomesOf(outcome, p);
    AcceptedThroughout(c, START, es, t);
    CoordinatorRefined(c, es, t, outcome, p);
    if ms != [] {
      NeverFails(Spec.Enqueue(Spec.Run(ms[..|ms| - 1], ok), ms[|ms| - 1]), ok);
      assert Reachable(c, t);
      ReachableInv(c, t);
      assert CoordinatedAt(t, p);
      DrainedIsBatch(t, p);
    }
  }

  /** m was received below the first message of its partition, or waits behind an offset that
      was never received. */
  ghost predicate NotDue(t: State, m: Message) {
    var ms := OfPartition(t.arrived, m.partition);
    ms != [] && (m.offset < ms[0].offset || exists d :: ms[0].offset <= d < m.offset && !Spec.Arrived(ms, d))
  }

  lemma BufferedNotDue(t: State, m: Message)
    requires CoordinatedAt(t, m.partition) && t.mode.Receiving? && Buffered(t, m)
    requires Spec.Expected(PartOf(t, m.partition)) !in PartOf(t, m.partition).pending
    ensures NotDue(t, m)
  {
    var q, ms := PartOf(t, m.partition), OfPartition(t.arrived, m.partition);
    assert Settled(t, m.partition) == q && ms != [];
    if ms[0].offset <= m.offset {
      assert ms[0].offset <= q.next.value < m.offset && !Spec.Arrived(ms, q.next.value);
    }
  }

  /** At rest, and without a refused commit so far, every fetched message is committed or
      dropped, or not due. */
  lemma AtRest(c: Config, es: seq<Event>, t: State, m: Message)
    requires Reaches(c, START, es, t) && NoRefusal(es) && Idle(t) && m in t.fetched
    ensures Committed(t, m) || m in t.dropped || NotDue(t, m)
  {
    assert Reachable(c, t);
    DueIsCommitted(c, es, t, m.partition);
    IdleHandedOver(c, t, m);
    ReachableInv(c, t);
    assert CoordinatedAt(t, m.partition);
    if Buffered(t, m) { BufferedNotDue(t, m); }
  }
}
