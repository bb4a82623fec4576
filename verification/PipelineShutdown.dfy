/** What the end of the coordinator does to the messages that still have to be sent. */
module PipelineShutdown {
  import opened Common
  import opened Pipeline
  import opened PipelineInvariants
  import opened PipelineTheorems
  import opened PipelineProgress
  import Spec = PartitionCommits

  /** The channel is full and the coordinator, in its final flush or stopped, will not receive
      again: whoever is sending sends for ever. */
  predicate Hung(c: Config, s: State) {
    s.dispatcher.Sending? && !Serving(s) && |s.channel| >= Capacity(c)
  }

  lemma ServingIsOver(c: Config, s: State, e: Event)
    requires Enabled(c, s, e) && !Serving(s)
    ensures !Serving(Apply(c, s, e)) && s.channel <= Apply(c, s, e).channel
  {
  }

  lemma HungStep(c: Config, s: State, e: Event)
    requires Enabled(c, s, e) && Hung(c, s)
    ensures Hung(c, Apply(c, s, e)) && Apply(c, s, e).dispatcher == s.dispatcher
    ensures Apply(c, s, e).channel == s.channel && Apply(c, s, e).fetched == s.fetched
  {
    ServingIsOver(c, s, e);
  }

  /** Such a state never ends: the dispatch loop fetches nothing and does not return. */
  lemma {:induction false} HungForever(c: Config, s: State, es: seq<Event>, t: State)
    requires Reaches(c, s, es, t) && Hung(c, s)
    ensures Hung(c, t) && t.dispatcher == s.dispatcher && t.channel == s.channel && t.fetched == s.fetched
    decreases |es|
  {
    if es != [] {
      HungStep(c, s, es[0]);
      HungForever(c, Apply(c, s, es[0]), es[1..], t);
    }
  }

  // ------------------------------------------------------------------ and only then

  /** The coordinator finishes what it is at and is ready to receive. */
  lemma {:induction false} BecomesReady(c: Config, s: State) returns (es: seq<Event>, t: State)
    requires Serving(s)
    ensures Reaches(c, s, es, t) && t.mode.Receiving? && t.dispatcher == s.dispatcher && t.channel == s.channel
    decreases Work(s)
  {
    if s.mode.Receiving? {
      return [], s;
    }
    var e := CoordinatorStep(s);
    CoordinatorCan(c, s);
    CoordinatorWorks(c, s, e);
    var u := Apply(c, s, e);
    assert u.dispatcher == s.dispatcher && u.channel == s.channel;
    var rest;
    rest, t := BecomesReady(c, u);
    es := [e] + rest;
    assert es[1..] == rest;
  }

  lemma {:induction false} ReachesConcat(c: Config, s: State, es: seq<Event>, t: State, fs: seq<Event>, u: State)
    requires Reaches(c, s, es, t) && Reaches(c, t, fs, u)
    ensures Reaches(c, s, es + fs, u)
    decreases |es|
  {
    if es == [] {
      assert es + fs == fs;
    } else {
      ReachesConcat(c, Apply(c, s, es[0]), es[1..], t, fs, u);
      assert (es + fs)[1..] == es[1..] + fs;
    }
  }

  lemma SendsAtOnce(c: Config, s: State) returns (t: State)
    requires s.dispatcher.Sending? && |s.channel| < Capacity(c)
    ensures Reaches(c, s, [DispatcherSends], t) && t.dispatcher.Fetching?
  {
    t := Apply(c, s, DispatcherSends);
    assert [DispatcherSends][1..] == [];
  }

  lemma ReceivesThenSends(c: Config, s: State) returns (t: State)
    requires s.dispatcher.Sending? && s.mode.Receiving? && s.channel != [] && |s.channel| <= Capacity(c)
    ensures Reaches(c, s, [Receive, DispatcherSends], t) && t.dispatcher.Fetching?
  {
    var u := Apply(c, s, Receive);
    t := SendsAtOnce(c, u);
    assert [Receive, DispatcherSends][1..] == [DispatcherSends];
  }

  /** Otherwise the send can still happen. */
  lemma CanStillSend(c: Config, s: State) returns (es: seq<Event>, t: State)
    requires c.concurrentJobs > 0 && |s.channel| <= Capacity(c) && s.dispatcher.Sending? && !Hung(c, s)
    ensures Reaches(c, s, es, t) && t.dispatcher.Fetching?
  {
    if |s.channel| < Capacity(c) {
      es := [DispatcherSends];
      t := SendsAtOnce(c, s);
    } else {
      var fs, u := BecomesReady(c, s);
      t := ReceivesThenSends(c, u);
      ReachesConcat(c, s, fs, u, [Receive, DispatcherSends], t);
      es := fs + [Receive, DispatcherSends];
    }
  }

  /** The dispatcher never gets past its send. */
  ghost predicate StuckForever(c: Config, s: State) {
    forall es, t :: Reaches(c, s, es, t) ==> t.dispatcher == s.dispatcher
  }

  /** Exactly when a send on the commit channel blocks for ever: when the channel is full and
      the coordinator no longer serves. */
  lemma StuckExactly(c: Config, s: State)
    requires Reachable(c, s) && c.concurrentJobs > 0 && s.dispatcher.Sending?
    ensures StuckForever(c, s) <==> |s.channel| == Capacity(c) && !Serving(s)
  {
    SlotsAndCounters(c, s);
    if Hung(c, s) {
      forall es, t | Reaches(c, s, es, t) ensures t.dispatcher == s.dispatcher { HungForever(c, s, es, t); }
    } else {
      var es, t := CanStillSend(c, s);
    }
  }

  // ---------------------------------------------------------------- and it happens

  /** `ms` were fetched, did not decode and wait in the channel. */
  function Filled(ms: seq<Message>): State { START.(fetched := ms, channel := ms) }

  ghost predicate Undecodable(c: Config, ms: seq<Message>) {
    && (forall i :: 0 <= i < |ms| ==> !c.decodes(ms[i]))
    && (forall i, j :: 0 <= i < j < |ms| && ms[i].partition == ms[j].partition ==> ms[i].offset < ms[j].offset)
  }

  /** One more of them, up to the send. */
  lemma FetchOne(c: Config, ms: seq<Message>, m: Message)
    requires Reachable(c, Filled(ms)) && Undecodable(c, ms + [m])
    ensures Reachable(c, Filled(ms).(fetched := ms + [m], dispatcher := Sending(m)))
  {
    var s := Filled(ms);
    forall n | n in s.fetched && n.partition == m.partition ensures n.offset < m.offset {
      var i :| 0 <= i < |ms| && ms[i] == n;
      assert (ms + [m])[i] == n && (ms + [m])[|ms|] == m;
    }
    ReachableStep(c, s, Fetch(m));
    assert (ms + [m])[|ms|] == m;
    ReachableStep(c, Apply(c, s, Fetch(m)), DecodeFails);
  }

  /** The channel holds two messages per slot. */
  lemma {:induction false} FillReachable(c: Config, ms: seq<Message>)
    requires Undecodable(c, ms) && |ms| <= 2 * c.concurrentJobs
    ensures Reachable(c, Filled(ms))
  {
    if ms == [] {
      assert Reaches(c, START, [], START);
    } else {
      var front, m := ms[..|ms| - 1], ms[|ms| - 1];
      assert ms == front + [m];
      assert Undecodable(c, front) by { assert forall i :: 0 <= i < |front| ==> front[i] == ms[i]; }
      FillReachable(c, front);
      FetchOne(c, front, m);
      var s := Filled(front).(fetched := ms, dispatcher := Sending(m));
      assert Apply(c, s, DispatcherSends) == Filled(ms);
      ReachableStep(c, s, DispatcherSends);
    }
  }

  /** With any number of slots: one message more than the channel holds, none of which
      decodes, and a shutdown before the coordinator has received any of them. */
  lemma ShutdownCanHang(c: Config, ms: seq<Message>)
    requires c.concurrentJobs > 0 && Undecodable(c, ms) && |ms| == 2 * c.concurrentJobs + 1
    ensures exists s :: Reachable(c, s) && s.mode.Stopped? && s.dispatcher.Sending? && StuckForever(c, s)
  {
    var front, m := ms[..|ms| - 1], ms[|ms| - 1];
    assert ms == front + [m];
    assert Undecodable(c, front) by { assert forall i :: 0 <= i < |front| ==> front[i] == ms[i]; }
    FillReachable(c, front);
    FetchOne(c, front, m);
    var s := Filled(front).(fetched := ms, dispatcher := Sending(m));
    StopsAtOnce(c, s);
    StuckExactly(c, s.(mode := Stopped));
  }

  lemma StopsAtOnce(c: Config, s: State)
    requires Reachable(c, s) && s.mode.Receiving? && s.parts == map[]
    ensures Reachable(c, s.(mode := Stopped))
  {
    ReachableStep(c, s, BeginFlush);
    var t := s.(mode := Flushing({}));
    assert s.parts.Keys == {} && Apply(c, s, BeginFlush) == t;
    ReachableStep(c, t, EndFlush);
  }
}
