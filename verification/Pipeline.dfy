/** One worker process as a step system: the dispatch loop, one goroutine per job, the
    bounded commit channel and the coordinator, interleaved in every possible way. */
module Pipeline {
  import opened Common
  import Spec = PartitionCommits

  /** `decodes(m)` says whether the payload of m is a job, `key(m)` is its dedupe key. */
  datatype Config = Config(concurrentJobs: nat, decodes: Message -> bool, key: Message -> string)

  function Capacity(c: Config): nat { 2 * c.concurrentJobs }

  /** Where the dispatch loop is with the message it fetched. */
  datatype Dispatcher =
    | Fetching
    | Decoding(m: Message)
    | Claiming(m: Message)  // counted as received, dedupe answer outstanding
    | Sending(m: Message)   // on its way straight to the commit channel
    | Waiting(m: Message)   // claimed, no slot yet
    | Acquired(m: Message)  // holds a slot, goroutine not started yet

  /** Where a job goroutine is. The last four stretches are its deferred block: gauge
      down, slot back, wait group down, and only then the send. */
  datatype Phase = Handling | Publishing | Ungauged | Released | Done

  predicate HasGauge(p: Phase) { p.Handling? || p.Publishing? }
  predicate HasSlot(p: Phase) { HasGauge(p) || p.Ungauged? }
  predicate InGroup(p: Phase) { HasSlot(p) || p.Released? }

  /** The coordinator goroutine. `rest` is absent in an ordinary drain and otherwise the
      partitions its final flush still has to visit. */
  datatype Mode =
    | Receiving
    | Draining(p: int, rest: Option<set<int>>)
    | Committing(p: int, m: Message, rest: Option<set<int>>)
    | Flushing(todo: set<int>)
    | Stopped

  datatype Tally = Tally(received: nat, skipped: nat, success: nat, failed: nat, dedupeErrors: nat, cancelled: nat)

  datatype State = State(
    fetched: seq<Message>,
    dispatcher: Dispatcher,
    jobs: map<Message, Phase>,
    channel: seq<Message>,
    arrived: seq<Message>,  // everything the coordinator has received, in order
    mode: Mode,
    parts: map<int, Spec.Partition>,
    dropped: set<Message>,
    claimed: set<string>,
    slots: int,
    inFlight: int,
    group: int,
    tally: Tally,
    spawned: seq<Message>)  // every message a goroutine was started for

  const START := State([], Fetching, map[], [], [], Receiving, map[], {}, {}, 0, 0, 0, Tally(0, 0, 0, 0, 0, 0), [])

  datatype Event =
    | Fetch(m: Message)
    | DecodeFails
    | Decode
    | ClaimFails
    | ClaimTaken
    | ClaimWon
    | OtherWorkerClaims(k: string)
    | CancelWait
    | AcquireSlot
    | Spawn
    | DispatcherSends
    | JobSucceeds(m: Message)
    | JobFails(m: Message)
    | LowerGauge(m: Message)
    | ReleaseSlot(m: Message)
    | LeaveGroup(m: Message)
    | JobSends(m: Message)
    | Receive
    | TakeNext
    | NothingNext
    | CommitAccepted
    | CommitRefused
    | BeginFlush
    | FlushPartition(p: int)
    | EndFlush

  function PartOf(s: State, p: int): Spec.Partition {
    if p in s.parts then s.parts[p] else Spec.FRESH
  }

  predicate InPhase(s: State, m: Message, p: Phase) { m in s.jobs && s.jobs[m] == p }

  function AfterDrain(rest: Option<set<int>>): Mode {
    if rest.None? then Receiving else Flushing(rest.value)
  }

  /** Offsets of a partition are delivered in increasing order. */
  ghost predicate Follows(fetched: seq<Message>, m: Message) {
    forall n :: n in fetched && n.partition == m.partition ==> n.offset < m.offset
  }

  ghost predicate Enabled(c: Config, s: State, e: Event) {
    match e
    case Fetch(m) => s.dispatcher.Fetching? && Follows(s.fetched, m)
    case DecodeFails => s.dispatcher.Decoding? && !c.decodes(s.dispatcher.m)
    case Decode => s.dispatcher.Decoding? && c.decodes(s.dispatcher.m)
    case ClaimFails => s.dispatcher.Claiming?
    case ClaimTaken => s.dispatcher.Claiming? && c.key(s.dispatcher.m) in s.claimed
    case ClaimWon => s.dispatcher.Claiming? && c.key(s.dispatcher.m) !in s.claimed
    case OtherWorkerClaims(_) => true
    case CancelWait => s.dispatcher.Waiting?
    case AcquireSlot => s.dispatcher.Waiting? && s.slots < c.concurrentJobs
    case Spawn => s.dispatcher.Acquired?
    case DispatcherSends => s.dispatcher.Sending? && |s.channel| < Capacity(c)
    case JobSucceeds(m) => InPhase(s, m, Handling)
    case JobFails(m) => InPhase(s, m, Handling)
    case LowerGauge(m) => InPhase(s, m, Publishing)
    case ReleaseSlot(m) => InPhase(s, m, Ungauged)
    case LeaveGroup(m) => InPhase(s, m, Released)
    case JobSends(m) => InPhase(s, m, Done) && |s.channel| < Capacity(c)
    case Receive => s.mode.Receiving? && s.channel != []
    case TakeNext => s.mode.Draining? && Spec.Expected(PartOf(s, s.mode.p)) in PartOf(s, s.mode.p).pending
    case NothingNext => s.mode.Draining? && Spec.Expected(PartOf(s, s.mode.p)) !in PartOf(s, s.mode.p).pending
    case CommitAccepted => s.mode.Committing?
    case CommitRefused => s.mode.Committing?
    case BeginFlush => s.mode.Receiving?
    case FlushPartition(p) => s.mode.Flushing? && p in s.mode.todo
    case EndFlush => s.mode.Flushing? && s.mode.todo == {}
  }

  ghost function Apply(c: Config, s: State, e: Event): State
    requires Enabled(c, s, e)
  {
    var d, t := s.dispatcher, s.tally;
    match e
    case Fetch(m) => s.(fetched := s.fetched + [m], dispatcher := Decoding(m))
    case DecodeFails => s.(dispatcher := Sending(d.m))
    case Decode => s.(dispatcher := Claiming(d.m), tally := t.(received := t.received + 1))
    case ClaimFails =>
      s.(dispatcher := Fetching, dropped := s.dropped + {d.m}, tally := t.(dedupeErrors := t.dedupeErrors + 1))
    case ClaimTaken => s.(dispatcher := Sending(d.m), tally := t.(skipped := t.skipped + 1))
    case ClaimWon => s.(dispatcher := Waiting(d.m), claimed := s.claimed + {c.key(d.m)})
    case OtherWorkerClaims(k) => s.(claimed := s.claimed + {k})
    case CancelWait =>
      s.(dispatcher := Fetching, dropped := s.dropped + {d.m}, tally := t.(cancelled := t.cancelled + 1))
    case AcquireSlot => s.(dispatcher := Acquired(d.m), slots := s.slots + 1)
    case Spawn =>
      s.(dispatcher := Fetching, jobs := s.jobs[d.m := Handling], inFlight := s.inFlight + 1, group := s.group + 1,
         spawned := s.spawned + [d.m])
    case DispatcherSends => s.(dispatcher := Fetching, channel := s.channel + [d.m])
    case JobSucceeds(m) => s.(jobs := s.jobs[m := Publishing], tally := t.(success := t.success + 1))
    case JobFails(m) => s.(jobs := s.jobs[m := Publishing], tally := t.(failed := t.failed + 1))
    case LowerGauge(m) => s.(jobs := s.jobs[m := Ungauged], inFlight := s.inFlight - 1)
    case ReleaseSlot(m) => s.(jobs := s.jobs[m := Released], slots := s.slots - 1)
    case LeaveGroup(m) => s.(jobs := s.jobs[m := Done], group := s.group - 1)
    case JobSends(m) => s.(jobs := s.jobs - {m}, channel := s.channel + [m])
    case Receive =>
      var m := s.channel[0];
      s.(channel := s.channel[1..], arrived := s.arrived + [m], mode := Draining(m.partition, None),
         parts := s.parts[m.partition := Spec.Enqueue(PartOf(s, m.partition), m)])
    case TakeNext =>
      var p := PartOf(s, s.mode.p);
      s.(mode := Committing(s.mode.p, p.pending[Spec.Expected(p)], s.mode.rest),
         parts := s.parts[s.mode.p := Spec.Take(p)])
    case NothingNext => s.(mode := AfterDrain(s.mode.rest))
    case CommitAccepted =>
      s.(mode := Draining(s.mode.p, s.mode.rest),
         parts := s.parts[s.mode.p := Spec.Accept(PartOf(s, s.mode.p), s.mode.m)])
    case CommitRefused =>
      s.(mode := AfterDrain(s.mode.rest),
         parts := s.parts[s.mode.p := Spec.Requeue(PartOf(s, s.mode.p), s.mode.m)])
    case BeginFlush => s.(mode := Flushing(s.parts.Keys))
    case FlushPartition(p) => s.(mode := Draining(p, Some(s.mode.todo - {p})))
    case EndFlush => s.(mode := Stopped)
  }

  /** `es` is a run of the worker from s to t. */
  ghost predicate Reaches(c: Config, s: State, es: seq<Event>, t: State)
    decreases |es|
  {
    if es == [] then s == t
    else Enabled(c, s, es[0]) && Reaches(c, Apply(c, s, es[0]), es[1..], t)
  }
}
