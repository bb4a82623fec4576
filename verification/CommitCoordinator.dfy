/** The commit coordinator as the worker runs it: maps changed in place, one message at
    a time, against a broker whose answers are arbitrary. Every method is proved against
    the one-partition functions, for all partitions at once. */
module CommitCoordinator {
  import opened Common
  import Spec = PartitionCommits
  import opened CommitTheorems

  /** What the broker has seen of one partition: attempts, refusals, accepted messages. */
  datatype Ledger = Ledger(attempts: nat, refused: nat, log: seq<Message>)

  type Ledgers = map<int, Ledger>
  type Buffers = map<int, map<int, Message>>

  function LedgerOf(l: Ledgers, p: int): Ledger {
    if p in l then l[p] else Ledger(0, 0, [])
  }

  function BufferOf(b: Buffers, p: int): map<int, Message> {
    if p in b then b[p] else map[]
  }

  /** The books kept of all partitions: expected offsets and buffers here, ledgers at the broker. */
  datatype Books = Books(next: map<int, int>, buffers: Buffers, ledgers: Ledgers)

  /** Partition `p` as the specification sees it. */
  function PartOf(books: Books, p: int): Spec.Partition {
    Spec.Partition(if p in books.next then Some(books.next[p]) else None, BufferOf(books.buffers, p),
                   LedgerOf(books.ledgers, p).log, LedgerOf(books.ledgers, p).attempts,
                   LedgerOf(books.ledgers, p).refused)
  }

  /** Partition p has become `part`, and no other has changed. */
  ghost predicate Became(before: Books, after: Books, p: int, part: Spec.Partition) {
    forall q :: PartOf(after, q) == if q == p then part else PartOf(before, q)
  }

  /** `slots` are exactly the buffered (partition, offset) pairs, and every message is
      filed under its own partition. */
  ghost predicate Files(b: Buffers, slots: set<(int, int)>) {
    && (forall p, o {:trigger (p, o) in slots} :: (p, o) in slots <==> o in BufferOf(b, p))
    && (forall p, o {:trigger BufferOf(b, p)[o]} :: o in BufferOf(b, p) ==> BufferOf(b, p)[o].partition == p)
  }

  /** The partitions of both maps agree, and the gauge counts the buffered messages and
      the overwritten ones. */
  ghost predicate Balanced(next: map<int, int>, b: Buffers, slots: set<(int, int)>, gauge: int, overwritten: nat) {
    next.Keys == b.Keys && Files(b, slots) && gauge == |slots| + overwritten
  }

  // The effect of each stretch of code on the maps, as values.

  ghost function Filed(b: Buffers, m: Message): Buffers {
    b[m.partition := BufferOf(b, m.partition)[m.offset := m]]
  }

  ghost function Seeded(next: map<int, int>, m: Message): map<int, int> {
    if m.partition in next then next else next[m.partition := m.offset]
  }

  lemma EnqueueMaps(next: map<int, int>, b: Buffers, slots: set<(int, int)>, l: Ledgers, m: Message)
    requires next.Keys == b.Keys && Files(b, slots)
    ensures Seeded(next, m).Keys == Filed(b, m).Keys
    ensures Files(Filed(b, m), slots + {(m.partition, m.offset)})
    ensures Became(Books(next, b, l), Books(Seeded(next, m), Filed(b, m), l), m.partition,
                   Spec.Enqueue(PartOf(Books(next, b, l), m.partition), m))
  {
    var b' := Filed(b, m);
    forall p, o | o in BufferOf(b', p) ensures BufferOf(b', p)[o].partition == p {
      assert o in BufferOf(b, p) ==> BufferOf(b, p)[o].partition == p;
    }
  }

  function Taken(b: Buffers, p: int, o: int): Buffers {
    b[p := BufferOf(b, p) - {o}]
  }

  function Answered(l: Ledgers, m: Message, ok: bool): Ledgers {
    var was := LedgerOf(l, m.partition);
    l[m.partition := if ok then Ledger(was.attempts + 1, was.refused, was.log + [m])
                     else Ledger(was.attempts + 1, was.refused + 1, was.log)]
  }

  function OutcomesOf(outcome: (int, nat) -> bool, p: int): Spec.Outcomes {
    (k: nat) => outcome(p, k)
  }

  /** The attempts, by partition and number, that the broker has refused. */
  ghost function Refusals(l: Ledgers, outcome: (int, nat) -> bool): set<(int, nat)> {
    set p, k: nat | p in l && k < l[p].attempts && !outcome(p, k) :: (p, k)
  }

  lemma RefusalsNext(l: Ledgers, m: Message, outcome: (int, nat) -> bool)
    ensures
      var p, k := m.partition, LedgerOf(l, m.partition).attempts;
      && (p, k) !in Refusals(l, outcome)
      && Refusals(Answered(l, m, outcome(p, k)), outcome) ==
         Refusals(l, outcome) + if outcome(p, k) then {} else {(p, k)}
  {
    var p, k := m.partition, LedgerOf(l, m.partition).attempts;
    var l' := Answered(l, m, outcome(p, k));
    forall q, i: nat
      ensures (q, i) in Refusals(l', outcome) <==>
              (q, i) in Refusals(l, outcome) || (!outcome(p, k) && (q, i) == (p, k))
    {
    }
  }

  /** An answered attempt is one more refusal, or none. */
  lemma RefusalsGrow(l: Ledgers, m: Message, outcome: (int, nat) -> bool)
    ensures
      var ok := outcome(m.partition, LedgerOf(l, m.partition).attempts);
      |Refusals(Answered(l, m, ok), outcome)| == |Refusals(l, outcome)| + if ok then 0 else 1
  {
    RefusalsNext(l, m, outcome);
  }

  lemma TakeBalanced(next: map<int, int>, b: Buffers, slots: set<(int, int)>, gauge: int, overwritten: nat,
                     p: int, o: int)
    requires Balanced(next, b, slots, gauge, overwritten) && p in b && o in b[p]
    ensures (p, o) in slots && b[p][o].partition == p
    ensures Balanced(next[p := o + 1], Taken(b, p, o), slots - {(p, o)}, gauge - 1, overwritten)
    ensures slots - {(p, o)} + {(p, o)} == slots
  {
    assert (p, o) in slots && BufferOf(b, p)[o].partition == p;
    var b' := Taken(b, p, o);
    forall q, r | r in BufferOf(b', q) ensures BufferOf(b', q)[r].partition == q {
      assert r in BufferOf(b, q) && BufferOf(b, q)[r].partition == q;
    }
  }

  lemma AcceptMaps(next: map<int, int>, b: Buffers, l: Ledgers, m: Message, ok: Spec.Outcomes)
    requires m.partition in next && next[m.partition] in BufferOf(b, m.partition)
    requires BufferOf(b, m.partition)[next[m.partition]] == m && ok(LedgerOf(l, m.partition).attempts)
    ensures
      var p := m.partition;
      var next', b', l' := next[p := next[p] + 1], Taken(b, p, next[p]), Answered(l, m, true);
      var r := Spec.CommitNext(PartOf(Books(next, b, l), p), ok);
      r.1 && Became(Books(next, b, l), Books(next', b', l'), p, r.0)
  {
  }

  lemma RequeueMaps(next: map<int, int>, b: Buffers, l: Ledgers, m: Message, ok: Spec.Outcomes)
    requires m.partition in next && next[m.partition] in BufferOf(b, m.partition)
    requires BufferOf(b, m.partition)[next[m.partition]] == m && !ok(LedgerOf(l, m.partition).attempts)
    ensures
      var p, l' := m.partition, Answered(l, m, false);
      var r := Spec.CommitNext(PartOf(Books(next, b, l), p), ok);
      !r.1 && Became(Books(next, b, l), Books(next, b, l'), p, r.0)
  {
    var p := m.partition;
    PutBack(b, p, next[p]);
  }

  lemma MissMaps(next: map<int, int>, b: Buffers, l: Ledgers, p: int, ok: Spec.Outcomes)
    requires (if p in next then next[p] else 0) !in BufferOf(b, p)
    ensures
      var r := Spec.CommitNext(PartOf(Books(next, b, l), p), ok);
      !r.1 && Became(Books(next, b, l), Books(next, b, l), p, r.0)
  {
  }

  lemma PutBack(b: Buffers, p: int, o: int)
    requires o in BufferOf(b, p)
    ensures (BufferOf(b, p) - {o})[o := BufferOf(b, p)[o]] == BufferOf(b, p)
    ensures p in b ==> Taken(b, p, o)[p := Taken(b, p, o)[p][o := b[p][o]]] == b
  {
    assert (BufferOf(b, p) - {o})[o := BufferOf(b, p)[o]] == BufferOf(b, p);
  }

  lemma FiledHere(b: Buffers, slots: set<(int, int)>, p: int, o: int)
    requires Files(b, slots) && p in b && o in b[p]
    ensures b[p][o].partition == p
  {
    assert BufferOf(b, p)[o].partition == p;
  }

  /** The message at the expected offset of its partition, about to be committed. */
  ghost predicate Due(books: Books, m: Message) {
    && m.partition in books.next && m.partition in books.buffers
    && books.next[m.partition] in books.buffers[m.partition]
    && books.buffers[m.partition][books.next[m.partition]] == m
  }

  /** What is kept of all partitions, with the gauge, what it counts, and the error counter. */
  datatype Account = Account(books: Books, slots: set<(int, int)>, gauge: int, overwritten: nat,
                             errors: nat)

  /** Maps and gauge balance, and the error counter is the number of refused attempts. */
  ghost predicate InBalance(a: Account, outcome: (int, nat) -> bool) {
    && Balanced(a.books.next, a.books.buffers, a.slots, a.gauge, a.overwritten)
    && a.errors == |Refusals(a.books.ledgers, outcome)|
  }

  /** The step of the specification, and nothing else that is kept has changed. */
  ghost predicate Committed(before: Account, after: Account, p: int, ok: Spec.Outcomes, again: bool) {
    var r := Spec.CommitNext(PartOf(before.books, p), ok);
    && again == r.1 && Became(before.books, after.books, p, r.0)
    && after.overwritten == before.overwritten && after.books.buffers.Keys == before.books.buffers.Keys
  }

  /** A message with the partition and offset of m is buffered. */
  ghost predicate Holds(books: Books, m: Message) { m.offset in PartOf(books, m.partition).pending }

  lemma SlotMeans(b: Buffers, slots: set<(int, int)>, p: int, o: int)
    requires Files(b, slots)
    ensures (p, o) in slots <==> o in BufferOf(b, p)
  {
  }

  lemma OneMoreSlot(slots: set<(int, int)>, slot: (int, int))
    ensures |slots + {slot}| == |slots| + if slot in slots then 0 else 1
  {
    if slot in slots { assert slots + {slot} == slots; }
  }

  /** Making a buffer where there is none, then filing. */
  lemma FiledInSteps(b: Buffers, m: Message)
    ensures
      var c := if m.partition in b then b else b[m.partition := map[]];
      c[m.partition := c[m.partition][m.offset := m]] == Filed(b, m)
  {
  }

  /** Filing m, over an earlier message or not. */
  lemma Received(s: Account, t: Account, m: Message, outcome: (int, nat) -> bool)
    requires InBalance(s, outcome)
    requires
      var slot := (m.partition, m.offset);
      t == Account(Books(Seeded(s.books.next, m), Filed(s.books.buffers, m), s.books.ledgers), s.slots + {slot},
                   s.gauge + 1, s.overwritten + if slot in s.slots then 1 else 0, s.errors)
    ensures InBalance(t, outcome) && t.overwritten == s.overwritten + if Holds(s.books, m) then 1 else 0
    ensures Became(s.books, t.books, m.partition, Spec.Enqueue(PartOf(s.books, m.partition), m))
  {
    EnqueueMaps(s.books.next, s.books.buffers, s.slots, s.books.ledgers, m);
    SlotMeans(s.books.buffers, s.slots, m.partition, m.offset);
    OneMoreSlot(s.slots, (m.partition, m.offset));
  }

  /** Taking m out and having it accepted. */
  lemma Accepted(s: Account, t: Account, m: Message, outcome: (int, nat) -> bool)
    requires InBalance(s, outcome) && Due(s.books, m)
    requires outcome(m.partition, LedgerOf(s.books.ledgers, m.partition).attempts)
    requires
      var p, next, b := m.partition, s.books.next, s.books.buffers;
      t == Account(Books(next[p := next[p] + 1], b[p := b[p] - {next[p]}], Answered(s.books.ledgers, m, true)),
                   s.slots - {(p, next[p])}, s.gauge - 1, s.overwritten, s.errors)
    ensures InBalance(t, outcome) && Committed(s, t, m.partition, OutcomesOf(outcome, m.partition), true)
  {
    var p, next, b := m.partition, s.books.next, s.books.buffers;
    assert InBalance(t, outcome) by {
      RefusalsGrow(s.books.ledgers, m, outcome);
      TakeBalanced(next, b, s.slots, s.gauge, s.overwritten, p, next[p]);
    }
    AcceptMaps(next, b, s.books.ledgers, m, OutcomesOf(outcome, p));
  }

  /** Taking m out and putting it back. */
  lemma Restored(b: Buffers, slots: set<(int, int)>, p: int, o: int)
    requires Files(b, slots) && p in b && o in b[p]
    ensures b[p := b[p] - {o}][p := (b[p] - {o})[o := b[p][o]]] == b
    ensures slots - {(p, o)} + {(p, o)} == slots
  {
    SlotMeans(b, slots, p, o);
    assert (b[p] - {o})[o := b[p][o]] == b[p];
  }

  /** Having it refused, and put back. */
  lemma Refused(s: Account, t: Account, m: Message, outcome: (int, nat) -> bool)
    requires InBalance(s, outcome) && Due(s.books, m)
    requires !outcome(m.partition, LedgerOf(s.books.ledgers, m.partition).attempts)
    requires t == s.(books := s.books.(ledgers := Answered(s.books.ledgers, m, false)), errors := s.errors + 1)
    ensures InBalance(t, outcome) && Committed(s, t, m.partition, OutcomesOf(outcome, m.partition), false)
  {
    RefusalsGrow(s.books.ledgers, m, outcome);
    RequeueMaps(s.books.next, s.books.buffers, s.books.ledgers, m, OutcomesOf(outcome, m.partition));
  }

  lemma NonEmpty(s: set<int>)
    requires s != {}
    ensures exists p :: p in s
  {
    assert (forall p: int :: p !in s) ==> s == {};
  }

  lemma OneLess(all: set<int>, todo: set<int>, p: int)
    requires p in todo && todo <= all
    ensures all - (todo - {p}) == (all - todo) + {p} && |todo - {p}| < |todo|
  {
  }

  lemma NextOfPartition(input: seq<Message>, i: nat)
    requires i < |input|
    ensures forall p :: OfPartition(input[..i + 1], p) ==
              if input[i].partition == p then OfPartition(input[..i], p) + [input[i]] else OfPartition(input[..i], p)
  {
    assert input[..i + 1] == input[..i] + [input[i]];
    forall p ensures OfPartition(input[..i + 1], p) ==
      if input[i].partition == p then OfPartition(input[..i], p) + [input[i]] else OfPartition(input[..i], p)
    {
      OfPartitionSnoc(input[..i], input[i], p);
    }
  }

  /** The partitions of `done` have been drained, the others not touched. */
  ghost predicate Flushed(before: Books, after: Books, outcome: (int, nat) -> bool, done: set<int>) {
    forall p :: PartOf(after, p) ==
                if p in done then Spec.Drain(PartOf(before, p), OutcomesOf(outcome, p)) else PartOf(before, p)
  }

  lemma FlushedOneMore(start: Books, before: Books, after: Books, outcome: (int, nat) -> bool, done: set<int>, p: int)
    requires Flushed(start, before, outcome, done) && p !in done
    requires Became(before, after, p, Spec.Drain(PartOf(before, p), OutcomesOf(outcome, p)))
    ensures Flushed(start, after, outcome, done + {p})
  {
  }

  /** A partition without a buffer has nothing to drain. */
  lemma FlushedAll(start: Books, after: Books, outcome: (int, nat) -> bool)
    requires Flushed(start, after, outcome, start.buffers.Keys)
    ensures forall p :: PartOf(after, p) == Spec.Drain(PartOf(start, p), OutcomesOf(outcome, p))
  {
  }

  /** What the i-th message does to what each partition has received so far. */
  lemma NextRun(input: seq<Message>, i: nat, outcome: (int, nat) -> bool, p: int)
    requires i < |input|
    ensures
      var ok := OutcomesOf(outcome, p);
      var s := Spec.Run(OfPartition(input[..i], p), ok);
      Spec.Run(OfPartition(input[..i + 1], p), ok) ==
      if p == input[i].partition then Spec.Drain(Spec.Enqueue(s, input[i]), ok) else s
  {
    NextOfPartition(input, i);
    Spec.RunSnoc(OfPartition(input[..i], p), input[i], OutcomesOf(outcome, p));
  }

  /** Every partition stands where the messages `ms` alone would have brought it. */
  ghost predicate Ran(books: Books, outcome: (int, nat) -> bool, ms: seq<Message>) {
    forall p :: PartOf(books, p) == Spec.Run(OfPartition(ms, p), OutcomesOf(outcome, p))
  }

  /** Whether the i-th message finds its slot taken. */
  ghost predicate Replaces(input: seq<Message>, outcome: (int, nat) -> bool, i: nat)
    requires i < |input|
  {
    var p := input[i].partition;
    input[i].offset in Spec.Run(OfPartition(input[..i], p), OutcomesOf(outcome, p)).pending
  }

  /** How many of the first n messages replace a buffered one. */
  ghost function Overwrites(input: seq<Message>, outcome: (int, nat) -> bool, n: nat): nat
    requires n <= |input|
  {
    if n == 0 then 0
    else Overwrites(input, outcome, n - 1) + if Replaces(input, outcome, n - 1) then 1 else 0
  }

  /** One round of the receive loop: m is filed and its partition drained. */
  ghost predicate Took(before: Account, after: Account, outcome: (int, nat) -> bool, m: Message) {
    var p := m.partition;
    && Became(before.books, after.books, p,
              Spec.Drain(Spec.Enqueue(PartOf(before.books, p), m), OutcomesOf(outcome, p)))
    && after.overwritten == before.overwritten + if Holds(before.books, m) then 1 else 0
  }

  /** Where the first n messages have brought all partitions and the gauge. */
  ghost predicate TookAll(a: Account, outcome: (int, nat) -> bool, input: seq<Message>, n: nat)
    requires n <= |input|
  {
    Ran(a.books, outcome, input[..n]) && a.overwritten == Overwrites(input, outcome, n)
  }

  lemma TookNone(a: Account, outcome: (int, nat) -> bool, input: seq<Message>)
    requires a.overwritten == 0 && forall p :: PartOf(a.books, p) == Spec.FRESH
    ensures TookAll(a, outcome, input, 0)
  {
  }

  lemma TookOneMore(before: Account, after: Account, outcome: (int, nat) -> bool, input: seq<Message>, i: nat)
    requires i < |input| && TookAll(before, outcome, input, i) && Took(before, after, outcome, input[i])
    ensures TookAll(after, outcome, input, i + 1)
  {
    forall p ensures PartOf(after.books, p) == Spec.Run(OfPartition(input[..i + 1], p), OutcomesOf(outcome, p)) {
      NextRun(input, i, outcome, p);
    }
  }

  lemma TookWhole(a: Account, outcome: (int, nat) -> bool, input: seq<Message>)
    requires TookAll(a, outcome, input, |input|)
    ensures Ran(a.books, outcome, input)
  {
    assert input[..|input|] == input;
  }

  lemma NextIsPrefix(input: seq<Message>, i: nat)
    requires i < |input|
    ensures OfPartition(input[..i], input[i].partition) + [input[i]] <= OfPartition(input, input[i].partition)
  {
    var p := input[i].partition;
    NextOfPartition(input, i);
    assert input == input[..i + 1] + input[i + 1..];
    OfPartitionPrefix(input[..i + 1], input[i + 1..], p);
  }

  lemma DistinctNotReplaced(input: seq<Message>, outcome: (int, nat) -> bool, i: nat)
    requires i < |input| && Spec.DistinctOffsets(OfPartition(input, input[i].partition))
    ensures !Replaces(input, outcome, i)
  {
    var p := input[i].partition;
    NextIsPrefix(input, i);
    DistinctNotBuffered(OfPartition(input, p), OfPartition(input[..i], p), input[i], OutcomesOf(outcome, p));
  }

  /** Without repeated offsets nothing is ever replaced. */
  lemma {:induction false} DistinctNeverReplace(input: seq<Message>, outcome: (int, nat) -> bool, n: nat)
    requires n <= |input| && forall p :: Spec.DistinctOffsets(OfPartition(input, p))
    ensures Overwrites(input, outcome, n) == 0
  {
    if n > 0 {
      DistinctNeverReplace(input, outcome, n - 1);
      DistinctNotReplaced(input, outcome, n - 1);
    }
  }

  /** A repeated offset behind a gap does replace, whatever the broker answers. */
  lemma RepeatBehindGapReplaces(a: Message, b: Message, c: Message, outcome: (int, nat) -> bool)
    requires a.partition == b.partition == c.partition && a.offset + 1 < b.offset == c.offset
    ensures Replaces([a, b, c], outcome, 2) && Overwrites([a, b, c], outcome, 3) > 0
  {
    var p := a.partition;
    OfPartitionSnoc([], a, p);
    OfPartitionSnoc([a], b, p);
    assert [] + [a] == [a] && [a] + [b] == [a, b] && [a, b, c][..2] == [a, b];
    assert OfPartition([a, b, c][..2], p) == [a, b];
    BehindGap(a, b, OutcomesOf(outcome, p));
  }

  /** The broker end of `CommitMessages`: `outcome(p, k)` answers the k-th attempt on p. */
  class Reader {
    const outcome: (int, nat) -> bool
    var ledgers: Ledgers

    constructor (outcome: (int, nat) -> bool)
      ensures this.outcome == outcome && ledgers == map[]
    {
      this.outcome := outcome;
      ledgers := map[];
    }

    function Outcomes(p: int): Spec.Outcomes { OutcomesOf(outcome, p) }

    method CommitMessages(m: Message) returns (ok: bool)
      modifies this
      ensures ok == outcome(m.partition, LedgerOf(old(ledgers), m.partition).attempts)
      ensures ledgers == Answered(old(ledgers), m, ok)
    {
      var l := LedgerOf(ledgers, m.partition);
      ok := outcome(m.partition, l.attempts);
      if ok {
        ledgers := ledgers[m.partition := Ledger(l.attempts + 1, l.refused, l.log + [m])];
      } else {
        ledgers := ledgers[m.partition := Ledger(l.attempts + 1, l.refused + 1, l.log)];
      }
    }
  }

  class Coordinator {
    const reader: Reader
    var nextOffset: map<int, int>
    var pending: Buffers
    var pendingGauge: int
    var commitErrors: nat
    ghost var slots: set<(int, int)>  // the buffered (partition, offset) pairs
    ghost var overwritten: nat        // completions that replaced a buffered one

    ghost predicate Valid()
      reads this, reader
    {
      InBalance(Kept(), reader.outcome)
    }

    ghost function Standing(): Books
      reads this, reader
    {
      Books(nextOffset, pending, reader.ledgers)
    }

    ghost function Kept(): Account
      reads this, reader
    {
      Account(Standing(), slots, pendingGauge, overwritten, commitErrors)
    }

    constructor (outcome: (int, nat) -> bool)
      ensures Valid() && fresh(reader) && reader.outcome == outcome
      ensures overwritten == 0
      ensures forall p :: PartOf(Standing(), p) == Spec.FRESH
    {
      reader := new Reader(outcome);
      nextOffset, pending := map[], map[];
      pendingGauge, commitErrors, slots, overwritten := 0, 0, {}, 0;
    }

    method Enqueue(m: Message)
      requires Valid()
      modifies this
      ensures Valid()
      ensures Became(old(Standing()), Standing(), m.partition, Spec.Enqueue(PartOf(old(Standing()), m.partition), m))
      ensures overwritten == old(overwritten) + if Holds(old(Standing()), m) then 1 else 0
    {
      var p, off := m.partition, m.offset;
      overwritten := overwritten + if (p, off) in slots then 1 else 0;
      slots := slots + {(p, off)};
      if p !in pending {
        pending := pending[p := map[]];
      }
      pending := pending[p := pending[p][off := m]];
      assert pending == Filed(old(pending), m) by { FiledInSteps(old(pending), m); }
      pendingGauge := pendingGauge + 1;
      if p !in nextOffset {
        nextOffset := nextOffset[p := off];
      }
      assert nextOffset == Seeded(old(nextOffset), m);
      Received(old(Kept()), Kept(), m, reader.outcome);
    }

    /** Takes a message out of the buffer and has it committed, or puts it back. */
    method Commit(m: Message) returns (ok: bool)
      requires Valid() && Due(Standing(), m)
      modifies this, reader
      ensures Valid() && Committed(old(Kept()), Kept(), m.partition, reader.Outcomes(m.partition), ok)
    {
      var p, next := m.partition, nextOffset[m.partition];
      slots := slots - {(p, next)};
      pending := pending[p := pending[p] - {next}];
      pendingGauge := pendingGauge - 1;
      ok := reader.CommitMessages(m);
      if ok {
        nextOffset := nextOffset[p := next + 1];
        Accepted(old(Kept()), Kept(), m, reader.outcome);
      } else {
        commitErrors := commitErrors + 1;
        slots := slots + {(p, next)};
        pending := pending[p := pending[p][next := m]];
        pendingGauge := pendingGauge + 1;
        Restored(old(pending), old(slots), p, next);
        Refused(old(Kept()), Kept(), m, reader.outcome);
      }
    }

    method CommitNext(partition: int) returns (again: bool)
      requires Valid()
      modifies this, reader
      ensures Valid() && Committed(old(Kept()), Kept(), partition, reader.Outcomes(partition), again)
    {
      var next := if partition in nextOffset then nextOffset[partition] else 0;
      if next !in BufferOf(pending, partition) {
        MissMaps(nextOffset, pending, reader.ledgers, partition, reader.Outcomes(partition));
        return false;
      }
      FiledHere(pending, slots, partition, next);
      again := Commit(pending[partition][next]);
    }

    /** Commits the contiguous offsets of one partition; the others are not touched. */
    method Drain(partition: int)
      requires Valid()
      modifies this, reader
      ensures Valid() && overwritten == old(overwritten) && pending.Keys == old(pending.Keys)
      ensures Became(old(Standing()), Standing(), partition,
                     Spec.Drain(PartOf(old(Standing()), partition), reader.Outcomes(partition)))
    {
      ghost var was, ok := PartOf(Standing(), partition), reader.Outcomes(partition);
      Spec.CommitShrinks(was, ok);
      var again := CommitNext(partition);
      ghost var now := Spec.CommitNext(was, ok).0;
      while again
        invariant Valid() && overwritten == old(overwritten) && pending.Keys == old(pending.Keys)
        invariant Became(old(Standing()), Standing(), partition, now)
        invariant Spec.Drain(was, ok) == if again then Spec.Drain(now, ok) else now
        decreases again, |now.pending|
      {
        Spec.CommitShrinks(now, ok);
        again := CommitNext(partition);
        now := Spec.CommitNext(now, ok).0;
      }
    }

    /** Drains every partition once, in whatever order the map yields them. */
    method Flush()
      requires Valid()
      modifies this, reader
      ensures Valid() && overwritten == old(overwritten) && pending.Keys == old(pending.Keys)
      ensures forall p :: PartOf(Standing(), p) == Spec.Drain(PartOf(old(Standing()), p), reader.Outcomes(p))
    {
      var todo := pending.Keys;
      while todo != {}
        invariant Valid() && overwritten == old(overwritten) && pending.Keys == old(pending.Keys)
        invariant todo <= pending.Keys
        invariant Flushed(old(Standing()), Standing(), reader.outcome, pending.Keys - todo)
        decreases |todo|
      {
        NonEmpty(todo);
        var p :| p in todo;
        ghost var before, done := Standing(), pending.Keys - todo;
        Drain(p);
        FlushedOneMore(old(Standing()), before, Standing(), reader.outcome, done, p);
        OneLess(pending.Keys, todo, p);
        todo := todo - {p};
      }
      FlushedAll(old(Standing()), Standing(), reader.outcome);
    }

    method Receive(m: Message)
      requires Valid()
      modifies this, reader
      ensures Valid() && Took(old(Kept()), Kept(), reader.outcome, m)
    {
      Enqueue(m);
      Drain(m.partition);
    }

    method ReceiveAll(input: seq<Message>)
      requires Valid() && overwritten == 0
      requires forall p :: PartOf(Standing(), p) == Spec.FRESH
      modifies this, reader
      ensures Valid() && TookAll(Kept(), reader.outcome, input, |input|)
    {
      TookNone(Kept(), reader.outcome, input);
      for i := 0 to |input|
        invariant Valid() && TookAll(Kept(), reader.outcome, input, i)
      {
        ghost var before := Kept();
        Receive(input[i]);
        TookOneMore(before, Kept(), reader.outcome, input, i);
      }
    }

    /** The coordinator goroutine over its whole life: `input` is what it receives before
        the channel closes or the context is cancelled. Each partition ends as if it had
        been alone, the gauge is the number of buffered messages plus the number of
        messages that replaced a buffered one, and the error counter is the number of
        attempts that the broker refused. */
    method Run(input: seq<Message>)
      requires Valid() && overwritten == 0
      requires forall p :: PartOf(Standing(), p) == Spec.FRESH
      modifies this, reader
      ensures Valid()
      ensures forall p :: PartOf(Standing(), p) == Spec.RunAndFlush(OfPartition(input, p), reader.Outcomes(p))
      ensures pendingGauge == |slots| + Overwrites(input, reader.outcome, |input|)
      ensures commitErrors == |Refusals(reader.ledgers, reader.outcome)|
    {
      ReceiveAll(input);
      TookWhole(Kept(), reader.outcome, input);
      Flush();
    }
  }
}
