/** At-least-once delivery over any number of partitions, with failing writes. */
module GraphReplay {
  import opened Common
  import opened Registers
  import opened Graph
  import opened GraphTheorems

  /** One delivery: the message at `index` of a partition of either topic. */
  datatype Delivery = Delivery(partition: nat, index: nat)

  predicate Within(d: Delivery, logs: seq<seq<Op>>) { d.partition < |logs| && d.index < |logs[d.partition]| }

  ghost predicate AllWithin(ds: seq<Delivery>, logs: seq<seq<Op>>) {
    forall k :: 0 <= k < |ds| ==> Within(ds[k], logs)
  }

  function OpAt(d: Delivery, logs: seq<seq<Op>>): Op
    requires Within(d, logs)
  {
    logs[d.partition][d.index]
  }

  /** The messages that a sequence of deliveries hands to the writer. */
  function OpsOf(ds: seq<Delivery>, logs: seq<seq<Op>>): seq<Op>
    requires AllWithin(ds, logs)
  {
    if ds == [] then [] else [OpAt(ds[0], logs)] + OpsOf(ds[1..], logs)
  }

  /** The positions of one partition, in order of delivery. */
  function Part(ds: seq<Delivery>, p: nat): seq<nat> {
    if ds == [] then []
    else (if ds[0].partition == p then [ds[0].index] else []) + Part(ds[1..], p)
  }

  /** Every partition is consumed from its start to its end, with any number of restarts at
      or before where the consumer was; partitions interleave in any way. */
  ghost predicate AtLeastOnce(ds: seq<Delivery>, logs: seq<seq<Op>>) {
    && AllWithin(ds, logs)
    && forall p :: 0 <= p < |logs| ==> Walk(Part(ds, p), |logs[p]|)
  }

  /** The deliveries whose write succeeded. */
  function Succeeded(ds: seq<Delivery>, ok: seq<bool>): seq<Delivery>
    requires |ok| == |ds|
  {
    if ds == [] then [] else (if ok[0] then [ds[0]] else []) + Succeeded(ds[1..], ok[1..])
  }

  /** A write may fail as long as the message is delivered again. (A message that does not
      decode changes nothing, so it may be counted either way.) */
  ghost predicate LastSucceeds(ds: seq<Delivery>, ok: seq<bool>)
    requires |ok| == |ds|
  {
    forall k :: 0 <= k < |ds| ==> ok[k] || ds[k] in ds[k + 1..]
  }

  ghost predicate Once(ds: seq<Delivery>) { forall k, l :: 0 <= k < l < |ds| ==> ds[k] != ds[l] }

  /** No delivery twice, and within each partition by increasing position. */
  ghost predicate InOrder(ds: seq<Delivery>) {
    && Once(ds)
    && (forall k, l :: 0 <= k < l < |ds| && ds[k].partition == ds[l].partition ==> ds[k].index < ds[l].index)
  }

  /** A pass without restarts: every message once, each partition in order. */
  ghost predicate CleanPass(ds: seq<Delivery>, logs: seq<seq<Op>>) {
    && AllWithin(ds, logs)
    && (forall d :: Within(d, logs) ==> d in ds)
    && InOrder(ds)
  }

  // ------------------------------------------------------------ what a walk owes

  /** After a message of a partition all later ones of that partition come again. */
  ghost predicate Owed(ds: seq<Delivery>, logs: seq<seq<Op>>) {
    forall k, i: nat :: 0 <= k < |ds| && ds[k].index < i && Within(Delivery(ds[k].partition, i), logs) ==>
      Delivery(ds[k].partition, i) in ds[k + 1..]
  }

  lemma {:induction false} PartMembers(ds: seq<Delivery>, p: nat, i: nat)
    ensures i in Part(ds, p) <==> Delivery(p, i) in ds
  {
    if ds != [] {
      PartMembers(ds[1..], p, i);
      assert ds == [ds[0]] + ds[1..];
    }
  }

  lemma {:induction false} PartSuffix(ds: seq<Delivery>, p: nat, k: nat) returns (q: nat)
    requires k <= |ds|
    ensures q <= |Part(ds, p)| && Part(ds, p)[q..] == Part(ds[k..], p)
  {
    if k == 0 {
      q := 0;
      assert ds[0..] == ds;
    } else {
      var r := PartSuffix(ds[1..], p, k - 1);
      assert ds[1..][k - 1..] == ds[k..];
      q := if ds[0].partition == p then r + 1 else r;
    }
  }

  /** From any point on, a walk still comes to every later position. */
  lemma WalkOwes(w: seq<nat>, n: nat, q: nat, i: nat)
    requires Walk(w, n) && q < |w| && w[q] < i < n
    ensures i in w[q + 1..]
  {
    var p := LastVisit(w, n, i);
    assert q < p;
    assert w[q + 1..][p - q - 1] == i;
  }

  lemma AtLeastOnceOwes(ds: seq<Delivery>, logs: seq<seq<Op>>, k: nat, i: nat)
    requires AtLeastOnce(ds, logs) && k < |ds| && ds[k].index < i && Within(Delivery(ds[k].partition, i), logs)
    ensures Delivery(ds[k].partition, i) in ds[k + 1..]
  {
    var p := ds[k].partition;
    var w := Part(ds, p);
    var q := PartSuffix(ds, p, k);
    assert ds[k..][0] == ds[k] && ds[k..][1..] == ds[k + 1..];
    assert w[q..][0] == ds[k].index && w[q..][1..] == w[q + 1..];
    WalkOwes(w, |logs[p]|, q, i);
    PartMembers(ds[k + 1..], p, i);
  }

  lemma AtLeastOnceDelivers(ds: seq<Delivery>, logs: seq<seq<Op>>, d: Delivery)
    requires AtLeastOnce(ds, logs) && Within(d, logs)
    ensures d in ds
  {
    var p := LastVisit(Part(ds, d.partition), |logs[d.partition]|, d.index);
    PartMembers(ds, d.partition, d.index);
  }

  // ------------------------------------------------------------ the writes that succeed

  lemma SuffixFacts(ds: seq<Delivery>, ok: seq<bool>)
    requires ds != [] && |ok| == |ds| && LastSucceeds(ds, ok)
    ensures LastSucceeds(ds[1..], ok[1..])
  {
    forall k | 0 <= k < |ds| - 1 ensures ok[1..][k] || ds[1..][k] in ds[1..][k + 1..] {
      assert ds[1..][k + 1..] == ds[k + 2..];
      assert ok[k + 1] || ds[k + 1] in ds[k + 2..];
    }
  }

  lemma {:induction false} SucceededMembers(ds: seq<Delivery>, ok: seq<bool>, d: Delivery)
    requires |ok| == |ds| && LastSucceeds(ds, ok)
    ensures d in Succeeded(ds, ok) <==> d in ds
  {
    if ds != [] {
      SuffixFacts(ds, ok);
      SucceededMembers(ds[1..], ok[1..], d);
      assert ds == [ds[0]] + ds[1..];
      assert ok[0] || ds[0] in ds[0 + 1..];
    }
  }

  lemma OwedSuffix(ds: seq<Delivery>, logs: seq<seq<Op>>)
    requires ds != [] && Owed(ds, logs)
    ensures Owed(ds[1..], logs)
  {
    forall k, i: nat | 0 <= k < |ds[1..]| && ds[1..][k].index < i && Within(Delivery(ds[1..][k].partition, i), logs)
      ensures Delivery(ds[1..][k].partition, i) in ds[1..][k + 1..]
    {
      assert ds[1..][k] == ds[k + 1] && ds[1..][k + 1..] == ds[k + 2..];
      assert Delivery(ds[k + 1].partition, i) in ds[k + 1 + 1..];
    }
  }

  lemma OwedCons(d: Delivery, ds: seq<Delivery>, logs: seq<seq<Op>>)
    requires Owed(ds, logs)
    requires forall i: nat :: d.index < i && Within(Delivery(d.partition, i), logs) ==> Delivery(d.partition, i) in ds
    ensures Owed([d] + ds, logs)
  {
    var all := [d] + ds;
    forall k, i: nat | 0 <= k < |all| && all[k].index < i && Within(Delivery(all[k].partition, i), logs)
      ensures Delivery(all[k].partition, i) in all[k + 1..]
    {
      if k == 0 {
        assert all[1..] == ds;
      } else {
        assert all[k] == ds[k - 1] && all[k + 1..] == ds[k - 1 + 1..];
      }
    }
  }

  lemma {:induction false} SucceededOwed(ds: seq<Delivery>, ok: seq<bool>, logs: seq<seq<Op>>)
    requires |ok| == |ds| && LastSucceeds(ds, ok) && Owed(ds, logs)
    ensures Owed(Succeeded(ds, ok), logs)
  {
    if ds != [] {
      SuffixFacts(ds, ok);
      OwedSuffix(ds, logs);
      var rest := Succeeded(ds[1..], ok[1..]);
      SucceededOwed(ds[1..], ok[1..], logs);
      if ok[0] {
        forall i: nat | ds[0].index < i && Within(Delivery(ds[0].partition, i), logs)
          ensures Delivery(ds[0].partition, i) in rest
        {
          assert Delivery(ds[0].partition, i) in ds[0 + 1..];
          SucceededMembers(ds[1..], ok[1..], Delivery(ds[0].partition, i));
        }
        OwedCons(ds[0], rest, logs);
      } else {
        assert [] + rest == rest;
      }
    }
  }

  // ---------------------------------------------------------- the last deliveries

  /** Each delivery at its last occurrence only. */
  function LastOnly(ds: seq<Delivery>): seq<Delivery> {
    if ds == [] then []
    else (if ds[0] in ds[1..] then [] else [ds[0]]) + LastOnly(ds[1..])
  }

  lemma {:induction false} LastOnlyMembers(ds: seq<Delivery>, d: Delivery)
    ensures d in LastOnly(ds) <==> d in ds
  {
    if ds != [] {
      LastOnlyMembers(ds[1..], d);
      assert ds == [ds[0]] + ds[1..];
    }
  }

  lemma InOrderCons(d: Delivery, ds: seq<Delivery>)
    requires InOrder(ds)
    requires forall x :: x in ds ==> x != d && (x.partition == d.partition ==> d.index < x.index)
    ensures InOrder([d] + ds)
  {
    var all := [d] + ds;
    forall k, l | 0 <= k < l < |all|
      ensures all[k] != all[l] && (all[k].partition == all[l].partition ==> all[k].index < all[l].index)
    {
      assert all[l] == ds[l - 1] && (k > 0 ==> all[k] == ds[k - 1]);
    }
  }

  /** After a message of a partition, every later one of that partition that comes at all
      comes again. */
  ghost predicate Renewed(ds: seq<Delivery>) {
    forall k, d :: 0 <= k < |ds| && d in ds && d.partition == ds[k].partition && ds[k].index < d.index ==>
      d in ds[k + 1..]
  }

  /** What `Renewed` says of the first delivery. */
  ghost predicate RenewedFirst(d: Delivery, ds: seq<Delivery>) {
    forall x :: x in ds && x.partition == d.partition && x.index < d.index ==> d in ds
  }

  lemma RenewedSuffix(ds: seq<Delivery>)
    requires ds != [] && Renewed(ds)
    ensures Renewed(ds[1..]) && RenewedFirst(ds[0], ds[1..])
  {
    var rest := ds[1..];
    forall k, d | 0 <= k < |rest| && d in rest && d.partition == rest[k].partition && rest[k].index < d.index
      ensures d in rest[k + 1..]
    {
      assert rest[k] == ds[k + 1] && rest[k + 1..] == ds[k + 1 + 1..] && d in ds;
    }
    forall x | x in rest && x.partition == ds[0].partition && x.index < ds[0].index ensures ds[0] in rest {
      var k :| 1 <= k < |ds| && ds[k] == x;
      assert ds[0] in ds[k + 1..];
      assert forall y :: y in ds[k + 1..] ==> y in rest;
    }
  }

  lemma RenewedCons(ds: seq<Delivery>)
    requires ds != [] && Renewed(ds[1..]) && RenewedFirst(ds[0], ds[1..])
    ensures Renewed(ds)
  {
    var rest := ds[1..];
    assert ds == [ds[0]] + rest;
    forall k, d | 0 <= k < |ds| && d in ds && d.partition == ds[k].partition && ds[k].index < d.index
      ensures d in ds[k + 1..]
    {
      if k > 0 {
        assert ds[k] == rest[k - 1] && ds[k + 1..] == rest[k - 1 + 1..];
        assert d in rest;
      }
    }
  }

  lemma InOrderTail(d: Delivery, ds: seq<Delivery>)
    requires InOrder([d] + ds)
    ensures InOrder(ds) && forall x :: x in ds ==> x != d && (x.partition == d.partition ==> d.index < x.index)
  {
    var all := [d] + ds;
    assert forall k :: 0 <= k < |ds| ==> ds[k] == all[k + 1];
    forall x | x in ds ensures x != d && (x.partition == d.partition ==> d.index < x.index) {
      var k :| 0 <= k < |ds| && ds[k] == x;
      assert all[0] == d && all[k + 1] == x;
    }
  }

  lemma RenewedSplit(ds: seq<Delivery>)
    requires ds != []
    ensures Renewed(ds) <==> Renewed(ds[1..]) && RenewedFirst(ds[0], ds[1..])
  {
    if Renewed(ds) { RenewedSuffix(ds); }
    if Renewed(ds[1..]) && RenewedFirst(ds[0], ds[1..]) { RenewedCons(ds); }
  }

  /** The last deliveries come in the order of their partitions exactly when every message
      is renewed after an earlier one. */
  lemma {:induction false} LastOnlyInOrder(ds: seq<Delivery>)
    ensures InOrder(LastOnly(ds)) <==> Renewed(ds)
  {
    if ds != [] {
      LastOnlyInOrder(ds[1..]);
      RenewedSplit(ds);
      LastOnlySplit(ds);
    }
  }

  lemma LastOnlySplit(ds: seq<Delivery>)
    requires ds != []
    ensures InOrder(LastOnly(ds)) <==> InOrder(LastOnly(ds[1..])) && RenewedFirst(ds[0], ds[1..])
  {
    var rest := ds[1..];
    if ds[0] in rest {
      assert LastOnly(ds) == LastOnly(rest);
    } else {
      forall x ensures x in LastOnly(rest) <==> x in rest { LastOnlyMembers(rest, x); }
      FirstInOrder(ds[0], rest);
    }
  }

  lemma FirstInOrder(d: Delivery, rest: seq<Delivery>)
    requires d !in rest && forall x :: x in LastOnly(rest) <==> x in rest
    ensures InOrder([d] + LastOnly(rest)) <==> InOrder(LastOnly(rest)) && RenewedFirst(d, rest)
  {
    if InOrder(LastOnly(rest)) && RenewedFirst(d, rest) {
      forall x | x in LastOnly(rest) ensures x != d && (x.partition == d.partition ==> d.index < x.index) {
        assert x.partition == d.partition && x.index == d.index ==> x == d;
      }
      InOrderCons(d, LastOnly(rest));
    }
    if InOrder([d] + LastOnly(rest)) { InOrderTail(d, LastOnly(rest)); }
  }

  lemma OwedIsRenewed(ds: seq<Delivery>, logs: seq<seq<Op>>)
    requires AllWithin(ds, logs) && Owed(ds, logs)
    ensures Renewed(ds)
  {
    forall k, d | 0 <= k < |ds| && d in ds && d.partition == ds[k].partition && ds[k].index < d.index
      ensures d in ds[k + 1..]
    {
      assert Within(Delivery(ds[k].partition, d.index), logs) && d == Delivery(ds[k].partition, d.index);
    }
  }

  lemma {:induction false} OpsMembers(ds: seq<Delivery>, logs: seq<seq<Op>>, op: Op)
    requires AllWithin(ds, logs)
    ensures op in OpsOf(ds, logs) <==> exists d :: d in ds && Within(d, logs) && OpAt(d, logs) == op
  {
    if ds != [] {
      OpsMembers(ds[1..], logs, op);
      assert ds == [ds[0]] + ds[1..];
      assert ds[0] in ds && Within(ds[0], logs);
    }
  }

  lemma WrittenTells(ops: seq<Op>, op: Op, id: NodeId, f: Field)
    requires op in ops && Writes(op, id, f).Some?
    ensures LastWritten(ops, id, f).Some?
  {
    var k :| 0 <= k < |ops| && ops[k] == op;
    assert Writings(ops, id, f)[k].Some?;
    LastMeans(Writings(ops, id, f));
  }

  lemma LastOnlyWithin(ds: seq<Delivery>, logs: seq<seq<Op>>)
    requires AllWithin(ds, logs)
    ensures AllWithin(LastOnly(ds), logs)
  {
    forall k | 0 <= k < |LastOnly(ds)| ensures Within(LastOnly(ds)[k], logs) {
      LastOnlyMembers(ds, LastOnly(ds)[k]);
    }
  }

  lemma OpsCons(d: Delivery, ds: seq<Delivery>, logs: seq<seq<Op>>, id: NodeId, f: Field)
    requires Within(d, logs) && AllWithin(ds, logs)
    ensures AllWithin([d] + ds, logs)
    ensures LastWritten(OpsOf([d] + ds, logs), id, f) ==
            Coalesce(LastWritten(OpsOf(ds, logs), id, f), Writes(OpAt(d, logs), id, f))
  {
    assert ([d] + ds)[1..] == ds;
    OneWrite(OpAt(d, logs), id, f);
    WritesConcat([OpAt(d, logs)], OpsOf(ds, logs), id, f);
  }

  /** Only the last delivery of a message decides what a field ends with. */
  lemma {:induction false} LastOnlyWrites(ds: seq<Delivery>, logs: seq<seq<Op>>, id: NodeId, f: Field)
    requires AllWithin(ds, logs)
    ensures AllWithin(LastOnly(ds), logs)
    ensures LastWritten(OpsOf(LastOnly(ds), logs), id, f) == LastWritten(OpsOf(ds, logs), id, f)
  {
    LastOnlyWithin(ds, logs);
    if ds != [] {
      var rest, op := ds[1..], OpAt(ds[0], logs);
      LastOnlyWrites(rest, logs, id, f);
      OpsCons(ds[0], rest, logs, id, f);
      assert ds == [ds[0]] + rest;
      if ds[0] in rest {
        assert LastOnly(ds) == LastOnly(rest);
        OpsMembers(rest, logs, op);
        if Writes(op, id, f).Some? { WrittenTells(OpsOf(rest, logs), op, id, f); }
      } else {
        OpsCons(ds[0], LastOnly(rest), logs, id, f);
      }
    }
  }

  lemma LastOnlySameGraph(g: Graph, ds: seq<Delivery>, logs: seq<seq<Op>>)
    requires AllWithin(ds, logs)
    ensures AllWithin(LastOnly(ds), logs)
    ensures Run(g, OpsOf(ds, logs)) == Run(g, OpsOf(LastOnly(ds), logs))
  {
    LastOnlyWithin(ds, logs);
    var a, b := OpsOf(ds, logs), OpsOf(LastOnly(ds), logs);
    forall op ensures op in a <==> op in b {
      OpsMembers(ds, logs, op);
      OpsMembers(LastOnly(ds), logs, op);
      forall d ensures d in LastOnly(ds) <==> d in ds { LastOnlyMembers(ds, d); }
    }
    forall id, f ensures LastWritten(a, id, f) == LastWritten(b, id, f) { LastOnlyWrites(ds, logs, id, f); }
    LastWritesDecide(g, a, b);
  }

  lemma LastOnlyIsCleanPass(ds: seq<Delivery>, logs: seq<seq<Op>>)
    requires AllWithin(ds, logs) && Owed(ds, logs) && forall d :: Within(d, logs) ==> d in ds
    ensures CleanPass(LastOnly(ds), logs)
  {
    LastOnlyWithin(ds, logs);
    OwedIsRenewed(ds, logs);
    LastOnlyInOrder(ds);
    forall d | Within(d, logs) ensures d in LastOnly(ds) { LastOnlyMembers(ds, d); }
  }

  lemma SucceededDelivers(ds: seq<Delivery>, ok: seq<bool>, logs: seq<seq<Op>>)
    requires AtLeastOnce(ds, logs) && |ok| == |ds| && LastSucceeds(ds, ok)
    ensures
      var done := Succeeded(ds, ok);
      AllWithin(done, logs) && Owed(done, logs) && forall d :: Within(d, logs) ==> d in done
  {
    var done := Succeeded(ds, ok);
    forall k, i: nat | 0 <= k < |ds| && ds[k].index < i && Within(Delivery(ds[k].partition, i), logs)
      ensures Delivery(ds[k].partition, i) in ds[k + 1..]
    {
      AtLeastOnceOwes(ds, logs, k, i);
    }
    SucceededOwed(ds, ok, logs);
    forall k | 0 <= k < |done| ensures Within(done[k], logs) { SucceededMembers(ds, ok, done[k]); }
    forall d | Within(d, logs) ensures d in done {
      AtLeastOnceDelivers(ds, logs, d);
      SucceededMembers(ds, ok, d);
    }
  }

  /** Over any number of partitions, with restarts and failing writes: as long as the last
      delivery of each message is written, the graph is the one that some clean pass builds,
      namely the pass in the order of last deliveries. */
  lemma ReplayIsSomeCleanPass(g: Graph, ds: seq<Delivery>, ok: seq<bool>, logs: seq<seq<Op>>)
    returns (pass: seq<Delivery>)
    requires AtLeastOnce(ds, logs) && |ok| == |ds| && LastSucceeds(ds, ok)
    ensures CleanPass(pass, logs) && AllWithin(Succeeded(ds, ok), logs)
    ensures Run(g, OpsOf(Succeeded(ds, ok), logs)) == Run(g, OpsOf(pass, logs))
  {
    var done := Succeeded(ds, ok);
    SucceededDelivers(ds, ok, logs);
    pass := LastOnly(done);
    LastOnlyIsCleanPass(done, logs);
    LastOnlySameGraph(g, done, logs);
  }

  // ------------------------------------------------------- writes that fail for good

  lemma {:induction false} SucceededMeans(ds: seq<Delivery>, ok: seq<bool>, d: Delivery)
    requires |ok| == |ds|
    ensures d in Succeeded(ds, ok) <==> exists k :: 0 <= k < |ds| && ds[k] == d && ok[k]
  {
    if ds != [] {
      SucceededMeans(ds[1..], ok[1..], d);
      assert forall k :: 0 <= k < |ds| - 1 ==> ds[1..][k] == ds[k + 1] && ok[1..][k] == ok[k + 1];
      if k :| 0 <= k < |ds| && ds[k] == d && ok[k] {
        if k > 0 { assert ds[1..][k - 1] == d && ok[1..][k - 1]; }
      }
    }
  }

  lemma SucceededWithin(ds: seq<Delivery>, ok: seq<bool>, logs: seq<seq<Op>>)
    requires |ok| == |ds| && AllWithin(ds, logs)
    ensures AllWithin(Succeeded(ds, ok), logs)
  {
    var done := Succeeded(ds, ok);
    forall k | 0 <= k < |done| ensures Within(done[k], logs) { SucceededMeans(ds, ok, done[k]); }
  }

  /** Whatever is delivered and whatever fails, a skipped message included: the graph is that
      of the messages written at least once, each at its last successful delivery. It lacks
      exactly the messages that never succeeded, and it follows the order of the partitions
      exactly when no message succeeded for the last time before an earlier one. */
  lemma ReplayWithLosses(g: Graph, ds: seq<Delivery>, ok: seq<bool>, logs: seq<seq<Op>>)
    returns (pass: seq<Delivery>)
    requires AllWithin(ds, logs) && |ok| == |ds|
    ensures AllWithin(Succeeded(ds, ok), logs) && AllWithin(pass, logs)
    ensures Run(g, OpsOf(Succeeded(ds, ok), logs)) == Run(g, OpsOf(pass, logs))
    ensures Once(pass)
    ensures forall d :: d in pass <==> exists k :: 0 <= k < |ds| && ds[k] == d && ok[k]
    ensures InOrder(pass) <==> Renewed(Succeeded(ds, ok))
  {
    var done := Succeeded(ds, ok);
    SucceededWithin(ds, ok, logs);
    pass := LastOnly(done);
    LastOnlySameGraph(g, done, logs);
    LastOnlyInOrder(done);
    LastOnlyOnce(done);
    forall d ensures d in pass <==> exists k :: 0 <= k < |ds| && ds[k] == d && ok[k] {
      LastOnlyMembers(done, d);
      SucceededMeans(ds, ok, d);
    }
  }

  lemma {:induction false} LastOnlyOnce(ds: seq<Delivery>)
    ensures Once(LastOnly(ds))
  {
    if ds != [] {
      LastOnlyOnce(ds[1..]);
      LastOnlyMembers(ds[1..], ds[0]);
      if ds[0] !in ds[1..] { OnceCons(ds[0], LastOnly(ds[1..])); }
    }
  }

  lemma OnceCons(d: Delivery, ds: seq<Delivery>)
    requires Once(ds) && d !in ds
    ensures Once([d] + ds)
  {
    var all := [d] + ds;
    forall k, l | 0 <= k < l < |all| ensures all[k] != all[l] {
      assert all[l] == ds[l - 1] && (k > 0 ==> all[k] == ds[k - 1]);
    }
  }

  // ------------------------------------------------ when at least once is exactly once

  lemma {:induction false} OpsAt(ds: seq<Delivery>, logs: seq<seq<Op>>, k: nat)
    requires AllWithin(ds, logs) && k < |ds|
    ensures |OpsOf(ds, logs)| == |ds| && OpsOf(ds, logs)[k] == OpAt(ds[k], logs)
  {
    if k > 0 {
      OpsAt(ds[1..], logs, k - 1);
    } else if |ds| > 1 {
      OpsAt(ds[1..], logs, 0);
    }
  }

  lemma {:induction false} OpsLength(ds: seq<Delivery>, logs: seq<seq<Op>>)
    requires AllWithin(ds, logs)
    ensures |OpsOf(ds, logs)| == |ds|
  {
    if ds != [] { OpsLength(ds[1..], logs); }
  }

  /** d writes the field and no later message of its partition does. */
  ghost predicate FinalWrite(d: Delivery, logs: seq<seq<Op>>, id: NodeId, f: Field) {
    && Within(d, logs) && Writes(OpAt(d, logs), id, f).Some?
    && forall i: nat :: d.index < i && Within(Delivery(d.partition, i), logs) ==>
         Writes(OpAt(Delivery(d.partition, i), logs), id, f).None?
  }

  /** Final writes of one field in different partitions write the same value. */
  ghost predicate FinalWritesAgree(logs: seq<seq<Op>>) {
    forall d, e, id, f :: FinalWrite(d, logs, id, f) && FinalWrite(e, logs, id, f) ==>
      Writes(OpAt(d, logs), id, f) == Writes(OpAt(e, logs), id, f)
  }

  /** What a pass leaves in a field is a final write of some partition. */
  lemma PassEndsOnFinalWrite(ds: seq<Delivery>, logs: seq<seq<Op>>, id: NodeId, f: Field) returns (d: Delivery)
    requires CleanPass(ds, logs) && LastWritten(OpsOf(ds, logs), id, f).Some?
    ensures FinalWrite(d, logs, id, f) && LastWritten(OpsOf(ds, logs), id, f) == Writes(OpAt(d, logs), id, f)
  {
    var xs := Writings(OpsOf(ds, logs), id, f);
    LastMeans(xs);
    var k :| LastAt(xs, k) && xs[k] == Last(xs);
    OpsLength(ds, logs);
    OpsAt(ds, logs, k);
    d := ds[k];
    forall i: nat | d.index < i && Within(Delivery(d.partition, i), logs)
      ensures Writes(OpAt(Delivery(d.partition, i), logs), id, f).None?
    {
      var l :| 0 <= l < |ds| && ds[l] == Delivery(d.partition, i);
      assert k < l;
      OpsAt(ds, logs, l);
    }
  }

  lemma PassesWriteAlike(a: seq<Delivery>, b: seq<Delivery>, logs: seq<seq<Op>>, id: NodeId, f: Field)
    requires CleanPass(a, logs) && CleanPass(b, logs) && FinalWritesAgree(logs)
    ensures LastWritten(OpsOf(a, logs), id, f) == LastWritten(OpsOf(b, logs), id, f)
  {
    if d :| Within(d, logs) && Writes(OpAt(d, logs), id, f).Some? {
      SomethingWritten(a, logs, d, id, f);
      SomethingWritten(b, logs, d, id, f);
      var x := PassEndsOnFinalWrite(a, logs, id, f);
      var y := PassEndsOnFinalWrite(b, logs, id, f);
    } else {
      NeverWritten(a, logs, id, f);
      NeverWritten(b, logs, id, f);
    }
  }

  lemma SomethingWritten(ds: seq<Delivery>, logs: seq<seq<Op>>, d: Delivery, id: NodeId, f: Field)
    requires CleanPass(ds, logs) && Within(d, logs) && Writes(OpAt(d, logs), id, f).Some?
    ensures LastWritten(OpsOf(ds, logs), id, f).Some?
  {
    OpsMembers(ds, logs, OpAt(d, logs));
    WrittenTells(OpsOf(ds, logs), OpAt(d, logs), id, f);
  }

  lemma NeverWritten(ds: seq<Delivery>, logs: seq<seq<Op>>, id: NodeId, f: Field)
    requires AllWithin(ds, logs) && forall d :: Within(d, logs) ==> Writes(OpAt(d, logs), id, f).None?
    ensures LastWritten(OpsOf(ds, logs), id, f) == None
  {
    var ops := OpsOf(ds, logs);
    OpsLength(ds, logs);
    forall k | 0 <= k < |ops| ensures Writings(ops, id, f)[k].None? { OpsAt(ds, logs, k); }
    LastMeans(Writings(ops, id, f));
  }

  lemma PassesHoldAlike(a: seq<Delivery>, b: seq<Delivery>, logs: seq<seq<Op>>, op: Op)
    requires CleanPass(a, logs) && CleanPass(b, logs)
    ensures op in OpsOf(a, logs) <==> op in OpsOf(b, logs)
  {
    OpsMembers(a, logs, op);
    OpsMembers(b, logs, op);
    assert forall d :: d in a <==> Within(d, logs);
    assert forall d :: d in b <==> Within(d, logs);
  }

  lemma PassesAgree(a: seq<Delivery>, b: seq<Delivery>, logs: seq<seq<Op>>)
    requires CleanPass(a, logs) && CleanPass(b, logs) && FinalWritesAgree(logs)
    ensures Equivalent(OpsOf(a, logs), OpsOf(b, logs))
  {
    forall g ensures Run(g, OpsOf(a, logs)) == Run(g, OpsOf(b, logs)) {
      forall op ensures op in OpsOf(a, logs) <==> op in OpsOf(b, logs) { PassesHoldAlike(a, b, logs, op); }
      forall id, f ensures LastWritten(OpsOf(a, logs), id, f) == LastWritten(OpsOf(b, logs), id, f) {
        PassesWriteAlike(a, b, logs, id, f);
      }
      LastWritesDecide(g, OpsOf(a, logs), OpsOf(b, logs));
    }
  }

  /** At least once is exactly once: over any number of partitions of both topics, when final
      writes agree and the last delivery of each message is written, every run with restarts
      and failures builds the graph of every clean pass. */
  lemma PartitionedExactlyOnce(g: Graph, ds: seq<Delivery>, ok: seq<bool>, logs: seq<seq<Op>>, pass: seq<Delivery>)
    requires AtLeastOnce(ds, logs) && |ok| == |ds| && LastSucceeds(ds, ok)
    requires CleanPass(pass, logs) && FinalWritesAgree(logs)
    ensures AllWithin(Succeeded(ds, ok), logs)
    ensures Run(g, OpsOf(Succeeded(ds, ok), logs)) == Run(g, OpsOf(pass, logs))
  {
    var some := ReplayIsSomeCleanPass(g, ds, ok, logs);
    PassesAgree(some, pass, logs);
  }

  // --------------------------------------------------------------- and when it is not

  lemma InConcat(a: seq<Delivery>, b: seq<Delivery>, d: Delivery)
    ensures d in a + b <==> d in a || d in b
  {
  }

  lemma InOrderConcat(a: seq<Delivery>, b: seq<Delivery>)
    requires InOrder(a) && InOrder(b)
    requires forall d, e :: d in a && e in b ==> d.partition != e.partition
    ensures InOrder(a + b)
  {
    var all := a + b;
    forall k, l | 0 <= k < l < |all|
      ensures all[k] != all[l] && (all[k].partition == all[l].partition ==> all[k].index < all[l].index)
    {
      if k < |a| <= l { assert all[k] in a && all[l] in b; }
    }
  }

  /** The first n messages of partition p, in order. */
  lemma {:induction false} OnePartition(p: nat, n: nat) returns (ds: seq<Delivery>)
    ensures InOrder(ds) && forall d :: d in ds <==> d.partition == p && d.index < n
  {
    if n == 0 {
      return [];
    }
    var front := OnePartition(p, n - 1);
    var last := Delivery(p, n - 1);
    ds := front + [last];
    forall d ensures d in ds <==> d.partition == p && d.index < n {
      InConcat(front, [last], d);
      assert d.partition == p && d.index == n - 1 <==> d == last;
    }
    InOrderSnoc(front, last);
  }

  lemma InOrderSnoc(ds: seq<Delivery>, d: Delivery)
    requires InOrder(ds) && forall x :: x in ds ==> x.partition == d.partition && x.index < d.index
    ensures InOrder(ds + [d])
  {
    var all := ds + [d];
    forall k, l | 0 <= k < l < |all|
      ensures all[k] != all[l] && (all[k].partition == all[l].partition ==> all[k].index < all[l].index)
    {
      assert all[k] == ds[k] && ds[k] in ds;
    }
  }

  /** The first n partitions one after the other, without partition p. */
  lemma {:induction false} OtherPartitions(logs: seq<seq<Op>>, p: nat, n: nat) returns (ds: seq<Delivery>)
    requires n <= |logs|
    ensures InOrder(ds) && forall d :: d in ds <==> Within(d, logs) && d.partition < n && d.partition != p
  {
    if n == 0 {
      return [];
    }
    var front := OtherPartitions(logs, p, n - 1);
    if n - 1 == p {
      return front;
    }
    var last := OnePartition(n - 1, |logs[n - 1]|);
    ds := front + last;
    forall d ensures d in ds <==> Within(d, logs) && d.partition < n && d.partition != p {
      InConcat(front, last, d);
    }
    InOrderConcat(front, last);
  }

  /** Nothing follows partition p but p itself. */
  ghost predicate EndsWith(ds: seq<Delivery>, p: nat) {
    forall k, l :: 0 <= k < l < |ds| && ds[k].partition == p ==> ds[l].partition == p
  }

  lemma EndsWithConcat(a: seq<Delivery>, b: seq<Delivery>, p: nat)
    requires (forall d :: d in a ==> d.partition != p) && forall d :: d in b ==> d.partition == p
    ensures EndsWith(a + b, p)
  {
    forall k | 0 <= k < |a + b| ensures (a + b)[k].partition == p <==> |a| <= k {
      if k < |a| { assert (a + b)[k] in a; } else { assert (a + b)[k] in b; }
    }
  }

  /** There is a pass that takes partition p last. */
  lemma PassEndingWith(logs: seq<seq<Op>>, p: nat) returns (ds: seq<Delivery>)
    requires p < |logs|
    ensures CleanPass(ds, logs) && EndsWith(ds, p)
  {
    var a := OtherPartitions(logs, p, |logs|);
    var b := OnePartition(p, |logs[p]|);
    ds := a + b;
    InOrderConcat(a, b);
    EndsWithConcat(a, b, p);
    forall d ensures d in ds <==> Within(d, logs) { InConcat(a, b, d); }
    forall k | 0 <= k < |ds| ensures Within(ds[k], logs) { assert ds[k] in ds; }
  }

  /** A final write of the last partition is what a pass leaves. */
  lemma LastPartitionWins(ds: seq<Delivery>, logs: seq<seq<Op>>, d: Delivery, id: NodeId, f: Field)
    requires CleanPass(ds, logs) && EndsWith(ds, d.partition) && FinalWrite(d, logs, id, f)
    ensures LastWritten(OpsOf(ds, logs), id, f) == Writes(OpAt(d, logs), id, f)
  {
    var q :| 0 <= q < |ds| && ds[q] == d;
    OpsAt(ds, logs, q);
    var xs := Writings(OpsOf(ds, logs), id, f);
    forall l | q < l < |xs| ensures xs[l].None? {
      OpsAt(ds, logs, l);
      assert ds[l] == Delivery(d.partition, ds[l].index) && d.index < ds[l].index;
    }
    assert LastAt(xs, q);
    LastFrom(xs, q);
  }

  ghost predicate AllPassesAgree(logs: seq<seq<Op>>) {
    forall a, b :: CleanPass(a, logs) && CleanPass(b, logs) ==> Equivalent(OpsOf(a, logs), OpsOf(b, logs))
  }

  lemma PassesTell(logs: seq<seq<Op>>, d: Delivery, e: Delivery, id: NodeId, f: Field)
    requires AllPassesAgree(logs) && FinalWrite(d, logs, id, f) && FinalWrite(e, logs, id, f)
    ensures Writes(OpAt(d, logs), id, f) == Writes(OpAt(e, logs), id, f)
  {
    var a := PassEndingWith(logs, d.partition);
    var b := PassEndingWith(logs, e.partition);
    LastPartitionWins(a, logs, d, id, f);
    LastPartitionWins(b, logs, e, id, f);
    EffectsDecide(OpsOf(a, logs), OpsOf(b, logs));
  }

  /** All clean passes build the same graph, on every graph, exactly when final writes of
      different partitions agree. */
  lemma CleanPassesAgreeExactly(logs: seq<seq<Op>>)
    ensures AllPassesAgree(logs) <==> FinalWritesAgree(logs)
  {
    if FinalWritesAgree(logs) {
      forall a, b | CleanPass(a, logs) && CleanPass(b, logs) ensures Equivalent(OpsOf(a, logs), OpsOf(b, logs)) {
        PassesAgree(a, b, logs);
      }
    }
    if AllPassesAgree(logs) {
      forall d, e, id, f | FinalWrite(d, logs, id, f) && FinalWrite(e, logs, id, f)
        ensures Writes(OpAt(d, logs), id, f) == Writes(OpAt(e, logs), id, f)
      {
        PassesTell(logs, d, e, id, f);
      }
    }
  }

  // ------------------------------------------------- the same for all runs at once

  ghost predicate Increasing(w: seq<nat>) { forall k, l :: 0 <= k < l < |w| ==> w[k] < w[l] }

  ghost predicate Below(w: seq<nat>, n: nat) { forall i: nat :: i in w <==> i < n }

  lemma SplitLast(w: seq<nat>, i: nat)
    requires w != []
    ensures i in w <==> i in w[..|w| - 1] || i == w[|w| - 1]
  {
    assert w == w[..|w| - 1] + [w[|w| - 1]];
  }

  lemma BeforeLast(w: seq<nat>, i: nat)
    requires w != [] && Increasing(w)
    ensures i in w[..|w| - 1] ==> i < w[|w| - 1]
  {
  }

  /** The largest position comes last, and the others before it. */
  lemma LargestLast(w: seq<nat>, n: nat)
    requires Increasing(w) && Below(w, n) && n > 0
    ensures w != [] && w[|w| - 1] == n - 1 && Increasing(w[..|w| - 1]) && Below(w[..|w| - 1], n - 1)
  {
    assert n - 1 in w;
    var front, last := w[..|w| - 1], w[|w| - 1];
    SplitLast(w, n - 1);
    SplitLast(w, last);
    BeforeLast(w, n - 1);
    forall i: nat ensures i in front <==> i < n - 1 {
      SplitLast(w, i);
      BeforeLast(w, i);
    }
  }

  lemma HeadIn(w: seq<nat>)
    ensures w != [] ==> w[0] in w
  {
  }

  /** Strictly increasing and complete below n: the positions 0, 1, .., n-1. */
  lemma {:induction false} CountsUp(w: seq<nat>, n: nat)
    requires Increasing(w) && Below(w, n)
    ensures |w| == n && forall k :: 0 <= k < n ==> w[k] == k
    decreases n
  {
    if n > 0 {
      LargestLast(w, n);
      CountsUp(w[..|w| - 1], n - 1);
    } else {
      HeadIn(w);
    }
  }

  lemma {:induction false} PartIncreases(ds: seq<Delivery>, p: nat)
    requires InOrder(ds)
    ensures Increasing(Part(ds, p))
  {
    if ds != [] {
      assert ds == [ds[0]] + ds[1..];
      InOrderTail(ds[0], ds[1..]);
      PartIncreases(ds[1..], p);
      forall i | i in Part(ds[1..], p) ensures ds[0].partition == p ==> ds[0].index < i {
        PartMembers(ds[1..], p, i);
      }
      var w, rest := Part(ds, p), Part(ds[1..], p);
      forall k, l | 0 <= k < l < |w| ensures w[k] < w[l] {
        if ds[0].partition == p {
          assert w == [ds[0].index] + rest && rest[l - 1] in rest;
        } else {
          assert w == rest;
        }
      }
    }
  }

  /** A clean pass is one of the runs: no restart, no failure. */
  lemma CleanPassIsARun(ds: seq<Delivery>, logs: seq<seq<Op>>)
    requires CleanPass(ds, logs)
    ensures AtLeastOnce(ds, logs)
  {
    forall p | 0 <= p < |logs| ensures Walk(Part(ds, p), |logs[p]|) {
      PartIncreases(ds, p);
      forall i: nat ensures i in Part(ds, p) <==> i < |logs[p]| {
        PartMembers(ds, p, i);
        if i < |logs[p]| { assert Within(Delivery(p, i), logs); }
      }
      CountsUp(Part(ds, p), |logs[p]|);
    }
  }

  function Always(n: nat): (ok: seq<bool>)
    ensures |ok| == n && forall k :: 0 <= k < n ==> ok[k]
  {
    if n == 0 then [] else [true] + Always(n - 1)
  }

  lemma {:induction false} AllSucceeded(ds: seq<Delivery>, ok: seq<bool>)
    requires |ok| == |ds| && forall k :: 0 <= k < |ok| ==> ok[k]
    ensures Succeeded(ds, ok) == ds
  {
    if ds != [] { AllSucceeded(ds[1..], ok[1..]); }
  }

  /** Every run in which the last delivery of each message is written builds the graph of
      every clean pass. */
  ghost predicate ExactlyOnce(logs: seq<seq<Op>>) {
    forall ds, ok, pass :: IsRun(ds, ok, logs) && CleanPass(pass, logs) ==>
      Equivalent(OpsOf(Succeeded(ds, ok), logs), OpsOf(pass, logs))
  }

  ghost predicate IsRun(ds: seq<Delivery>, ok: seq<bool>, logs: seq<seq<Op>>) {
    AtLeastOnce(ds, logs) && |ok| == |ds| && LastSucceeds(ds, ok) && AllWithin(Succeeded(ds, ok), logs)
  }

  /** At least once is exactly once if and only if final writes agree. */
  lemma ExactlyOnceExactly(logs: seq<seq<Op>>)
    ensures ExactlyOnce(logs) <==> FinalWritesAgree(logs)
  {
    if FinalWritesAgree(logs) {
      forall ds, ok, pass | IsRun(ds, ok, logs) && CleanPass(pass, logs)
        ensures Equivalent(OpsOf(Succeeded(ds, ok), logs), OpsOf(pass, logs))
      {
        forall g ensures Run(g, OpsOf(Succeeded(ds, ok), logs)) == Run(g, OpsOf(pass, logs)) {
          PartitionedExactlyOnce(g, ds, ok, logs, pass);
        }
      }
    }
    if ExactlyOnce(logs) {
      forall a, b | CleanPass(a, logs) && CleanPass(b, logs) ensures Equivalent(OpsOf(a, logs), OpsOf(b, logs)) {
        CleanPassIsARun(a, logs);
        AllSucceeded(a, Always(|a|));
        assert IsRun(a, Always(|a|), logs);
      }
      CleanPassesAgreeExactly(logs);
    }
  }

  /** All results about a node are in one partition. */
  ghost predicate NodesKeptTogether(logs: seq<seq<Op>>) {
    forall d, e, id ::
      Within(d, logs) && Within(e, logs) && Describes(OpAt(d, logs), id) && Describes(OpAt(e, logs), id) ==>
        d.partition == e.partition
  }

  ghost predicate Describes(op: Op, id: NodeId) { op.R? && Target(op.result) == Some(id) }

  /** In particular when the results about each node share a partition. */
  lemma TogetherSuffices(logs: seq<seq<Op>>)
    requires NodesKeptTogether(logs)
    ensures FinalWritesAgree(logs)
  {
    forall d, e, id, f | FinalWrite(d, logs, id, f) && FinalWrite(e, logs, id, f)
      ensures Writes(OpAt(d, logs), id, f) == Writes(OpAt(e, logs), id, f)
    {
      assert Describes(OpAt(d, logs), id) && Describes(OpAt(e, logs), id);
      assert d == Delivery(e.partition, d.index) && e == Delivery(d.partition, e.index);
      assert d.index == e.index;
    }
  }

  /** Two partitions that hold different titles of one work: the graph depends on which
      consumer comes last. */
  lemma PartitionsDisagree(g: Graph, session: string, key: string, a: string, b: string)
    requires key != "" && a != "" && b != "" && a != b
    ensures
      var logs := [[R(WorkResult(session, key, a))], [R(WorkResult(session, key, b))]];
      var x, y := [Delivery(0, 0), Delivery(1, 0)], [Delivery(1, 0), Delivery(0, 0)];
      && CleanPass(x, logs) && CleanPass(y, logs) && Run(g, OpsOf(x, logs)) != Run(g, OpsOf(y, logs))
      && !FinalWritesAgree(logs)
  {
    var logs := [[R(WorkResult(session, key, a))], [R(WorkResult(session, key, b))]];
    var x, y := [Delivery(0, 0), Delivery(1, 0)], [Delivery(1, 0), Delivery(0, 0)];
    TwoMessages(logs, x);
    TwoMessages(logs, y);
    TitlesConflict(g, session, key, a, b);
    if FinalWritesAgree(logs) { PassesAgree(x, y, logs); }
  }

  lemma TwoMessages(logs: seq<seq<Op>>, ds: seq<Delivery>)
    requires |logs| == 2 && |logs[0]| == |logs[1]| == 1
    requires ds == [Delivery(0, 0), Delivery(1, 0)] || ds == [Delivery(1, 0), Delivery(0, 0)]
    ensures CleanPass(ds, logs) && OpsOf(ds, logs) == [logs[ds[0].partition][0], logs[ds[1].partition][0]]
  {
    assert AllWithin(ds, logs) && ds[1..] == [ds[1]] && ds[1..][1..] == [];
    assert OpsOf(ds[1..][1..], logs) == [] && OpsOf(ds[1..], logs) == [OpAt(ds[1], logs)];
    forall d | Within(d, logs) ensures d in ds { assert d == ds[0] || d == ds[1]; }
  }
}
