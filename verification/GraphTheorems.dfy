/** The graph depends only on which messages were written and on the last non-empty value
    of each field: interleavings and redeliveries of the two topics leave no trace. */
module GraphTheorems {
  import opened Common
  import opened Registers
  import opened Graph

  // ------------------------------------------------ closed form of a whole log

  ghost predicate AnyMentions(ops: seq<Op>, id: NodeId) { exists op :: op in ops && Mentions(op, id) }
  ghost predicate AnyAdds(ops: seq<Op>, e: EdgeId) { exists op :: op in ops && Adds(op, e) }

  lemma ApplyNode(g: Graph, op: Op, id: NodeId)
    ensures id in Apply(g, op).nodes <==> id in g.nodes || Mentions(op, id)
  {
  }

  lemma ApplyEdges(g: Graph, op: Op, e: EdgeId)
    ensures e in Apply(g, op).edges <==> e in g.edges || Adds(op, e)
  {
  }

  lemma ApplyField(g: Graph, op: Op, id: NodeId, f: Field)
    ensures FieldOf(PropsAt(Apply(g, op), id), f) == Coalesce(Writes(op, id, f), FieldOf(PropsAt(g, id), f))
  {
  }

  lemma MembersSnoc(ops: seq<Op>)
    requires ops != []
    ensures forall op :: op in ops <==> op in ops[..|ops| - 1] || op == ops[|ops| - 1]
  {
    assert ops == ops[..|ops| - 1] + [ops[|ops| - 1]];
  }

  /** Which nodes and edges there are after a log. */
  lemma {:induction false} RunMembers(g: Graph, ops: seq<Op>, id: NodeId, e: EdgeId)
    ensures id in Run(g, ops).nodes <==> id in g.nodes || AnyMentions(ops, id)
    ensures e in Run(g, ops).edges <==> e in g.edges || AnyAdds(ops, e)
  {
    if ops != [] {
      var front, last := ops[..|ops| - 1], ops[|ops| - 1];
      RunMembers(g, front, id, e);
      ApplyNode(Run(g, front), last, id);
      ApplyEdges(Run(g, front), last, e);
      MembersSnoc(ops);
      assert AnyMentions(ops, id) <==> AnyMentions(front, id) || Mentions(last, id);
      assert AnyAdds(ops, e) <==> AnyAdds(front, e) || Adds(last, e);
    }
  }

  /** Each field holds the last non-empty value written to it, or what it held before. */
  lemma {:induction false} RunField(g: Graph, ops: seq<Op>, id: NodeId, f: Field)
    ensures FieldOf(PropsAt(Run(g, ops), id), f) == Coalesce(LastWritten(ops, id, f), FieldOf(PropsAt(g, id), f))
  {
    if ops != [] {
      var front, last := ops[..|ops| - 1], ops[|ops| - 1];
      RunField(g, front, id, f);
      ApplyField(Run(g, front), last, id, f);
      assert Writings(ops, id, f)[..|ops| - 1] == Writings(front, id, f);
    }
  }

  lemma SameProps(p: Props, q: Props)
    requires forall f :: FieldOf(p, f) == FieldOf(q, f)
    ensures p == q
  {
    assert FieldOf(p, Session) == FieldOf(q, Session) && FieldOf(p, Title) == FieldOf(q, Title);
    assert FieldOf(p, FullTitle) == FieldOf(q, FullTitle) && FieldOf(p, PublishDate) == FieldOf(q, PublishDate);
    assert FieldOf(p, Name) == FieldOf(q, Name);
  }

  /** Two logs mention the same nodes, add the same edges and end on the same writes. */
  ghost predicate SameEffects(a: seq<Op>, b: seq<Op>) {
    && (forall id :: AnyMentions(a, id) <==> AnyMentions(b, id))
    && (forall e :: AnyAdds(a, e) <==> AnyAdds(b, e))
    && (forall id, f :: LastWritten(a, id, f) == LastWritten(b, id, f))
  }

  lemma SameEffectsSuffice(g: Graph, a: seq<Op>, b: seq<Op>)
    requires SameEffects(a, b)
    ensures Run(g, a) == Run(g, b)
  {
    var x, y := Run(g, a), Run(g, b);
    forall id ensures id in x.nodes <==> id in y.nodes {
      var e := EdgeId(id, "", "", id);
      RunMembers(g, a, id, e);
      RunMembers(g, b, id, e);
    }
    forall e ensures e in x.edges <==> e in y.edges {
      RunMembers(g, a, e.from, e);
      RunMembers(g, b, e.from, e);
    }
    forall id | id in x.nodes ensures x.nodes[id] == y.nodes[id] {
      forall f ensures FieldOf(x.nodes[id], f) == FieldOf(y.nodes[id], f) {
        RunField(g, a, id, f);
        RunField(g, b, id, f);
      }
      SameProps(x.nodes[id], y.nodes[id]);
    }
    assert x.nodes == y.nodes && x.edges == y.edges;
  }

  const EMPTY := Graph(map[], {})

  lemma EmptyGraphTells(a: seq<Op>, b: seq<Op>)
    requires Run(EMPTY, a) == Run(EMPTY, b)
    ensures SameEffects(a, b)
  {
    forall id ensures AnyMentions(a, id) <==> AnyMentions(b, id) {
      var e := EdgeId(id, "", "", id);
      RunMembers(EMPTY, a, id, e);
      RunMembers(EMPTY, b, id, e);
    }
    forall e ensures AnyAdds(a, e) <==> AnyAdds(b, e) {
      RunMembers(EMPTY, a, e.from, e);
      RunMembers(EMPTY, b, e.from, e);
    }
    forall id, f ensures LastWritten(a, id, f) == LastWritten(b, id, f) {
      RunField(EMPTY, a, id, f);
      RunField(EMPTY, b, id, f);
      assert FieldOf(BLANK, f) == None;
    }
  }

  /** No graph tells the two logs apart. */
  ghost predicate Equivalent(a: seq<Op>, b: seq<Op>) { forall g :: Run(g, a) == Run(g, b) }

  /** Two logs are equivalent exactly when they have the same effects. */
  lemma EffectsDecide(a: seq<Op>, b: seq<Op>)
    ensures Equivalent(a, b) <==> SameEffects(a, b)
  {
    if SameEffects(a, b) {
      forall g ensures Run(g, a) == Run(g, b) { SameEffectsSuffice(g, a, b); }
    } else if Equivalent(a, b) {
      assert Run(EMPTY, a) == Run(EMPTY, b);
      EmptyGraphTells(a, b);
    }
  }

  /** In particular when they hold the same messages, in orders with the same last writes. */
  lemma LastWritesDecide(g: Graph, a: seq<Op>, b: seq<Op>)
    requires forall op :: op in a <==> op in b
    requires forall id, f :: LastWritten(a, id, f) == LastWritten(b, id, f)
    ensures Run(g, a) == Run(g, b)
  {
    SameEffectsSuffice(g, a, b);
  }

  // ------------------------------------------------------- the two topics apart

  function Results(ops: seq<Op>): seq<Result> {
    if ops == [] then []
    else
      var front := Results(ops[..|ops| - 1]);
      if ops[|ops| - 1].R? then front + [ops[|ops| - 1].result] else front
  }

  function Edges(ops: seq<Op>): seq<Edge> {
    if ops == [] then []
    else
      var front := Edges(ops[..|ops| - 1]);
      if ops[|ops| - 1].E? then front + [ops[|ops| - 1].edge] else front
  }

  function AsOps(rs: seq<Result>, es: seq<Edge>): (ops: seq<Op>)
    ensures |ops| == |rs| + |es|
    ensures forall k :: 0 <= k < |rs| ==> ops[k] == R(rs[k])
    ensures forall k :: |rs| <= k < |rs| + |es| ==> ops[k] == E(es[k - |rs|])
  {
    seq(|rs|, k requires 0 <= k < |rs| => R(rs[k])) + seq(|es|, k requires 0 <= k < |es| => E(es[k]))
  }

  lemma {:induction false} TopicMembers(ops: seq<Op>, op: Op)
    ensures op in ops <==> if op.R? then op.result in Results(ops) else op.edge in Edges(ops)
  {
    if ops != [] {
      MembersSnoc(ops);
      TopicMembers(ops[..|ops| - 1], op);
    }
  }

  /** Only the results topic writes fields. */
  lemma {:induction false} ResultsWrite(ops: seq<Op>, id: NodeId, f: Field)
    ensures LastWritten(ops, id, f) == LastWritten(AsOps(Results(ops), []), id, f)
  {
    if ops != [] {
      var front, last := ops[..|ops| - 1], ops[|ops| - 1];
      ResultsWrite(front, id, f);
      assert Writings(ops, id, f)[..|ops| - 1] == Writings(front, id, f);
      if last.R? {
        var all := AsOps(Results(ops), []);
        assert Writings(all, id, f)[..|all| - 1] == Writings(AsOps(Results(front), []), id, f);
      } else {
        assert Results(ops) == Results(front);
      }
    }
  }

  /** Confluence: every interleaving of a results log with an edges log builds the graph
      that writing all results first would. */
  lemma Confluence(g: Graph, a: seq<Op>, b: seq<Op>)
    requires Results(a) == Results(b) && Edges(a) == Edges(b)
    ensures Run(g, a) == Run(g, b)
  {
    forall op ensures op in a <==> op in b {
      TopicMembers(a, op);
      TopicMembers(b, op);
    }
    forall id, f ensures LastWritten(a, id, f) == LastWritten(b, id, f) {
      ResultsWrite(a, id, f);
      ResultsWrite(b, id, f);
    }
    LastWritesDecide(g, a, b);
  }

  /** The writes to one node, in order. */
  function About(ops: seq<Op>, id: NodeId): seq<Op> {
    if ops == [] then []
    else
      var front, last := About(ops[..|ops| - 1], id), ops[|ops| - 1];
      if last.R? && Target(last.result) == Some(id) then front + [last] else front
  }

  lemma OneWrite(op: Op, id: NodeId, f: Field)
    ensures LastWritten([op], id, f) == Writes(op, id, f)
  {
    var xs := Writings([op], id, f);
    assert Last(xs[..0]) == None;
  }

  lemma {:induction false} AboutWrites(ops: seq<Op>, id: NodeId, f: Field)
    ensures LastWritten(ops, id, f) == LastWritten(About(ops, id), id, f)
  {
    if ops != [] {
      var front, last := ops[..|ops| - 1], ops[|ops| - 1];
      AboutWrites(front, id, f);
      OneWrite(last, id, f);
      WritesConcat(front, [last], id, f);
      WritesConcat(About(front, id), [last], id, f);
      assert front + [last] == ops;
    }
  }

  /** With any number of writers and partitions: only the order of results about the same
      node counts. */
  lemma OnlyNodeOrderMatters(g: Graph, a: seq<Op>, b: seq<Op>)
    requires forall op :: op in a <==> op in b
    requires forall id :: About(a, id) == About(b, id)
    ensures Run(g, a) == Run(g, b)
  {
    forall id, f ensures LastWritten(a, id, f) == LastWritten(b, id, f) {
      AboutWrites(a, id, f);
      AboutWrites(b, id, f);
    }
    LastWritesDecide(g, a, b);
  }

  // ---------------------------------------------------------------------- replay

  lemma AsOpsMembers(rs: seq<Result>, es: seq<Edge>, op: Op)
    ensures op in AsOps(rs, es) <==> if op.R? then op.result in rs else op.edge in es
  {
    var ops := AsOps(rs, es);
    if op.R? && op.result in rs {
      var k :| 0 <= k < |rs| && rs[k] == op.result;
      assert ops[k] == op;
    }
    if op.E? && op.edge in es {
      var k :| 0 <= k < |es| && es[k] == op.edge;
      assert ops[|rs| + k] == op;
    }
    if op in ops {
      var k :| 0 <= k < |ops| && ops[k] == op;
    }
  }

  lemma WritesConcat(a: seq<Op>, b: seq<Op>, id: NodeId, f: Field)
    ensures LastWritten(a + b, id, f) == Coalesce(LastWritten(b, id, f), LastWritten(a, id, f))
  {
    assert Writings(a + b, id, f) == Writings(a, id, f) + Writings(b, id, f);
    LastConcat(Writings(a, id, f), Writings(b, id, f));
  }

  lemma EdgesDoNotWrite(rs: seq<Result>, es: seq<Edge>, id: NodeId, f: Field)
    ensures LastWritten(AsOps(rs, es), id, f) == LastWritten(AsOps(rs, []), id, f)
  {
    var tail := AsOps([], es);
    assert AsOps(rs, es) == AsOps(rs, []) + tail;
    WritesConcat(AsOps(rs, []), tail, id, f);
    assert forall k :: 0 <= k < |tail| ==> tail[k].E?;
    LastMeans(Writings(tail, id, f));
  }

  lemma ReplayedWrites(rs: seq<Result>, w: seq<nat>, id: NodeId, f: Field)
    requires Walk(w, |rs|)
    ensures LastWritten(AsOps(Pick(rs, w), []), id, f) == LastWritten(AsOps(rs, []), id, f)
  {
    var xs := Writings(AsOps(rs, []), id, f);
    assert Writings(AsOps(Pick(rs, w), []), id, f) == Pick(xs, w);
    WalkKeepsLast(xs, w);
  }

  /** At-least-once delivery is enough: if each consumer restarts any number of times, at
      or before where it was, and the two interleave in any way, the graph is the one a
      single clean pass builds. */
  lemma AtLeastOnceIsExactlyOnce(g: Graph, ops: seq<Op>, rs: seq<Result>, es: seq<Edge>, v: seq<nat>, w: seq<nat>)
    requires Walk(v, |rs|) && Walk(w, |es|)
    requires Results(ops) == Pick(rs, v) && Edges(ops) == Pick(es, w)
    ensures Run(g, ops) == Run(g, AsOps(rs, es))
  {
    forall op ensures op in ops <==> op in AsOps(rs, es) {
      TopicMembers(ops, op);
      AsOpsMembers(rs, es, op);
      if op.R? { WalkKeepsMembers(rs, v, op.result); } else { WalkKeepsMembers(es, w, op.edge); }
    }
    forall id, f ensures LastWritten(ops, id, f) == LastWritten(AsOps(rs, es), id, f) {
      ResultsWrite(ops, id, f);
      ReplayedWrites(rs, v, id, f);
      EdgesDoNotWrite(rs, es, id, f);
    }
    LastWritesDecide(g, ops, AsOps(rs, es));
  }

  /** A stretch written twice, as after a crash between write and commit, changes nothing. */
  lemma ReplayIsHarmless(g: Graph, a: seq<Op>, s: seq<Op>, t: seq<Op>)
    ensures Run(g, a + s + s + t) == Run(g, a + s + t)
  {
    forall id, f ensures LastWritten(a + s + s + t, id, f) == LastWritten(a + s + t, id, f) {
      WritesConcat(a + s + s, t, id, f);
      WritesConcat(a + s, s, id, f);
      WritesConcat(a, s, id, f);
      WritesConcat(a + s, t, id, f);
    }
    LastWritesDecide(g, a + s + s + t, a + s + t);
  }

  lemma {:induction false} RunConcat(g: Graph, a: seq<Op>, b: seq<Op>)
    ensures Run(g, a + b) == Run(Run(g, a), b)
    decreases |b|
  {
    if b == [] {
      assert a + b == a;
    } else {
      var front, last := b[..|b| - 1], b[|b| - 1];
      RunConcat(g, a, front);
      assert a + b == (a + front) + [last];
      RunSnoc(g, a + front, last);
    }
  }

  /** A node, an edge or a field that is there stays there. */
  lemma NothingIsLost(g: Graph, a: seq<Op>, b: seq<Op>, id: NodeId, f: Field, e: EdgeId)
    ensures id in Run(g, a).nodes ==> id in Run(g, a + b).nodes
    ensures e in Run(g, a).edges ==> e in Run(g, a + b).edges
    ensures FieldOf(PropsAt(Run(g, a), id), f).Some? ==> FieldOf(PropsAt(Run(g, a + b), id), f).Some?
  {
    RunConcat(g, a, b);
    RunMembers(Run(g, a), b, id, e);
    RunField(Run(g, a), b, id, f);
  }

  // -------------------------------------------------------------- two messages

  /** Both messages write this field of this node, and not the same value. */
  ghost predicate Conflict(x: Op, y: Op, id: NodeId, f: Field) {
    Writes(x, id, f).Some? && Writes(y, id, f).Some? && Writes(x, id, f) != Writes(y, id, f)
  }

  lemma PairWrites(x: Op, y: Op, id: NodeId, f: Field)
    ensures LastWritten([x, y], id, f) == Coalesce(Writes(y, id, f), Writes(x, id, f))
  {
    OneWrite(x, id, f);
    OneWrite(y, id, f);
    WritesConcat([x], [y], id, f);
    assert [x] + [y] == [x, y];
  }

  /** On every graph, two messages commute exactly when no field is written by both with
      different values. */
  lemma CommuteExactly(g: Graph, x: Op, y: Op)
    ensures Run(g, [x, y]) == Run(g, [y, x]) <==> !exists id, f :: Conflict(x, y, id, f)
  {
    if id, f :| Conflict(x, y, id, f) {
      PairWrites(x, y, id, f);
      PairWrites(y, x, id, f);
      RunField(g, [x, y], id, f);
      RunField(g, [y, x], id, f);
    } else {
      forall id, f ensures LastWritten([x, y], id, f) == LastWritten([y, x], id, f) {
        PairWrites(x, y, id, f);
        PairWrites(y, x, id, f);
        assert !Conflict(x, y, id, f);
      }
      LastWritesDecide(g, [x, y], [y, x]);
    }
  }

  /** Two results that give one work different titles do not commute, on any graph. */
  lemma TitlesConflict(g: Graph, session: string, key: string, a: string, b: string)
    requires key != "" && a != "" && b != "" && a != b
    ensures
      var x, y := R(WorkResult(session, key, a)), R(WorkResult(session, key, b));
      Run(g, [x, y]) != Run(g, [y, x])
  {
    var x, y := R(WorkResult(session, key, a)), R(WorkResult(session, key, b));
    assert Conflict(x, y, NodeId(Work, key), Title);
    CommuteExactly(g, x, y);
  }
}
