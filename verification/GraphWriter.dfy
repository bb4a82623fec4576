/** The two consume loops of the graph writer: fetch, write, count, commit. */
module GraphWriter {
  import opened Common
  import opened Graph
  import GraphTheorems

  /** Whether a write succeeds: the payload decodes and, if a query runs, the database
      accepts it (`dbOk`). */
  predicate ResultWritten(r: Result, dbOk: bool) { !r.Malformed? && (Target(r).None? || dbOk) }

  predicate EdgeWritten(e: Edge, dbOk: bool) { e.Edge? && (!Effective(e) || dbOk) }

  /** A payload that does not decode is never written, one that needs no query always is. */
  lemma WrittenMeans(r: Result, e: Edge, dbOk: bool)
    ensures ResultWritten(r, dbOk) <==> !r.Malformed? && (r.OtherType? || r.key == "" || dbOk)
    ensures EdgeWritten(e, dbOk) <==> !e.MalformedEdge? && (e.from == "" || e.to == "" || dbOk)
  {
  }

  /** The log that was written, as graph updates; `dbOk(k)` answers for the k-th fetch. */
  function WrittenResults(rs: seq<Result>, dbOk: nat -> bool): seq<Op> {
    if rs == [] then []
    else
      var n := |rs| - 1;
      WrittenResults(rs[..n], dbOk) + if ResultWritten(rs[n], dbOk(n)) then [R(rs[n])] else []
  }

  function WrittenEdges(es: seq<Edge>, dbOk: nat -> bool): seq<Op> {
    if es == [] then []
    else
      var n := |es| - 1;
      WrittenEdges(es[..n], dbOk) + if EdgeWritten(es[n], dbOk(n)) then [E(es[n])] else []
  }

  /** What the i-th message adds to the log and does to the graph. */
  lemma NextResult(g: Graph, rs: seq<Result>, dbOk: nat -> bool, i: nat)
    requires i < |rs|
    ensures
      var before, after := WrittenResults(rs[..i], dbOk), WrittenResults(rs[..i + 1], dbOk);
      if ResultWritten(rs[i], dbOk(i)) then |after| == |before| + 1 && Run(g, after) == Apply(Run(g, before), R(rs[i]))
      else after == before
  {
    assert rs[..i + 1][..i] == rs[..i];
    RunSnoc(g, WrittenResults(rs[..i], dbOk), R(rs[i]));
  }

  /** What the i-th message adds to the log and does to the graph. */
  lemma NextEdge(g: Graph, es: seq<Edge>, dbOk: nat -> bool, i: nat)
    requires i < |es|
    ensures
      var before, after := WrittenEdges(es[..i], dbOk), WrittenEdges(es[..i + 1], dbOk);
      if EdgeWritten(es[i], dbOk(i)) then |after| == |before| + 1 && Run(g, after) == Apply(Run(g, before), E(es[i]))
      else after == before
  {
    assert es[..i + 1][..i] == es[..i];
    RunSnoc(g, WrittenEdges(es[..i], dbOk), E(es[i]));
  }

  /** Where the first i messages have brought the graph, the commits and the counters. */
  ghost predicate ResultsDone(g: Graph, h: Graph, rs: seq<Result>, dbOk: nat -> bool, commitOk: nat -> bool, i: nat,
                          commits: seq<bool>, written: int, failed: int)
    requires i <= |rs|
  {
    var log := WrittenResults(rs[..i], dbOk);
    && h == Run(g, log) && written == |log| && failed == i - |log| && |commits| == i
    && forall k :: 0 <= k < i ==> commits[k] == (ResultWritten(rs[k], dbOk(k)) && commitOk(k))
  }

  lemma ResultsOneMore(g: Graph, h: Graph, rs: seq<Result>, dbOk: nat -> bool, commitOk: nat -> bool, i: nat,
                   commits: seq<bool>, written: int, failed: int)
    requires i < |rs| && ResultsDone(g, h, rs, dbOk, commitOk, i, commits, written, failed)
    ensures
      var ok := ResultWritten(rs[i], dbOk(i));
      ResultsDone(g, if ok then Apply(h, R(rs[i])) else h, rs, dbOk, commitOk, i + 1,
              commits + [ok && commitOk(i)], written + One(ok), failed + One(!ok))
  {
    NextResult(g, rs, dbOk, i);
  }

  /** Where the first i messages have brought the graph, the commits and the counters. */
  ghost predicate EdgesDone(g: Graph, h: Graph, es: seq<Edge>, dbOk: nat -> bool, commitOk: nat -> bool, i: nat,
                          commits: seq<bool>, written: int, failed: int)
    requires i <= |es|
  {
    var log := WrittenEdges(es[..i], dbOk);
    && h == Run(g, log) && written == |log| && failed == i - |log| && |commits| == i
    && forall k :: 0 <= k < i ==> commits[k] == (EdgeWritten(es[k], dbOk(k)) && commitOk(k))
  }

  lemma EdgesOneMore(g: Graph, h: Graph, es: seq<Edge>, dbOk: nat -> bool, commitOk: nat -> bool, i: nat,
                   commits: seq<bool>, written: int, failed: int)
    requires i < |es| && EdgesDone(g, h, es, dbOk, commitOk, i, commits, written, failed)
    ensures
      var ok := EdgeWritten(es[i], dbOk(i));
      EdgesDone(g, if ok then Apply(h, E(es[i])) else h, es, dbOk, commitOk, i + 1,
              commits + [ok && commitOk(i)], written + One(ok), failed + One(!ok))
  {
    NextEdge(g, es, dbOk, i);
  }

  /** A pass over decodable results that the database accepts writes them all. */
  lemma {:induction false} CleanPassWritesAll(rs: seq<Result>, dbOk: nat -> bool)
    requires (forall k :: 0 <= k < |rs| ==> !rs[k].Malformed?) && forall k :: dbOk(k)
    ensures WrittenResults(rs, dbOk) == GraphTheorems.AsOps(rs, [])
  {
    if rs != [] {
      CleanPassWritesAll(rs[..|rs| - 1], dbOk);
    }
  }

  class Writer {
    var graph: Graph
    var resultsReceived: nat
    var resultsFailed: nat
    var resultsWritten: nat
    var edgesReceived: nat
    var edgesFailed: nat
    var edgesWritten: nat

    constructor (g: Graph)
      ensures graph == g
      ensures resultsReceived == resultsFailed == resultsWritten == 0
      ensures edgesReceived == edgesFailed == edgesWritten == 0
    {
      graph := g;
      resultsReceived, resultsFailed, resultsWritten := 0, 0, 0;
      edgesReceived, edgesFailed, edgesWritten := 0, 0, 0;
    }

    method WriteResult(r: Result, dbOk: bool) returns (ok: bool)
      modifies this`graph
      ensures ok == ResultWritten(r, dbOk)
      ensures ok <==> !r.Malformed? && (r.OtherType? || r.key == "" || dbOk)
      ensures graph == if ok then Apply(old(graph), R(r)) else old(graph)
      ensures ok && r.BookResult? && r.key != "" ==>
                BookStored(old(graph), graph, r.session, r.key, r.title, r.fullTitle, r.publishDate)
      ensures ok && r.WorkResult? && r.key != "" ==> WorkStored(old(graph), graph, r.session, r.key, r.title)
      ensures ok && r.AuthorResult? && r.key != "" ==> AuthorStored(old(graph), graph, r.session, r.key, r.name)
      ensures !ok || r.OtherType? || r.key == "" ==> graph == old(graph)
    {
      ResultStored(graph, r);
      match r {
      case Malformed => return false;
      case OtherType => return true;
      case BookResult(session, key, title, full, date) =>
        if key == "" { return true; }
        if !dbOk { return false; }
        var values := Props(Some(session), NonEmpty(title), NonEmpty(full), NonEmpty(date), None);
        graph := MergeNode(graph, NodeId(Book, key), values);
      case WorkResult(session, key, title) =>
        if key == "" { return true; }
        if !dbOk { return false; }
        graph := MergeNode(graph, NodeId(Work, key), Props(Some(session), NonEmpty(title), None, None, None));
      case AuthorResult(session, key, name) =>
        if key == "" { return true; }
        if !dbOk { return false; }
        graph := MergeNode(graph, NodeId(Author, key), Props(Some(session), None, None, None, NonEmpty(name)));
      }
      return true;
    }

    method WriteEdge(e: Edge, dbOk: bool) returns (ok: bool)
      modifies this`graph
      ensures ok == EdgeWritten(e, dbOk)
      ensures ok <==> e.Edge? && (e.from == "" || e.to == "" || dbOk)
      ensures graph == if ok then Apply(old(graph), E(e)) else old(graph)
      ensures ok && e.from != "" && e.to != "" ==>
                EdgeStored(old(graph), graph, e.session, e.from, e.to, e.relation)
      ensures !ok || e.from == "" || e.to == "" ==> graph == old(graph)
    {
      EdgeIsStored(graph, e);
      if e.MalformedEdge? { return false; }
      if e.from == "" || e.to == "" { return true; }
      if !dbOk { return false; }
      graph := MergeNode(graph, NodeLabel(e.from), BLANK);
      graph := MergeNode(graph, NodeLabel(e.to), BLANK);
      var edge := EdgeId(NodeLabel(e.from), RelationType(e.relation), e.session, NodeLabel(e.to));
      graph := graph.(edges := graph.edges + {edge});
      return true;
    }

    /** One round of the loop: write, count, and commit what was written. */
    method ConsumeResult(r: Result, dbOk: bool, commitOk: bool) returns (committed: bool)
      modifies this`graph, this`resultsReceived, this`resultsFailed, this`resultsWritten
      ensures graph == if ResultWritten(r, dbOk) then Apply(old(graph), R(r)) else old(graph)
      ensures committed == (ResultWritten(r, dbOk) && commitOk)
      ensures resultsReceived == old(resultsReceived) + 1
      ensures resultsWritten == old(resultsWritten) + One(ResultWritten(r, dbOk))
      ensures resultsFailed == old(resultsFailed) + One(!ResultWritten(r, dbOk))
    {
      resultsReceived := resultsReceived + 1;
      var ok := WriteResult(r, dbOk);
      if !ok {
        resultsFailed := resultsFailed + 1;
        return false;
      }
      resultsWritten := resultsWritten + 1;
      committed := commitOk;
    }

    /** `commits[k]` says whether the k-th offset was committed: exactly when it was written
        and the broker took the commit (`commitOk`). A refused commit is only logged. */
    method ConsumeResults(rs: seq<Result>, dbOk: nat -> bool, commitOk: nat -> bool) returns (commits: seq<bool>)
      modifies this`graph, this`resultsReceived, this`resultsFailed, this`resultsWritten
      ensures graph == Run(old(graph), WrittenResults(rs, dbOk))
      ensures |commits| == |rs|
      ensures forall k :: 0 <= k < |rs| ==> commits[k] == (ResultWritten(rs[k], dbOk(k)) && commitOk(k))
      ensures forall k :: 0 <= k < |rs| && rs[k].Malformed? ==> !commits[k]
      ensures resultsReceived == old(resultsReceived) + |rs|
      ensures resultsWritten == old(resultsWritten) + |WrittenResults(rs, dbOk)|
      ensures resultsFailed == old(resultsFailed) + |rs| - |WrittenResults(rs, dbOk)|
    {
      commits := [];
      for i := 0 to |rs|
        invariant ResultsDone(old(graph), graph, rs, dbOk, commitOk, i, commits,
                          resultsWritten - old(resultsWritten), resultsFailed - old(resultsFailed))
        invariant resultsReceived == old(resultsReceived) + i
      {
        ResultsOneMore(old(graph), graph, rs, dbOk, commitOk, i, commits,
                   resultsWritten - old(resultsWritten), resultsFailed - old(resultsFailed));
        var committed := ConsumeResult(rs[i], dbOk(i), commitOk(i));
        commits := commits + [committed];
      }
      assert rs[..|rs|] == rs;
    }

    /** One round of the loop: write, count, and commit what was written. */
    method ConsumeEdge(e: Edge, dbOk: bool, commitOk: bool) returns (committed: bool)
      modifies this`graph, this`edgesReceived, this`edgesFailed, this`edgesWritten
      ensures graph == if EdgeWritten(e, dbOk) then Apply(old(graph), E(e)) else old(graph)
      ensures committed == (EdgeWritten(e, dbOk) && commitOk)
      ensures edgesReceived == old(edgesReceived) + 1
      ensures edgesWritten == old(edgesWritten) + One(EdgeWritten(e, dbOk))
      ensures edgesFailed == old(edgesFailed) + One(!EdgeWritten(e, dbOk))
    {
      edgesReceived := edgesReceived + 1;
      var ok := WriteEdge(e, dbOk);
      if !ok {
        edgesFailed := edgesFailed + 1;
        return false;
      }
      edgesWritten := edgesWritten + 1;
      committed := commitOk;
    }

    method ConsumeEdges(es: seq<Edge>, dbOk: nat -> bool, commitOk: nat -> bool) returns (commits: seq<bool>)
      modifies this`graph, this`edgesReceived, this`edgesFailed, this`edgesWritten
      ensures graph == Run(old(graph), WrittenEdges(es, dbOk))
      ensures |commits| == |es|
      ensures forall k :: 0 <= k < |es| ==> commits[k] == (EdgeWritten(es[k], dbOk(k)) && commitOk(k))
      ensures forall k :: 0 <= k < |es| && es[k].MalformedEdge? ==> !commits[k]
      ensures edgesReceived == old(edgesReceived) + |es|
      ensures edgesWritten == old(edgesWritten) + |WrittenEdges(es, dbOk)|
      ensures edgesFailed == old(edgesFailed) + |es| - |WrittenEdges(es, dbOk)|
    {
      commits := [];
      for i := 0 to |es|
        invariant EdgesDone(old(graph), graph, es, dbOk, commitOk, i, commits,
                          edgesWritten - old(edgesWritten), edgesFailed - old(edgesFailed))
        invariant edgesReceived == old(edgesReceived) + i
      {
        EdgesOneMore(old(graph), graph, es, dbOk, commitOk, i, commits,
                   edgesWritten - old(edgesWritten), edgesFailed - old(edgesFailed));
        var committed := ConsumeEdge(es[i], dbOk(i), commitOk(i));
        commits := commits + [committed];
      }
      assert es[..|es|] == es;
    }
  }
}
