/** The graph that the graph writer builds, and what each Kafka message does to it. */
module Graph {
  import opened Common
  import opened Registers
  import opened Strings

  datatype Label = Book | Work | Author | Subject | External

  /** The pattern a MERGE looks for: a label and the value of its key property (`name`
      for subjects, `key` for everything else). */
  datatype NodeId = NodeId(kind: Label, value: string)

  datatype Field = Session | Title | FullTitle | PublishDate | Name

  datatype Props = Props(session: Option<string>, title: Option<string>, fullTitle: Option<string>,
                         publishDate: Option<string>, name: Option<string>)

  datatype EdgeId = EdgeId(from: NodeId, relation: string, session: string, to: NodeId)

  datatype Graph = Graph(nodes: map<NodeId, Props>, edges: set<EdgeId>)

  const BLANK := Props(None, None, None, None, None)

  function FieldOf(p: Props, f: Field): Option<string> {
    match f
    case Session => p.session
    case Title => p.title
    case FullTitle => p.fullTitle
    case PublishDate => p.publishDate
    case Name => p.name
  }

  /** SET x.f = coalesce($f, x.f) for every field. */
  function Overlay(a: Props, b: Props): Props {
    Props(Coalesce(a.session, b.session), Coalesce(a.title, b.title), Coalesce(a.fullTitle, b.fullTitle),
          Coalesce(a.publishDate, b.publishDate), Coalesce(a.name, b.name))
  }

  // --------------------------------------------------------------------- messages

  /** A decoded results message; `Malformed` did not decode, `OtherType` has a node type
      the writer ignores. */
  datatype Result =
    | Malformed
    | OtherType
    | BookResult(session: string, key: string, title: string, fullTitle: string, publishDate: string)
    | WorkResult(session: string, key: string, title: string)
    | AuthorResult(session: string, key: string, name: string)

  datatype Edge = MalformedEdge | Edge(session: string, from: string, to: string, relation: string)

  function NonEmpty(s: string): Option<string> { if s == "" then None else Some(s) }

  /** The node a result is written to, if any. */
  function Target(r: Result): Option<NodeId> {
    match r
    case Malformed => None
    case OtherType => None
    case BookResult(_, key, _, _, _) => if key == "" then None else Some(NodeId(Book, key))
    case WorkResult(_, key, _) => if key == "" then None else Some(NodeId(Work, key))
    case AuthorResult(_, key, _) => if key == "" then None else Some(NodeId(Author, key))
  }

  function Values(r: Result): Props {
    match r
    case Malformed => BLANK
    case OtherType => BLANK
    case BookResult(session, _, title, full, date) =>
      Props(Some(session), NonEmpty(title), NonEmpty(full), NonEmpty(date), None)
    case WorkResult(session, _, title) => Props(Some(session), NonEmpty(title), None, None, None)
    case AuthorResult(session, _, name) => Props(Some(session), None, None, None, NonEmpty(name))
  }

  // ----------------------------------------------------------------- edge endpoints

  function NodeLabel(key: string): NodeId {
    if HasPrefix(key, "/books/") then NodeId(Book, key)
    else if HasPrefix(key, "/works/") then NodeId(Work, key)
    else if HasPrefix(key, "/authors/") then NodeId(Author, key)
    else if HasPrefix(key, "subject:") then NodeId(Subject, key[|"subject:"|..])
    else NodeId(External, key)
  }

  function UpperChar(c: char): char { if 'a' <= c <= 'z' then c - 'a' + 'A' else c }

  function UpperUnderscored(s: string): (r: string)
    ensures |r| == |s|
    ensures forall i :: 0 <= i < |s| ==> r[i] == if s[i] == '-' then '_' else UpperChar(s[i])
  {
    if s == "" then "" else [if s[0] == '-' then '_' else UpperChar(s[0])] + UpperUnderscored(s[1..])
  }

  function RelationType(input: string): string {
    if input == "book_author" then "BOOK_AUTHOR"
    else if input == "book_work" then "BOOK_WORK"
    else if input == "work_author" then "WORK_AUTHOR"
    else if input == "book_subject" then "BOOK_SUBJECT"
    else if input == "work_subject" then "WORK_SUBJECT"
    else if input == "search_work" then "SEARCH_WORK"
    else UpperUnderscored(input)
  }

  /** Different endpoint strings are different nodes. */
  lemma NodeLabelInjective(a: string, b: string)
    requires NodeLabel(a) == NodeLabel(b)
    ensures a == b
  {
    if HasPrefix(a, "subject:") && HasPrefix(b, "subject:") {
      assert a == "subject:" + a[|"subject:"|..] && b == "subject:" + b[|"subject:"|..];
    }
  }

  /** Edges and results agree on which node a catalogue key names. */
  lemma LabelsAgree(r: Result)
    requires Target(r).Some?
    requires r.BookResult? ==> HasPrefix(r.key, "/books/")
    requires r.WorkResult? ==> HasPrefix(r.key, "/works/")
    requires r.AuthorResult? ==> HasPrefix(r.key, "/authors/")
    ensures NodeLabel(r.key) == Target(r).value
  {
    assert "/books/"[1] != "/works/"[1] && "/books/"[1] != "/authors/"[1] && "/works/"[1] != "/authors/"[1];
    assert forall p: string :: |p| > 1 && HasPrefix(r.key, p) ==> r.key[1] == p[1];
  }

  // ---------------------------------------------------------------------- updates

  datatype Op = R(result: Result) | E(edge: Edge)

  function PropsAt(g: Graph, id: NodeId): Props { if id in g.nodes then g.nodes[id] else BLANK }

  function MergeNode(g: Graph, id: NodeId, p: Props): Graph {
    g.(nodes := g.nodes[id := Overlay(p, PropsAt(g, id))])
  }

  function ApplyResult(g: Graph, r: Result): Graph {
    if Target(r).None? then g else MergeNode(g, Target(r).value, Values(r))
  }

  /** Malformed edges and edges with an empty end write nothing. */
  predicate Effective(e: Edge) { e.Edge? && e.from != "" && e.to != "" }

  function EdgeIdOf(e: Edge): EdgeId
    requires e.Edge?
  {
    EdgeId(NodeLabel(e.from), RelationType(e.relation), e.session, NodeLabel(e.to))
  }

  function ApplyEdge(g: Graph, e: Edge): Graph {
    if !Effective(e) then g
    else
      var h := MergeNode(MergeNode(g, NodeLabel(e.from), BLANK), NodeLabel(e.to), BLANK);
      h.(edges := h.edges + {EdgeIdOf(e)})
  }

  function Apply(g: Graph, op: Op): Graph {
    match op
    case R(r) => ApplyResult(g, r)
    case E(e) => ApplyEdge(g, e)
  }

  function Run(g: Graph, ops: seq<Op>): Graph {
    if ops == [] then g else Apply(Run(g, ops[..|ops| - 1]), ops[|ops| - 1])
  }

  lemma RunSnoc(g: Graph, ops: seq<Op>, op: Op)
    ensures Run(g, ops + [op]) == Apply(Run(g, ops), op)
  {
    assert (ops + [op])[..|ops|] == ops;
  }

  // -------------------------------------------------- what a log leaves behind

  /** The op makes sure that the node exists. */
  predicate Mentions(op: Op, id: NodeId) {
    match op
    case R(r) => Target(r) == Some(id)
    case E(e) => Effective(e) && (NodeLabel(e.from) == id || NodeLabel(e.to) == id)
  }

  predicate Adds(op: Op, e: EdgeId) { op.E? && Effective(op.edge) && EdgeIdOf(op.edge) == e }

  /** What the op writes to a field of a node, if anything. */
  function Writes(op: Op, id: NodeId, f: Field): Option<string> {
    if op.R? && Target(op.result) == Some(id) then FieldOf(Values(op.result), f) else None
  }

  function Writings(ops: seq<Op>, id: NodeId, f: Field): (r: seq<Option<string>>)
    ensures |r| == |ops| && forall k :: 0 <= k < |ops| ==> r[k] == Writes(ops[k], id, f)
  {
    seq(|ops|, k requires 0 <= k < |ops| => Writes(ops[k], id, f))
  }

  /** The last value written to a field. */
  function LastWritten(ops: seq<Op>, id: NodeId, f: Field): Option<string> {
    Last(Writings(ops, id, f))
  }

  // ---------------------------------------- what each message does, property by property

  /** A property is set to a non-empty value and keeps what it had otherwise. */
  function Latest(now: string, was: Option<string>): Option<string> { if now == "" then was else Some(now) }

  /** Node `id` ends with properties `p`; no other node and no edge has changed. */
  ghost predicate OnlyNode(g: Graph, h: Graph, id: NodeId, p: Props) {
    && id in h.nodes && h.nodes[id] == p && h.nodes.Keys == g.nodes.Keys + {id} && h.edges == g.edges
    && forall other :: other in g.nodes && other != id ==> h.nodes[other] == g.nodes[other]
  }

  ghost predicate BookStored(g: Graph, h: Graph, session: string, key: string, title: string, full: string,
                             date: string) {
    var id := NodeId(Book, key);
    var was := PropsAt(g, id);
    OnlyNode(g, h, id, Props(session := Some(session), title := Latest(title, was.title),
                             fullTitle := Latest(full, was.fullTitle),
                             publishDate := Latest(date, was.publishDate), name := was.name))
  }

  ghost predicate WorkStored(g: Graph, h: Graph, session: string, key: string, title: string) {
    var id := NodeId(Work, key);
    OnlyNode(g, h, id, PropsAt(g, id).(session := Some(session), title := Latest(title, PropsAt(g, id).title)))
  }

  ghost predicate AuthorStored(g: Graph, h: Graph, session: string, key: string, name: string) {
    var id := NodeId(Author, key);
    OnlyNode(g, h, id, PropsAt(g, id).(session := Some(session), name := Latest(name, PropsAt(g, id).name)))
  }

  /** A book, work or author with a key sets the properties of its own node. */
  lemma ResultStored(g: Graph, r: Result)
    ensures r.BookResult? && r.key != "" ==>
              BookStored(g, Apply(g, R(r)), r.session, r.key, r.title, r.fullTitle, r.publishDate)
    ensures r.WorkResult? && r.key != "" ==> WorkStored(g, Apply(g, R(r)), r.session, r.key, r.title)
    ensures r.AuthorResult? && r.key != "" ==> AuthorStored(g, Apply(g, R(r)), r.session, r.key, r.name)
    ensures r.Malformed? || r.OtherType? || r.key == "" ==> Apply(g, R(r)) == g
  {
  }

  /** An edge joins the nodes of its two ends, in this direction, and leaves the properties of
      all nodes alone. */
  ghost predicate EdgeStored(g: Graph, h: Graph, session: string, from: string, to: string, relation: string) {
    && (exists name :: SpelledUpper(name, relation) && h.edges == g.edges +
          {EdgeId(from := NodeLabel(from), relation := name, session := session, to := NodeLabel(to))})
    && h.nodes.Keys == g.nodes.Keys + {NodeLabel(from), NodeLabel(to)}
    && forall id :: id in h.nodes ==> h.nodes[id] == PropsAt(g, id)
  }

  lemma EdgeIsStored(g: Graph, e: Edge)
    ensures e.Edge? && e.from != "" && e.to != "" ==> EdgeStored(g, Apply(g, E(e)), e.session, e.from, e.to, e.relation)
    ensures e.MalformedEdge? || e.from == "" || e.to == "" ==> Apply(g, E(e)) == g
  {
    if e.Edge? && e.from != "" && e.to != "" {
      RelationIsUpperCase(e.relation);
      BlankChangesNothing(g, NodeLabel(e.from));
      BlankChangesNothing(MergeNode(g, NodeLabel(e.from), BLANK), NodeLabel(e.to));
    }
  }

  lemma BlankChangesNothing(g: Graph, id: NodeId)
    ensures forall other :: PropsAt(MergeNode(g, id, BLANK), other) == PropsAt(g, other)
  {
    assert Overlay(BLANK, PropsAt(g, id)) == PropsAt(g, id);
  }

  /** `name` is the input in upper case, with underscores for hyphens. */
  ghost predicate SpelledUpper(name: string, input: string) {
    |name| == |input| && forall i :: 0 <= i < |name| ==> name[i] == if input[i] == '-' then '_' else UpperChar(input[i])
  }

  lemma UpperBookAuthor()
    ensures SpelledUpper("BOOK_AUTHOR", "book_author")
  {
  }

  lemma UpperBookWork()
    ensures SpelledUpper("BOOK_WORK", "book_work")
  {
  }

  lemma UpperWorkAuthor()
    ensures SpelledUpper("WORK_AUTHOR", "work_author")
  {
  }

  lemma UpperBookSubject()
    ensures SpelledUpper("BOOK_SUBJECT", "book_subject")
  {
  }

  lemma UpperWorkSubject()
    ensures SpelledUpper("WORK_SUBJECT", "work_subject")
  {
  }

  lemma UpperSearchWork()
    ensures SpelledUpper("SEARCH_WORK", "search_work")
  {
  }

  /** The named relations are no exception: every relation is its name in upper case. */
  lemma {:induction false} RelationIsUpperCase(relation: string)
    ensures SpelledUpper(RelationType(relation), relation)
  {
    if relation == "book_author" { UpperBookAuthor(); }
    else if relation == "book_work" { UpperBookWork(); }
    else if relation == "work_author" { UpperWorkAuthor(); }
    else if relation == "book_subject" { UpperBookSubject(); }
    else if relation == "work_subject" { UpperWorkSubject(); }
    else if relation == "search_work" { UpperSearchWork(); }
  }

  lemma BookLabel(x: string)
    ensures NodeLabel("/books/" + x) == NodeId(Book, "/books/" + x)
  {
    PrefixOf("/books/", x);
  }

  lemma WorkLabel(x: string)
    ensures NodeLabel("/works/" + x) == NodeId(Work, "/works/" + x)
  {
    PrefixOf("/works/", x);
    assert "/books/"[1] != "/works/"[1];
  }

  lemma AuthorLabel(x: string)
    ensures NodeLabel("/authors/" + x) == NodeId(Author, "/authors/" + x)
  {
    PrefixOf("/authors/", x);
    assert "/books/"[1] != "/authors/"[1] && "/works/"[1] != "/authors/"[1];
  }

  lemma SubjectLabel(x: string)
    ensures NodeLabel("subject:" + x) == NodeId(Subject, x)
  {
    PrefixOf("subject:", x);
    assert "/books/"[0] != "subject:"[0] && "/works/"[0] != "subject:"[0] && "/authors/"[0] != "subject:"[0];
  }

  /** Which node an endpoint names. */
  lemma LabelKinds(x: string)
    ensures NodeLabel("/books/" + x) == NodeId(Book, "/books/" + x)
    ensures NodeLabel("/works/" + x) == NodeId(Work, "/works/" + x)
    ensures NodeLabel("/authors/" + x) == NodeId(Author, "/authors/" + x)
    ensures NodeLabel("subject:" + x) == NodeId(Subject, x)
  {
    BookLabel(x);
    WorkLabel(x);
    AuthorLabel(x);
    SubjectLabel(x);
  }

  /** And everything else is external. */
  lemma OtherLabel(x: string)
    requires forall p :: p in ["/books/", "/works/", "/authors/", "subject:"] ==> !HasPrefix(x, p)
    ensures NodeLabel(x) == NodeId(External, x)
  {
    var ps := ["/books/", "/works/", "/authors/", "subject:"];
    assert ps[0] in ps && ps[1] in ps && ps[2] in ps && ps[3] in ps;
  }

  lemma PrefixOf(p: string, x: string)
    ensures HasPrefix(p + x, p) && (p + x)[|p|..] == x
    ensures forall i :: 0 <= i < |p| ==> (p + x)[i] == p[i]
    ensures forall q: string :: HasPrefix(p + x, q) ==> forall i :: 0 <= i < |q| && i < |p| ==> q[i] == p[i]
  {
    forall q: string | HasPrefix(p + x, q) ensures forall i :: 0 <= i < |q| && i < |p| ==> q[i] == p[i] {
      assert forall i :: 0 <= i < |q| ==> q[i] == (p + x)[i];
    }
  }
}
