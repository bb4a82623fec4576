/** From a fetched page to frontier jobs and edges: the expand loops, which stop at the
    first write that fails. */
module Expansion {
  import opened Common
  import opened Urls
  import opened Frontier

  /** What a fetch yields, once parsed. */
  datatype Page =
    | SearchPage(docs: seq<string>)
    | BookPage(key: string, authors: seq<string>, works: seq<string>, subjects: seq<string>)
    | WorkPage(key: string, authors: seq<string>, subjects: seq<string>)
    | AuthorPage(key: string, name: string)
    | NoNode
    | FetchFailed  // no page, or none that parses

  datatype EdgeWrite = EdgeWrite(from: string, to: string, relation: string)

  /** One discovery: a link and possibly an edge, written in that order or the other. */
  datatype Item =
    | EdgeThenLink(edge: EdgeWrite, url: string)
    | LinkThenEdge(url: string, edge: EdgeWrite)
    | LinkOnly(url: string)

  function KeyUrl(key: string): string { EnsureJsonUrl("https://openlibrary.org" + key) }

  function KeyItems(from: string, keys: seq<string>, relation: string): (r: seq<Item>)
    ensures |r| == |keys|
    ensures forall i :: 0 <= i < |keys| ==> r[i] == EdgeThenLink(EdgeWrite(from, keys[i], relation), KeyUrl(keys[i]))
  {
    seq(|keys|, i requires 0 <= i < |keys| => EdgeThenLink(EdgeWrite(from, keys[i], relation), KeyUrl(keys[i])))
  }

  function SubjectItems(from: string, subjects: seq<string>, relation: string, escape: string -> string): (r: seq<Item>)
    ensures |r| == |subjects|
    ensures forall i :: 0 <= i < |subjects| ==>
      r[i] == LinkThenEdge(SearchUrl("subject=", escape(subjects[i])),
                           EdgeWrite(from, "subject:" + subjects[i], relation))
  {
    seq(|subjects|, i requires 0 <= i < |subjects| =>
      LinkThenEdge(SearchUrl("subject=", escape(subjects[i])), EdgeWrite(from, "subject:" + subjects[i], relation)))
  }

  /** Search results without a key are skipped. */
  function SearchItems(url: string, docs: seq<string>): seq<Item> {
    if docs == [] then []
    else
      var front, last := SearchItems(url, docs[..|docs| - 1]), docs[|docs| - 1];
      if last == "" then front else front + [LinkThenEdge(KeyUrl(last), EdgeWrite(url, last, "search_work"))]
  }

  /** Everything a job discovers, in order. A search job reads its page as search results,
      any other job by the type of its node. */
  function Items(url: string, page: Page, escape: string -> string): seq<Item> {
    if IsSearchUrl(url) then if page.SearchPage? then SearchItems(url, page.docs) else []
    else
      match page
      case BookPage(key, authors, works, subjects) =>
        KeyItems(key, authors, "book_author") + KeyItems(key, works, "book_work")
        + SubjectItems(key, subjects, "book_subject", escape)
      case WorkPage(key, authors, subjects) =>
        KeyItems(key, authors, "work_author") + SubjectItems(key, subjects, "work_subject", escape)
      case AuthorPage(_, name) => if name == "" then [] else [LinkOnly(SearchUrl("author=", escape(name)))]
      case SearchPage(_) => []
      case NoNode => []
      case FetchFailed => []
  }

  function UrlsOf(items: seq<Item>): seq<string> {
    if items == [] then [] else UrlsOf(items[..|items| - 1]) + [items[|items| - 1].url]
  }

  lemma {:induction false} UrlsAt(items: seq<Item>)
    ensures |UrlsOf(items)| == |items| && forall k :: 0 <= k < |items| ==> UrlsOf(items)[k] == items[k].url
  {
    if items != [] { UrlsAt(items[..|items| - 1]); }
  }

  /** Where a job's discoveries lead. */
  function Links(url: string, page: Page, escape: string -> string): (r: seq<string>)
    ensures |r| == |Items(url, page, escape)|
    ensures forall k :: 0 <= k < |r| ==> r[k] == Items(url, page, escape)[k].url
  {
    UrlsAt(Items(url, page, escape));
    UrlsOf(Items(url, page, escape))
  }

  // ------------------------------------------------------------- writing them out

  datatype Write = JobWrite(job: Job) | Edge(edge: EdgeWrite)

  function LinkWrites(c: Config, j: Job, url: string): seq<Write> {
    if MayExpand(c, j) then [JobWrite(Child(j, url))] else []
  }

  function ItemWrites(c: Config, j: Job, i: Item): seq<Write> {
    match i
    case EdgeThenLink(e, u) => [Edge(e)] + LinkWrites(c, j, u)
    case LinkThenEdge(u, e) => LinkWrites(c, j, u) + [Edge(e)]
    case LinkOnly(u) => LinkWrites(c, j, u)
  }

  function Script(c: Config, j: Job, items: seq<Item>): seq<Write> {
    if items == [] then [] else Script(c, j, items[..|items| - 1]) + ItemWrites(c, j, items[|items| - 1])
  }

  lemma ScriptSnoc(c: Config, j: Job, items: seq<Item>, i: Item)
    ensures Script(c, j, items + [i]) == Script(c, j, items) + ItemWrites(c, j, i)
  {
    assert (items + [i])[..|items|] == items;
  }

  lemma {:induction false} ScriptConcat(c: Config, j: Job, a: seq<Item>, b: seq<Item>)
    ensures Script(c, j, a + b) == Script(c, j, a) + Script(c, j, b)
    decreases |b|
  {
    if b == [] {
      assert a + b == a;
    } else {
      var front, last := b[..|b| - 1], b[|b| - 1];
      var x, y, z := Script(c, j, a), Script(c, j, front), ItemWrites(c, j, last);
      calc {
        Script(c, j, a + b);
      ==  { assert a + b == (a + front) + [last]; ScriptSnoc(c, j, a + front, last); }
        Script(c, j, a + front) + z;
      ==  { ScriptConcat(c, j, a, front); }
        (x + y) + z;
      ==  { Associate(x, y, z); }
        x + (y + z);
      ==  { assert b == front + [last]; ScriptSnoc(c, j, front, last); }
        x + Script(c, j, b);
      }
    }
  }

  // ------------------------------------------------------------------- the writer

  /** What was written, and how many writes were tried. */
  datatype Tally = Tally(writes: seq<Write>, attempts: nat)

  ghost predicate AllAccepted(accepts: nat -> bool, from: nat, n: nat) {
    forall i: nat :: from <= i < from + n ==> accepts(i)
  }

  /** From s to t the writes of a script were tried one after the other: all of them, or
      up to and including the first that was refused. */
  ghost predicate Wrote(accepts: nat -> bool, s: Tally, t: Tally, script: seq<Write>, ok: bool) {
    if ok then t == Tally(s.writes + script, s.attempts + |script|) && AllAccepted(accepts, s.attempts, |script|)
    else
      var k := t.attempts - s.attempts - 1;
      && 0 <= k < |script| && t.writes == s.writes + script[..k]
      && AllAccepted(accepts, s.attempts, k) && !accepts(s.attempts + k)
  }

  /** It succeeds exactly when the broker accepts that many writes in a row. */
  lemma WroteOk(accepts: nat -> bool, s: Tally, t: Tally, script: seq<Write>, ok: bool)
    requires Wrote(accepts, s, t, script, ok)
    ensures ok <==> AllAccepted(accepts, s.attempts, |script|)
    ensures s.writes <= t.writes <= s.writes + script
  {
    if !ok {
      var k := t.attempts - s.attempts - 1;
      assert !accepts(s.attempts + k);
      assert (s.writes + script)[..|s.writes| + k] == s.writes + script[..k];
    }
  }

  lemma WroteThen(accepts: nat -> bool, s0: Tally, s1: Tally, s2: Tally, a: seq<Write>, b: seq<Write>, ok: bool)
    requires Wrote(accepts, s0, s1, a, true) && Wrote(accepts, s1, s2, b, ok)
    ensures Wrote(accepts, s0, s2, a + b, ok)
  {
    if ok {
      Associate(s0.writes, a, b);
    } else {
      var k := s2.attempts - s1.attempts - 1;
      assert (a + b)[..|a| + k] == a + b[..k];
      Associate(s0.writes, a, b[..k]);
    }
  }

  lemma WroteLess(accepts: nat -> bool, s0: Tally, s1: Tally, a: seq<Write>, b: seq<Write>)
    requires Wrote(accepts, s0, s1, a, false)
    ensures Wrote(accepts, s0, s1, a + b, false)
  {
    var k := s1.attempts - s0.attempts - 1;
    assert (a + b)[..k] == a[..k];
  }

  class Publisher {
    const config: Config
    const escape: string -> string
    const accepts: nat -> bool  // whether the k-th write to Kafka succeeds
    var writes: seq<Write>
    var attempts: nat

    constructor (config: Config, escape: string -> string, accepts: nat -> bool)
      ensures this.config == config && this.escape == escape && this.accepts == accepts
      ensures Sent() == Tally([], 0)
    {
      this.config, this.escape, this.accepts := config, escape, accepts;
      writes, attempts := [], 0;
    }

    function Sent(): Tally
      reads this
    {
      Tally(writes, attempts)
    }

    method Put(w: Write) returns (ok: bool)
      modifies this
      ensures ok == accepts(old(attempts)) && attempts == old(attempts) + 1
      ensures writes == if ok then old(writes) + [w] else old(writes)
      ensures Wrote(accepts, old(Sent()), Sent(), [w], ok)
    {
      ok := accepts(attempts);
      attempts := attempts + 1;
      if ok { writes := writes + [w]; }
    }

    method EnqueueUrl(j: Job, url: string) returns (ok: bool)
      modifies this
      ensures Wrote(accepts, old(Sent()), Sent(), LinkWrites(config, j, url), ok)
    {
      if config.maxDepth > 0 && j.depth >= config.maxDepth {
        return true;
      }
      ok := Put(JobWrite(Job(j.session, j.seedUrl, url, j.depth + 1)));
    }

    method PublishEdge(from: string, to: string, relation: string) returns (ok: bool)
      modifies this
      ensures Wrote(accepts, old(Sent()), Sent(), [Edge(EdgeWrite(from, to, relation))], ok)
    {
      ok := Put(Edge(EdgeWrite(from, to, relation)));
    }

    /** Both writes of one discovery; the second is not tried when the first fails. */
    method PublishItem(j: Job, i: Item) returns (ok: bool)
      modifies this
      ensures Wrote(accepts, old(Sent()), Sent(), ItemWrites(config, j, i), ok)
    {
      ghost var start := Sent();
      match i
      case EdgeThenLink(e, u) =>
        ok := PublishEdge(e.from, e.to, e.relation);
        if !ok {
          WroteLess(accepts, start, Sent(), [Edge(e)], LinkWrites(config, j, u));
          return;
        }
        ghost var middle := Sent();
        ok := EnqueueUrl(j, u);
        WroteThen(accepts, start, middle, Sent(), [Edge(e)], LinkWrites(config, j, u), ok);
      case LinkThenEdge(u, e) =>
        ok := EnqueueUrl(j, u);
        if !ok {
          WroteLess(accepts, start, Sent(), LinkWrites(config, j, u), [Edge(e)]);
          return;
        }
        ghost var middle := Sent();
        ok := PublishEdge(e.from, e.to, e.relation);
        WroteThen(accepts, start, middle, Sent(), LinkWrites(config, j, u), [Edge(e)], ok);
      case LinkOnly(u) =>
        ok := EnqueueUrl(j, u);
    }

    method PublishKeys(j: Job, from: string, keys: seq<string>, relation: string) returns (ok: bool)
      modifies this
      ensures Wrote(accepts, old(Sent()), Sent(), Script(config, j, KeyItems(from, keys, relation)), ok)
    {
      ghost var start, items := Sent(), KeyItems(from, keys, relation);
      for i := 0 to |keys|
        invariant Wrote(accepts, start, Sent(), Script(config, j, items[..i]), true)
      {
        ghost var before := Sent();
        var url := EnsureJsonUrl("https://openlibrary.org" + keys[i]);
        ok := PublishItem(j, EdgeThenLink(EdgeWrite(from, keys[i], relation), url));
        if !ok {
          StopsEarly(accepts, start, before, Sent(), config, j, items, i);
          return;
        }
        GoesOn(accepts, start, before, Sent(), config, j, items, i);
      }
      assert items[..|keys|] == items;
      return true;
    }

    method PublishSubjects(j: Job, from: string, subjects: seq<string>, relation: string) returns (ok: bool)
      modifies this
      ensures Wrote(accepts, old(Sent()), Sent(), Script(config, j, SubjectItems(from, subjects, relation, escape)), ok)
    {
      ghost var start, items := Sent(), SubjectItems(from, subjects, relation, escape);
      for i := 0 to |subjects|
        invariant Wrote(accepts, start, Sent(), Script(config, j, items[..i]), true)
      {
        ghost var before := Sent();
        var url := SearchUrl("subject=", escape(subjects[i]));
        ok := PublishItem(j, LinkThenEdge(url, EdgeWrite(from, "subject:" + subjects[i], relation)));
        if !ok {
          StopsEarly(accepts, start, before, Sent(), config, j, items, i);
          return;
        }
        GoesOn(accepts, start, before, Sent(), config, j, items, i);
      }
      assert items[..|subjects|] == items;
      return true;
    }

    method ExpandSearch(j: Job, docs: seq<string>) returns (ok: bool)
      modifies this
      ensures Wrote(accepts, old(Sent()), Sent(), Script(config, j, SearchItems(j.url, docs)), ok)
    {
      ghost var start := Sent();
      for i := 0 to |docs|
        invariant Wrote(accepts, start, Sent(), Script(config, j, SearchItems(j.url, docs[..i])), true)
      {
        assert docs[..i + 1][..i] == docs[..i];
        if docs[i] != "" {
          ghost var before := Sent();
          var url := EnsureJsonUrl("https://openlibrary.org" + docs[i]);
          ok := PublishItem(j, LinkThenEdge(url, EdgeWrite(j.url, docs[i], "search_work")));
          if !ok {
            SearchStopsEarly(accepts, start, before, Sent(), config, j, docs, i);
            return;
          }
          SearchGoesOn(accepts, start, before, Sent(), config, j, docs, i);
        }
      }
      assert docs[..|docs|] == docs;
      return true;
    }

    method ExpandBook(j: Job, page: Page) returns (ok: bool)
      requires page.BookPage? && !IsSearchUrl(j.url)
      modifies this
      ensures Wrote(accepts, old(Sent()), Sent(), Script(config, j, Items(j.url, page, escape)), ok)
    {
      ghost var a, b := KeyItems(page.key, page.authors, "book_author"), KeyItems(page.key, page.works, "book_work");
      ghost var d := SubjectItems(page.key, page.subjects, "book_subject", escape);
      ScriptConcat(config, j, a, b);
      ScriptConcat(config, j, a + b, d);
      ghost var s0, sa, sb, sd := Sent(), Script(config, j, a), Script(config, j, b), Script(config, j, d);
      ok := PublishKeys(j, page.key, page.authors, "book_author");
      if !ok {
        WroteLess(accepts, s0, Sent(), sa, sb);
        WroteLess(accepts, s0, Sent(), sa + sb, sd);
        return;
      }
      ghost var s1 := Sent();
      ok := PublishKeys(j, page.key, page.works, "book_work");
      WroteThen(accepts, s0, s1, Sent(), sa, sb, ok);
      if !ok {
        WroteLess(accepts, s0, Sent(), sa + sb, sd);
        return;
      }
      ghost var s2 := Sent();
      ok := PublishSubjects(j, page.key, page.subjects, "book_subject");
      WroteThen(accepts, s0, s2, Sent(), sa + sb, sd, ok);
    }

    method ExpandWork(j: Job, page: Page) returns (ok: bool)
      requires page.WorkPage? && !IsSearchUrl(j.url)
      modifies this
      ensures Wrote(accepts, old(Sent()), Sent(), Script(config, j, Items(j.url, page, escape)), ok)
    {
      ghost var a := KeyItems(page.key, page.authors, "work_author");
      ghost var d := SubjectItems(page.key, page.subjects, "work_subject", escape);
      ScriptConcat(config, j, a, d);
      ghost var s0, sa, sd := Sent(), Script(config, j, a), Script(config, j, d);
      ok := PublishKeys(j, page.key, page.authors, "work_author");
      if !ok {
        WroteLess(accepts, s0, Sent(), sa, sd);
        return;
      }
      ghost var s1 := Sent();
      ok := PublishSubjects(j, page.key, page.subjects, "work_subject");
      WroteThen(accepts, s0, s1, Sent(), sa, sd, ok);
    }

    /** Dispatch on the URL first, then on the node type. A search job fetches its page here,
        so that only here a failed fetch is an error. */
    method Expand(j: Job, page: Page) returns (ok: bool)
      modifies this
      ensures IsSearchUrl(j.url) && page.FetchFailed? ==> !ok && Sent() == old(Sent())
      ensures !(IsSearchUrl(j.url) && page.FetchFailed?) ==>
                && Wrote(accepts, old(Sent()), Sent(), Script(config, j, Items(j.url, page, escape)), ok)
                && (ok <==> AllAccepted(accepts, old(attempts), |Script(config, j, Items(j.url, page, escape))|))
      ensures old(writes) <= writes <= old(writes) + Script(config, j, Items(j.url, page, escape))
      ensures !(IsSearchUrl(j.url) && page.FetchFailed?) ==>
                Wrote(accepts, old(Sent()), Sent(), Called(config, j, page, escape), ok)
    {
      ghost var start, script := Sent(), Script(config, j, Items(j.url, page, escape));
      ScriptIsCalled(config, j, page, escape);
      if IsSearchUrl(j.url) && page.FetchFailed? {
        return false;
      }
      if IsSearchUrl(j.url) {
        if page.SearchPage? { ok := ExpandSearch(j, page.docs); } else { ok := true; }
      } else {
        match page
        case BookPage(_, _, _, _) => ok := ExpandBook(j, page);
        case WorkPage(_, _, _) => ok := ExpandWork(j, page);
        case AuthorPage(_, name) =>
          ok := true;
          if name != "" {
            var url := SearchUrl("author=", escape(name));
            assert [LinkOnly(url)][..0] == [];
            assert script == LinkWrites(config, j, url);
            ok := EnqueueUrl(j, url);
          }
        case _ => ok := true;
      }
      WroteOk(accepts, start, Sent(), script, ok);
    }
  }

  // ------------------------------------------------------------------ the loops

  lemma {:induction false} SearchItemsSplit(url: string, docs: seq<string>, n: nat)
    requires n <= |docs|
    ensures SearchItems(url, docs[..n]) <= SearchItems(url, docs)
    decreases |docs|
  {
    if n == |docs| {
      assert docs[..n] == docs;
    } else {
      SearchItemsSplit(url, docs[..|docs| - 1], n);
      assert docs[..|docs| - 1][..n] == docs[..n];
    }
  }

  /** A result with a key is the next item of the whole list. */
  lemma {:induction false} SearchItemsNext(url: string, docs: seq<string>, i: nat)
    requires i < |docs| && docs[i] != ""
    ensures
      var items, n := SearchItems(url, docs), |SearchItems(url, docs[..i])|;
      && n < |items| && items[..n] == SearchItems(url, docs[..i]) && items[..n + 1] == SearchItems(url, docs[..i + 1])
      && items[n] == LinkThenEdge(KeyUrl(docs[i]), EdgeWrite(url, docs[i], "search_work"))
  {
    assert docs[..i + 1][..i] == docs[..i];
    SearchItemsSplit(url, docs, i + 1);
    SearchItemsSplit(url, docs, i);
  }

  lemma {:induction false} SearchGoesOn(accepts: nat -> bool, s0: Tally, s1: Tally, s2: Tally,
                                        c: Config, j: Job, docs: seq<string>, i: nat)
    requires i < |docs| && docs[i] != "" && Wrote(accepts, s0, s1, Script(c, j, SearchItems(j.url, docs[..i])), true)
    requires
      var item := LinkThenEdge(KeyUrl(docs[i]), EdgeWrite(j.url, docs[i], "search_work"));
      Wrote(accepts, s1, s2, ItemWrites(c, j, item), true)
    ensures Wrote(accepts, s0, s2, Script(c, j, SearchItems(j.url, docs[..i + 1])), true)
  {
    SearchItemsNext(j.url, docs, i);
    var items, n := SearchItems(j.url, docs), |SearchItems(j.url, docs[..i])|;
    GoesOn(accepts, s0, s1, s2, c, j, items, n);
    assert items[..n + 1] == SearchItems(j.url, docs[..i + 1]);
  }

  lemma {:induction false} SearchStopsEarly(accepts: nat -> bool, s0: Tally, s1: Tally, s2: Tally,
                                            c: Config, j: Job, docs: seq<string>, i: nat)
    requires i < |docs| && docs[i] != "" && Wrote(accepts, s0, s1, Script(c, j, SearchItems(j.url, docs[..i])), true)
    requires
      var item := LinkThenEdge(KeyUrl(docs[i]), EdgeWrite(j.url, docs[i], "search_work"));
      Wrote(accepts, s1, s2, ItemWrites(c, j, item), false)
    ensures Wrote(accepts, s0, s2, Script(c, j, SearchItems(j.url, docs)), false)
  {
    SearchItemsNext(j.url, docs, i);
    StopsEarly(accepts, s0, s1, s2, c, j, SearchItems(j.url, docs), |SearchItems(j.url, docs[..i])|);
  }

  lemma {:induction false} GoesOn(accepts: nat -> bool, s0: Tally, s1: Tally, s2: Tally,
                                  c: Config, j: Job, items: seq<Item>, i: nat)
    requires i < |items| && Wrote(accepts, s0, s1, Script(c, j, items[..i]), true)
    requires Wrote(accepts, s1, s2, ItemWrites(c, j, items[i]), true)
    ensures Wrote(accepts, s0, s2, Script(c, j, items[..i + 1]), true)
  {
    assert items[..i + 1] == items[..i] + [items[i]];
    ScriptSnoc(c, j, items[..i], items[i]);
    WroteThen(accepts, s0, s1, s2, Script(c, j, items[..i]), ItemWrites(c, j, items[i]), true);
  }

  /** Failing inside item i is failing inside the whole script. */
  lemma {:induction false} StopsEarly(accepts: nat -> bool, s0: Tally, s1: Tally, s2: Tally,
                                      c: Config, j: Job, items: seq<Item>, i: nat)
    requires i < |items| && Wrote(accepts, s0, s1, Script(c, j, items[..i]), true)
    requires Wrote(accepts, s1, s2, ItemWrites(c, j, items[i]), false)
    ensures Wrote(accepts, s0, s2, Script(c, j, items), false)
  {
    var a, b := items[..i + 1], items[i + 1..];
    assert items[..i] + [items[i]] == a && a + b == items;
    ScriptSnoc(c, j, items[..i], items[i]);
    ScriptConcat(c, j, a, b);
    WroteThen(accepts, s0, s1, s2, Script(c, j, items[..i]), ItemWrites(c, j, items[i]), false);
    WroteLess(accepts, s0, s2, Script(c, j, a), Script(c, j, b));
  }

  // ----------------------------------------- what a page calls for, write by write

  /** The job for a URL found by j, if the depth limit allows one. */
  function Found(c: Config, j: Job, url: string): seq<Write> {
    if c.maxDepth > 0 && j.depth >= c.maxDepth then []
    else [JobWrite(Job(session := j.session, seedUrl := j.seedUrl, url := url, depth := j.depth + 1))]
  }

  function Link(from: string, to: string, relation: string): Write {
    Edge(EdgeWrite(from := from, to := to, relation := relation))
  }

  /** For each catalogue key its edge and then its job. */
  function KeyWrites(c: Config, j: Job, from: string, keys: seq<string>, relation: string): seq<Write> {
    if keys == [] then []
    else
      var front, last := keys[..|keys| - 1], keys[|keys| - 1];
      KeyWrites(c, j, from, front, relation)
      + [Link(from, last, relation)] + Found(c, j, EnsureJsonUrl("https://openlibrary.org" + last))
  }

  /** For each subject the job of its search and then its edge. */
  function SubjectWrites(c: Config, j: Job, from: string, subjects: seq<string>, relation: string,
                         escape: string -> string): seq<Write> {
    if subjects == [] then []
    else
      var front, last := subjects[..|subjects| - 1], subjects[|subjects| - 1];
      SubjectWrites(c, j, from, front, relation, escape)
      + Found(c, j, "https://openlibrary.org/search.json?subject=" + escape(last))
      + [Link(from, "subject:" + last, relation)]
  }

  /** For each search result with a key its job and then its edge. */
  function ResultWrites(c: Config, j: Job, docs: seq<string>): seq<Write> {
    if docs == [] then []
    else
      var front, last := docs[..|docs| - 1], docs[|docs| - 1];
      ResultWrites(c, j, front)
      + if last == "" then [] else Found(c, j, EnsureJsonUrl("https://openlibrary.org" + last))
                                   + [Link(j.url, last, "search_work")]
  }

  /** Everything a page calls for, in order. */
  function Called(c: Config, j: Job, page: Page, escape: string -> string): seq<Write> {
    if IsSearchUrl(j.url) then if page.SearchPage? then ResultWrites(c, j, page.docs) else []
    else
      match page
      case BookPage(key, authors, works, subjects) =>
        KeyWrites(c, j, key, authors, "book_author") + KeyWrites(c, j, key, works, "book_work")
        + SubjectWrites(c, j, key, subjects, "book_subject", escape)
      case WorkPage(key, authors, subjects) =>
        KeyWrites(c, j, key, authors, "work_author") + SubjectWrites(c, j, key, subjects, "work_subject", escape)
      case AuthorPage(_, name) =>
        if name == "" then [] else Found(c, j, "https://openlibrary.org/search.json?author=" + escape(name))
      case _ => []
  }

  lemma SearchUrlIs(kind: string, escaped: string)
    requires kind == "subject=" || kind == "author="
    ensures SearchUrl(kind, escaped) == "https://openlibrary.org/search.json?" + kind + escaped
    ensures kind == "subject=" ==> SearchUrl(kind, escaped) == "https://openlibrary.org/search.json?subject=" + escaped
    ensures kind == "author=" ==> SearchUrl(kind, escaped) == "https://openlibrary.org/search.json?author=" + escaped
  {
    assert "https://openlibrary.org/search.json?" + "subject=" == "https://openlibrary.org/search.json?subject=";
    assert "https://openlibrary.org/search.json?" + "author=" == "https://openlibrary.org/search.json?author=";
  }

  lemma {:induction false} KeyScript(c: Config, j: Job, from: string, keys: seq<string>, relation: string)
    ensures Script(c, j, KeyItems(from, keys, relation)) == KeyWrites(c, j, from, keys, relation)
  {
    if keys != [] {
      var items, front := KeyItems(from, keys, relation), keys[..|keys| - 1];
      KeyScript(c, j, from, front, relation);
      assert items[..|items| - 1] == KeyItems(from, front, relation);
    }
  }

  lemma {:induction false} SubjectScript(c: Config, j: Job, from: string, subjects: seq<string>, relation: string,
                                         escape: string -> string)
    ensures Script(c, j, SubjectItems(from, subjects, relation, escape)) ==
            SubjectWrites(c, j, from, subjects, relation, escape)
  {
    if subjects != [] {
      var items, front := SubjectItems(from, subjects, relation, escape), subjects[..|subjects| - 1];
      SubjectScript(c, j, from, front, relation, escape);
      assert items[..|items| - 1] == SubjectItems(from, front, relation, escape);
      SearchUrlIs("subject=", escape(subjects[|subjects| - 1]));
    }
  }

  lemma {:induction false} ResultScript(c: Config, j: Job, docs: seq<string>)
    ensures Script(c, j, SearchItems(j.url, docs)) == ResultWrites(c, j, docs)
  {
    if docs != [] {
      var front, last := docs[..|docs| - 1], docs[|docs| - 1];
      ResultScript(c, j, front);
      if last != "" {
        ScriptSnoc(c, j, SearchItems(j.url, front), LinkThenEdge(KeyUrl(last), EdgeWrite(j.url, last, "search_work")));
      }
    }
  }

  /** The script of a page is what the page calls for. */
  lemma ScriptIsCalled(c: Config, j: Job, page: Page, escape: string -> string)
    ensures Script(c, j, Items(j.url, page, escape)) == Called(c, j, page, escape)
  {
    if IsSearchUrl(j.url) {
      if page.SearchPage? { ResultScript(c, j, page.docs); }
    } else {
      match page
      case BookPage(key, authors, works, subjects) =>
        var a, b := KeyItems(key, authors, "book_author"), KeyItems(key, works, "book_work");
        ScriptConcat(c, j, a, b);
        ScriptConcat(c, j, a + b, SubjectItems(key, subjects, "book_subject", escape));
        KeyScript(c, j, key, authors, "book_author");
        KeyScript(c, j, key, works, "book_work");
        SubjectScript(c, j, key, subjects, "book_subject", escape);
      case WorkPage(key, authors, subjects) =>
        ScriptConcat(c, j, KeyItems(key, authors, "work_author"), SubjectItems(key, subjects, "work_subject", escape));
        KeyScript(c, j, key, authors, "work_author");
        SubjectScript(c, j, key, subjects, "work_subject", escape);
      case AuthorPage(_, name) =>
        if name != "" {
          SearchUrlIs("author=", escape(name));
          assert Script(c, j, [LinkOnly(SearchUrl("author=", escape(name)))][..0]) == [];
        }
      case _ =>
    }
  }

  // -------------------------------------------------- nothing is missed, nothing added

  /** w is the edge, or the job, of one discovery. */
  predicate Discovers(c: Config, j: Job, w: Write, edge: Write, url: string) { w == edge || w in Found(c, j, url) }

  predicate OfKey(c: Config, j: Job, w: Write, from: string, key: string, relation: string) {
    Discovers(c, j, w, Link(from, key, relation), EnsureJsonUrl("https://openlibrary.org" + key))
  }

  predicate OfSubject(c: Config, j: Job, w: Write, from: string, subject: string, relation: string,
                      escape: string -> string) {
    Discovers(c, j, w, Link(from, "subject:" + subject, relation),
              "https://openlibrary.org/search.json?subject=" + escape(subject))
  }

  lemma InSum(a: seq<Write>, b: seq<Write>, w: Write)
    ensures w in a + b <==> w in a || w in b
  {
  }

  lemma InTriple(a: seq<Write>, b: seq<Write>, d: seq<Write>, w: Write)
    ensures w in a + b + d <==> w in a || w in b || w in d
  {
  }

  lemma InFrontOrLast(keys: seq<string>, k: string)
    requires keys != []
    ensures k in keys <==> k in keys[..|keys| - 1] || k == keys[|keys| - 1]
  {
    assert keys == keys[..|keys| - 1] + [keys[|keys| - 1]];
  }

  lemma {:induction false} KeyWritesMeans(c: Config, j: Job, from: string, keys: seq<string>, relation: string,
                                          w: Write)
    ensures w in KeyWrites(c, j, from, keys, relation) <==> exists k :: k in keys && OfKey(c, j, w, from, k, relation)
  {
    if keys != [] {
      var front, last := keys[..|keys| - 1], keys[|keys| - 1];
      KeyWritesMeans(c, j, from, front, relation, w);
      InTriple(KeyWrites(c, j, from, front, relation), [Link(from, last, relation)],
               Found(c, j, EnsureJsonUrl("https://openlibrary.org" + last)), w);
      forall k ensures k in keys <==> k in front || k == last { InFrontOrLast(keys, k); }
      assert w in KeyWrites(c, j, from, keys, relation) <==>
             w in KeyWrites(c, j, from, front, relation) || OfKey(c, j, w, from, last, relation);
    }
  }

  lemma {:induction false} SubjectWritesMeans(c: Config, j: Job, from: string, subjects: seq<string>, relation: string,
                                              escape: string -> string, w: Write)
    ensures w in SubjectWrites(c, j, from, subjects, relation, escape) <==>
            exists k :: k in subjects && OfSubject(c, j, w, from, k, relation, escape)
  {
    if subjects != [] {
      var front, last := subjects[..|subjects| - 1], subjects[|subjects| - 1];
      SubjectWritesMeans(c, j, from, front, relation, escape, w);
      InTriple(SubjectWrites(c, j, from, front, relation, escape),
               Found(c, j, "https://openlibrary.org/search.json?subject=" + escape(last)),
               [Link(from, "subject:" + last, relation)], w);
      forall k ensures k in subjects <==> k in front || k == last { InFrontOrLast(subjects, k); }
      assert w in SubjectWrites(c, j, from, subjects, relation, escape) <==>
             || w in SubjectWrites(c, j, from, front, relation, escape)
             || OfSubject(c, j, w, from, last, relation, escape);
    }
  }

  lemma {:induction false} ResultWritesMeans(c: Config, j: Job, docs: seq<string>, w: Write)
    ensures w in ResultWrites(c, j, docs) <==>
            exists k :: k in docs && k != "" && OfKey(c, j, w, j.url, k, "search_work")
  {
    if docs != [] {
      var front, last := docs[..|docs| - 1], docs[|docs| - 1];
      ResultWritesMeans(c, j, front, w);
      ResultStep(c, j, docs, w);
      forall k ensures k in docs <==> k in front || k == last { InFrontOrLast(docs, k); }
    }
  }

  lemma {:induction false} ResultStep(c: Config, j: Job, docs: seq<string>, w: Write)
    requires docs != []
    ensures
      var front, last := docs[..|docs| - 1], docs[|docs| - 1];
      w in ResultWrites(c, j, docs) <==>
      w in ResultWrites(c, j, front) || (last != "" && OfKey(c, j, w, j.url, last, "search_work"))
  {
    var front, last := docs[..|docs| - 1], docs[|docs| - 1];
    var found := Found(c, j, EnsureJsonUrl("https://openlibrary.org" + last));
    var edge := [Link(j.url, last, "search_work")];
    InSum(ResultWrites(c, j, front), if last == "" then [] else found + edge, w);
    InSum(found, edge, w);
  }

  /** Exactly what a page calls for: the edge and, below the depth limit, the job of each
      discovery, and nothing else. */
  lemma CalledExactly(c: Config, j: Job, page: Page, escape: string -> string, w: Write)
    ensures IsSearchUrl(j.url) && page.SearchPage? ==>
              (w in Called(c, j, page, escape) <==>
               exists k :: k in page.docs && k != "" && OfKey(c, j, w, j.url, k, "search_work"))
    ensures !IsSearchUrl(j.url) && page.BookPage? ==>
              (w in Called(c, j, page, escape) <==>
               || (exists k :: k in page.authors && OfKey(c, j, w, page.key, k, "book_author"))
               || (exists k :: k in page.works && OfKey(c, j, w, page.key, k, "book_work"))
               || (exists k :: k in page.subjects && OfSubject(c, j, w, page.key, k, "book_subject", escape)))
    ensures !IsSearchUrl(j.url) && page.WorkPage? ==>
              (w in Called(c, j, page, escape) <==>
               || (exists k :: k in page.authors && OfKey(c, j, w, page.key, k, "work_author"))
               || (exists k :: k in page.subjects && OfSubject(c, j, w, page.key, k, "work_subject", escape)))
  {
    if IsSearchUrl(j.url) {
      if page.SearchPage? { ResultWritesMeans(c, j, page.docs, w); }
    } else {
      match page
      case BookPage(key, authors, works, subjects) =>
        KeyWritesMeans(c, j, key, authors, "book_author", w);
        KeyWritesMeans(c, j, key, works, "book_work", w);
        SubjectWritesMeans(c, j, key, subjects, "book_subject", escape, w);
        InTriple(KeyWrites(c, j, key, authors, "book_author"), KeyWrites(c, j, key, works, "book_work"),
                 SubjectWrites(c, j, key, subjects, "book_subject", escape), w);
      case WorkPage(key, authors, subjects) =>
        KeyWritesMeans(c, j, key, authors, "work_author", w);
        SubjectWritesMeans(c, j, key, subjects, "work_subject", escape, w);
        InSum(KeyWrites(c, j, key, authors, "work_author"),
              SubjectWrites(c, j, key, subjects, "work_subject", escape), w);
      case _ =>
    }
  }
}
