/** How the expand loops sit in the crawl, and why a claim stands for one requested URL. */
module CrawlUrls {
  import opened Common
  import opened Urls
  import opened Frontier
  import opened FrontierBounds
  import opened Expansion

  // ---------------------------------------------- the loops as steps of the crawl

  function JobsOf(ws: seq<Write>): seq<Job> {
    if ws == [] then []
    else
      var front := JobsOf(ws[..|ws| - 1]);
      if ws[|ws| - 1].JobWrite? then front + [ws[|ws| - 1].job] else front
  }

  function Children(j: Job, urls: seq<string>): seq<Job> {
    if urls == [] then [] else Children(j, urls[..|urls| - 1]) + [Child(j, urls[|urls| - 1])]
  }

  lemma ChildrenSnoc(j: Job, urls: seq<string>, u: string)
    ensures Children(j, urls + [u]) == Children(j, urls) + [Child(j, u)]
  {
    assert (urls + [u])[..|urls|] == urls;
  }

  /** The first n children are the children over the first n links. */
  lemma {:induction false} ChildrenPrefix(j: Job, urls: seq<string>, n: nat)
    requires n <= |urls|
    ensures |Children(j, urls)| == |urls| && Children(j, urls)[..n] == Children(j, urls[..n])
  {
    if |urls| > 0 {
      var m := |urls| - 1;
      if n <= m {
        ChildrenPrefix(j, urls[..m], n);
        assert urls[..m][..n] == urls[..n];
      } else {
        ChildrenPrefix(j, urls[..m], m);
        assert urls[..n] == urls;
      }
    }
  }

  lemma {:induction false} JobsConcat(a: seq<Write>, b: seq<Write>)
    ensures JobsOf(a + b) == JobsOf(a) + JobsOf(b)
    decreases |b|
  {
    if b == [] {
      assert a + b == a;
    } else {
      assert (a + b)[..|a + b| - 1] == a + b[..|b| - 1];
      JobsConcat(a, b[..|b| - 1]);
    }
  }

  lemma ItemJobs(c: Config, j: Job, i: Item)
    ensures JobsOf(ItemWrites(c, j, i)) == if MayExpand(c, j) then [Child(j, i.url)] else []
  {
    var link := LinkWrites(c, j, i.url);
    assert link != [] ==> link[..0] == [];
    assert JobsOf(link) == if MayExpand(c, j) then [Child(j, i.url)] else [];
    if !i.LinkOnly? {
      assert [Edge(i.edge)][..0] == [];
      assert JobsOf([Edge(i.edge)]) == [];
      JobsConcat(link, [Edge(i.edge)]);
      JobsConcat([Edge(i.edge)], link);
    }
  }

  lemma JobsStep(c: Config, j: Job, ws: seq<Write>, i: Item)
    ensures JobsOf(ws + ItemWrites(c, j, i)) == JobsOf(ws) + if MayExpand(c, j) then [Child(j, i.url)] else []
  {
    ItemJobs(c, j, i);
    JobsConcat(ws, ItemWrites(c, j, i));
  }

  /** The jobs of a whole expansion are the children over all links, in order. */
  lemma {:induction false} ScriptJobs(c: Config, j: Job, items: seq<Item>)
    ensures JobsOf(Script(c, j, items)) == if MayExpand(c, j) then Children(j, UrlsOf(items)) else []
  {
    if items != [] {
      var front, last := items[..|items| - 1], items[|items| - 1];
      ScriptJobs(c, j, front);
      JobsStep(c, j, Script(c, j, front), last);
      ChildrenSnoc(j, UrlsOf(front), last.url);
    }
  }

  function Repeat(e: Event, n: nat): seq<Event> { if n == 0 then [] else Repeat(e, n - 1) + [e] }

  lemma PublishOnce(c: Config, s: State, i: nat) returns (t: State)
    requires i in s.running && i < |s.log| && MayExpand(c, s.log[i]) && s.running[i] < |c.links(s.log[i].url)|
    ensures Enabled(c, s, Publish(i)) && t == Apply(c, s, Publish(i))
    ensures i in t.running && t.running[i] == s.running[i] + 1
    ensures t.log == s.log + [Child(s.log[i], c.links(s.log[i].url)[s.running[i]])]
  {
    t := Apply(c, s, Publish(i));
  }

  /** n publish steps of job i append its next n children. */
  lemma {:induction false} PublishMany(c: Config, s: State, i: nat, n: nat) returns (t: State)
    requires i in s.running && i < |s.log| && MayExpand(c, s.log[i])
    requires s.running[i] + n <= |c.links(s.log[i].url)|
    ensures Reaches(c, s, Repeat(Publish(i), n), t)
    ensures i in t.running && t.running[i] == s.running[i] + n && s.log <= t.log
    ensures t.log == s.log + Children(s.log[i], c.links(s.log[i].url)[s.running[i]..s.running[i] + n])
    decreases n
  {
    if n == 0 {
      assert c.links(s.log[i].url)[s.running[i]..s.running[i]] == [];
      return s;
    }
    var u := PublishMany(c, s, i, n - 1);
    t := PublishNext(c, s, u, i, n - 1);
    ReachesSnoc(c, s, Repeat(Publish(i), n - 1), u, Publish(i));
  }

  /** One step after n of them. */
  lemma PublishNext(c: Config, s: State, u: State, i: nat, n: nat) returns (t: State)
    requires i in s.running && i < |s.log| && MayExpand(c, s.log[i]) && s.log <= u.log
    requires s.running[i] + n < |c.links(s.log[i].url)| && i in u.running && u.running[i] == s.running[i] + n
    requires u.log == s.log + Children(s.log[i], c.links(s.log[i].url)[s.running[i]..s.running[i] + n])
    ensures Enabled(c, u, Publish(i)) && t == Apply(c, u, Publish(i))
    ensures i in t.running && t.running[i] == s.running[i] + n + 1 && s.log <= t.log
    ensures t.log == s.log + Children(s.log[i], c.links(s.log[i].url)[s.running[i]..s.running[i] + n + 1])
  {
    t := PublishOnce(c, u, i);
    ChildrenGrow(s.log, s.log[i], c.links(s.log[i].url), s.running[i], s.running[i] + n);
  }

  lemma ChildrenGrow(log: seq<Job>, j: Job, links: seq<string>, from: nat, to: nat)
    requires from <= to < |links|
    ensures (log + Children(j, links[from..to])) + [Child(j, links[to])] == log + Children(j, links[from..to + 1])
  {
    Associate(log, Children(j, links[from..to]), [Child(j, links[to])]);
    ChildrenSnoc(j, links[from..to], links[to]);
    assert links[from..to + 1] == links[from..to] + [links[to]];
  }

  lemma PrefixJobs(c: Config, j: Job, items: seq<Item>, w: seq<Write>)
    requires w <= Script(c, j, items)
    ensures |JobsOf(w)| <= |UrlsOf(items)|
    ensures JobsOf(w) == if MayExpand(c, j) then Children(j, UrlsOf(items)[..|JobsOf(w)|]) else []
  {
    var rest := Script(c, j, items)[|w|..];
    assert Script(c, j, items) == w + rest;
    JobsConcat(w, rest);
    ScriptJobs(c, j, items);
    ChildrenPrefix(j, UrlsOf(items), |UrlsOf(items)|);
    if MayExpand(c, j) { ChildrenPrefix(j, UrlsOf(items), |JobsOf(w)|); }
  }

  /** Whatever the expand loops managed to write before a failure, the frontier has grown
      as by some number of publish steps of that job. */
  lemma ExpansionRefinesCrawl(c: Config, s: State, i: nat, page: Page, escape: string -> string, w: seq<Write>)
    returns (n: nat, t: State)
    requires i < |s.log| && i in s.running && s.running[i] == 0
    requires c.links(s.log[i].url) == Links(s.log[i].url, page, escape)
    requires w <= Script(c, s.log[i], Items(s.log[i].url, page, escape))
    ensures Reaches(c, s, Repeat(Publish(i), n), t) && t.log == s.log + JobsOf(w)
  {
    var j := s.log[i];
    var items := Items(j.url, page, escape);
    PrefixJobs(c, j, items, w);
    UrlsAt(items);
    assert UrlsOf(items) == c.links(j.url);
    if MayExpand(c, j) {
      n := |JobsOf(w)|;
      t := PublishMany(c, s, i, n);
      assert c.links(j.url)[0..n] == c.links(j.url)[..n];
    } else {
      n, t := 0, s;
    }
  }

  // ------------------------------------------------------- one claim per URL

  lemma {:induction false} SearchItemsCanonical(url: string, docs: seq<string>)
    ensures forall k :: 0 <= k < |SearchItems(url, docs)| ==> Canonical(SearchItems(url, docs)[k].url)
  {
    if docs != [] {
      SearchItemsCanonical(url, docs[..|docs| - 1]);
      EnsureJsonUrlIsFixed("https://openlibrary.org" + docs[|docs| - 1]);
    }
  }

  lemma KeyItemsCanonical(from: string, keys: seq<string>, relation: string)
    ensures forall k :: 0 <= k < |keys| ==> Canonical(KeyItems(from, keys, relation)[k].url)
  {
    forall k | 0 <= k < |keys| ensures Canonical(KeyItems(from, keys, relation)[k].url) {
      EnsureJsonUrlIsFixed("https://openlibrary.org" + keys[k]);
    }
  }

  lemma SubjectItemsCanonical(from: string, subjects: seq<string>, relation: string, escape: string -> string)
    ensures forall k :: 0 <= k < |subjects| ==> Canonical(SubjectItems(from, subjects, relation, escape)[k].url)
  {
    forall k | 0 <= k < |subjects| ensures Canonical(SubjectItems(from, subjects, relation, escape)[k].url) {
      SearchUrlIsSearch("subject=", escape(subjects[k]));
    }
  }

  /** Every URL the crawler discovers is canonical. */
  lemma LinksCanonical(url: string, page: Page, escape: string -> string)
    ensures forall k :: 0 <= k < |Links(url, page, escape)| ==> Canonical(Links(url, page, escape)[k])
  {
    if IsSearchUrl(url) {
      if page.SearchPage? { SearchItemsCanonical(url, page.docs); }
    } else {
      match page
      case BookPage(key, authors, works, subjects) =>
        KeyItemsCanonical(key, authors, "book_author");
        KeyItemsCanonical(key, works, "book_work");
        SubjectItemsCanonical(key, subjects, "book_subject", escape);
      case WorkPage(key, authors, subjects) =>
        KeyItemsCanonical(key, authors, "work_author");
        SubjectItemsCanonical(key, subjects, "work_subject", escape);
      case AuthorPage(_, name) => SearchUrlIsSearch("author=", escape(name));
      case _ =>
    }
  }

  /** The crawl of a site, seeded through the API. */
  ghost predicate Crawls(c: Config, site: string -> Page, escape: string -> string) {
    && (forall u :: c.links(u) == Links(u, site(u), escape))
    && (forall u :: c.key(u) == DedupeKey(u))
  }

  /** The key under which a URL is claimed tells it from every other URL. */
  lemma CrawlKeysInjective(c: Config, site: string -> Page, escape: string -> string)
    requires Crawls(c, site, escape)
    ensures KeysInjective(c)
  {
    forall a, b | c.key(a) == c.key(b) ensures a == b { DedupeKeyInjective(a, b); }
  }

  ghost predicate ApiSeed(e: Event, escape: string -> string) {
    e.Seed? ==> exists seed :: e.url == NormalizeSeed(seed, escape)
  }

  ghost predicate AllCanonical(s: State) { forall i :: 0 <= i < |s.log| ==> Canonical(s.log[i].url) }

  lemma CanonicalStep(c: Config, s: State, e: Event, site: string -> Page, escape: string -> string)
    requires Crawls(c, site, escape) && ApiSeed(e, escape) && AllCanonical(s) && Enabled(c, s, e)
    ensures AllCanonical(Apply(c, s, e))
  {
    if e.Seed? {
      var seed :| e.url == NormalizeSeed(seed, escape);
      NormalizeSeedCanonical(seed, escape);
    } else if e.Publish? {
      var u := s.log[e.i].url;
      LinksCanonical(u, site(u), escape);
    }
  }

  lemma {:induction false} CanonicalReaches(c: Config, s: State, es: seq<Event>, t: State,
                                            site: string -> Page, escape: string -> string)
    requires Crawls(c, site, escape) && AllCanonical(s) && Reaches(c, s, es, t)
    requires forall k :: 0 <= k < |es| ==> ApiSeed(es[k], escape)
    ensures AllCanonical(t)
    decreases |es|
  {
    if es != [] {
      CanonicalStep(c, s, es[0], site, escape);
      CanonicalReaches(c, Apply(c, s, es[0]), es[1..], t, site, escape);
    }
  }

  /** One claim per URL: across all workers and runs without key expiry, the job URL is
      the URL requested, and no two claims share a requested URL or a dedupe key. */
  lemma OneClaimPerUrl(c: Config, es: seq<Event>, t: State, site: string -> Page, escape: string -> string)
    requires Crawls(c, site, escape) && Reaches(c, START, es, t)
    requires forall k :: 0 <= k < |es| ==> ApiSeed(es[k], escape)
    ensures forall i :: 0 <= i < |t.log| ==> FetchUrl(t.log[i].url) == t.log[i].url
    ensures forall k :: 0 <= k < |t.spawned| ==> t.spawned[k] < |t.log|
    ensures forall k, l :: 0 <= k < l < |t.spawned| ==>
              && FetchUrl(t.log[t.spawned[k]].url) != FetchUrl(t.log[t.spawned[l]].url)
              && DedupeKey(t.log[t.spawned[k]].url) != DedupeKey(t.log[t.spawned[l]].url)
  {
    CanonicalReaches(c, START, es, t, site, escape);
    SoundCrawl(c, es, t);
    forall i | 0 <= i < |t.log| ensures FetchUrl(t.log[i].url) == t.log[i].url {
      CanonicalIsFetched(t.log[i].url);
    }
    forall k, l | 0 <= k < l < |t.spawned|
      ensures DedupeKey(t.log[t.spawned[k]].url) != DedupeKey(t.log[t.spawned[l]].url)
    {
      assert c.key(t.log[t.spawned[k]].url) != c.key(t.log[t.spawned[l]].url);
    }
  }
}
