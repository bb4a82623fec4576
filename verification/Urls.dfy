/** The URLs of the crawl: their canonical form, their dedupe keys and the URL that is
    actually fetched for a job. */
module Urls {
  import opened Strings

  function EnsureJsonUrl(url: string): string {
    if HasSuffix(url, ".json") then url else TrimRight(url, '/') + ".json"
  }

  function SearchUrl(kind: string, escaped: string): string {
    "https://openlibrary.org/search.json?" + kind + escaped
  }

  predicate IsSearchUrl(url: string) { Contains(url, "/search.json") }

  /** The seed a crawl starts from; `escape` is the query escaping of the URL library. */
  function NormalizeSeed(seed: string, escape: string -> string): string {
    if HasPrefix(seed, "http://") || HasPrefix(seed, "https://") then EnsureJsonUrl(seed)
    else SearchUrl("q=", escape(seed))
  }

  /** What a job's handler requests. */
  function FetchUrl(url: string): string {
    if IsSearchUrl(url) then url else EnsureJsonUrl(url)
  }

  function DedupeKey(url: string): string {
    if Contains(url, "/authors/") then "visited:author:" + url
    else if Contains(url, "/books/") then "visited:book:" + url
    else "visited:work:" + url
  }

  /** Search URLs and fixed points of `EnsureJsonUrl`. */
  predicate Canonical(url: string) { IsSearchUrl(url) || EnsureJsonUrl(url) == url }

  lemma EnsureJsonUrlIsFixed(url: string)
    ensures HasSuffix(EnsureJsonUrl(url), ".json")
    ensures EnsureJsonUrl(EnsureJsonUrl(url)) == EnsureJsonUrl(url)
  {
    var r := EnsureJsonUrl(url);
    if !HasSuffix(url, ".json") {
      assert r[|r| - 5..] == ".json";
    }
  }

  lemma SearchUrlIsSearch(kind: string, escaped: string)
    ensures IsSearchUrl(SearchUrl(kind, escaped))
  {
    var head, rest := "https://openlibrary.org", "?" + kind + escaped;
    ContainsAfter(head, "/search.json", rest);
    assert "https://openlibrary.org/search.json?" == head + "/search.json" + "?";
    assert SearchUrl(kind, escaped) == head + "/search.json" + rest;
  }

  lemma NormalizeSeedCanonical(seed: string, escape: string -> string)
    ensures Canonical(NormalizeSeed(seed, escape))
  {
    EnsureJsonUrlIsFixed(seed);
    SearchUrlIsSearch("q=", escape(seed));
  }

  /** The URL that is fetched is the URL that was deduplicated. */
  lemma CanonicalIsFetched(url: string)
    requires Canonical(url)
    ensures FetchUrl(url) == url
  {
  }

  /** One key per URL, whatever the kind. */
  lemma DedupeKeyInjective(a: string, b: string)
    requires DedupeKey(a) == DedupeKey(b)
    ensures a == b
  {
    var k, l := DedupeKey(a), DedupeKey(b);
    assert k[8] == l[8];
    assert "visited:author:"[8] == 'a' && "visited:book:"[8] == 'b' && "visited:work:"[8] == 'w';
    var p := if k[8] == 'a' then "visited:author:" else if k[8] == 'b' then "visited:book:" else "visited:work:";
    assert k == p + a && l == p + b;
    assert k[|p|..] == a && l[|p|..] == b;
  }

  /** Only slashes. */
  ghost predicate Slashes(s: string) { forall i :: 0 <= i < |s| ==> s[i] == '/' }

  lemma {:induction false} TrimmedAway(s: string, c: char) returns (rest: string)
    ensures s == TrimRight(s, c) + rest && forall i :: 0 <= i < |rest| ==> rest[i] == c
    ensures TrimRight(s, c) != "" ==> TrimRight(s, c)[|TrimRight(s, c)| - 1] != c
  {
    if s != "" && s[|s| - 1] == c {
      var front := TrimmedAway(s[..|s| - 1], c);
      rest := front + [c];
      assert s == s[..|s| - 1] + [c];
    } else {
      rest := "";
    }
  }

  /** r is the url with the suffix in place of its trailing slashes. */
  ghost predicate Suffixed(url: string, r: string) {
    exists path, rest ::
      url == path + rest && Slashes(rest) && (path != "" ==> path[|path| - 1] != '/') && r == path + ".json"
  }

  /** Nothing but trailing slashes gives way to the suffix. */
  lemma EnsureJsonUrlKeepsPath(url: string)
    ensures HasSuffix(url, ".json") ==> EnsureJsonUrl(url) == url
    ensures !HasSuffix(url, ".json") ==> Suffixed(url, EnsureJsonUrl(url))
  {
    var rest := TrimmedAway(url, '/');
    assert Slashes(rest) && url == TrimRight(url, '/') + rest;
  }

  /** A seed that is a URL is kept up to the suffix, any other is searched for. */
  lemma SeedKinds(seed: string, escape: string -> string)
    ensures
      var url := NormalizeSeed(seed, escape);
      if HasPrefix(seed, "http://") || HasPrefix(seed, "https://")
      then if HasSuffix(seed, ".json") then url == seed else Suffixed(seed, url)
      else url == "https://openlibrary.org/search.json?q=" + escape(seed)
  {
    EnsureJsonUrlKeepsPath(seed);
    assert "https://openlibrary.org/search.json?" + "q=" == "https://openlibrary.org/search.json?q=";
    Joined("https://openlibrary.org/search.json?", "q=", escape(seed));
  }

  lemma Joined(a: string, b: string, c: string)
    ensures a + (b + c) == (a + b) + c
  {
  }

  /** What is requested is a search or a .json document. */
  lemma FetchKinds(url: string)
    ensures IsSearchUrl(url) ==> FetchUrl(url) == url
    ensures !IsSearchUrl(url) ==>
              if HasSuffix(url, ".json") then FetchUrl(url) == url else Suffixed(url, FetchUrl(url))
  {
    EnsureJsonUrlKeepsPath(url);
  }

  /** The kinds of keys. */
  lemma WorkKey(x: string)
    requires !Contains(x, "/authors/") && !Contains(x, "/books/")
    ensures DedupeKey(x) == "visited:work:" + x
  {
  }

  lemma AuthorKey(host: string, x: string)
    ensures DedupeKey(host + "/authors/" + x) == "visited:author:" + (host + "/authors/" + x)
  {
    ContainsAfter(host, "/authors/", x);
  }

  lemma BookKey(host: string, x: string)
    requires !Contains(host + "/books/" + x, "/authors/")
    ensures DedupeKey(host + "/books/" + x) == "visited:book:" + (host + "/books/" + x)
  {
    ContainsAfter(host, "/books/", x);
  }
}
