/** Where a job asks robots.txt, and where it does not: the requests one job makes. */
module RobotsGate {
  import opened Common
  import opened Urls
  import Retry
  import Robots
  import Strings

  /** robots.txt was read and refuses what the job would request. */
  ghost predicate Blocked(url: string, rules: Option<seq<string>>, pathOf: string -> string) {
    rules.Some? && Robots.Refused(rules.value, pathOf(FetchUrl(url)))
  }

  function Times(url: string, n: nat): (r: seq<string>)
    ensures |r| == n && forall k :: 0 <= k < n ==> r[k] == url
  {
    if n == 0 then [] else Times(url, n - 1) + [url]
  }

  /** The gate of the job handler, taken before every request it makes. */
  method MayRequest(url: string, rules: Option<seq<string>>, pathOf: string -> string) returns (yes: bool)
    ensures yes <==> !Blocked(url, rules, pathOf)
  {
    if rules.None? {
      return true;
    }
    yes := Robots.Allowed(rules.value, pathOf(FetchUrl(url)));
  }

  /** One job: the handler with its retries, then the expansion, which requests a search URL
      once more without asking. `fetchOk` answers the k-th handler call, `expired` says that
      the publish phase timed out before the expansion. */
  method ProcessJob(url: string, rules: Option<seq<string>>, pathOf: string -> string,
                    retryMax: int, base: int, maxDelay: int,
                    fetchOk: nat -> bool, cancelled: nat -> bool, expired: bool)
    returns (requests: seq<string>)
    requires Retry.Int64(base) && Retry.Int64(maxDelay)
    ensures forall k :: 0 <= k < |requests| ==> requests[k] == FetchUrl(url)
    ensures Blocked(url, rules, pathOf) ==> (requests != [] <==> IsSearchUrl(url) && !expired) && |requests| <= 1
    ensures !Blocked(url, rules, pathOf) ==>
              requests != [] && (fetchOk(0) ==> |requests| == if IsSearchUrl(url) && !expired then 2 else 1)
    ensures |requests| <= (if retryMax > 0 then retryMax else 0) + if IsSearchUrl(url) && !expired then 2 else 1
    ensures
      var calls := |requests| - if IsSearchUrl(url) && !expired then 1 else 0;
      !Blocked(url, rules, pathOf) ==>
        && 1 <= calls && (forall k :: 0 <= k < calls - 1 ==> !fetchOk(k))
        && (fetchOk(calls - 1) || cancelled(calls - 1) || calls == (if retryMax > 0 then retryMax else 0) + 1)
        && forall k :: 0 <= k < calls - 1 && k < |Retry.BackoffWaits(base, maxDelay, calls - 1)| ==> !cancelled(k)
  {
    var open := MayRequest(url, rules, pathOf);
    var ok := (k: nat) => open && fetchOk(k);
    var _, calls, _ := Retry.HandleWithRetry(retryMax, base, maxDelay, ok, cancelled);
    assert ok(0) ==> calls == 1;
    assert open ==> forall k: nat :: ok(k) == fetchOk(k);
    requests := if open then Times(FetchUrl(url), calls) else [];
    if !expired && IsSearchUrl(url) {
      requests := requests + [url];
    }
  }

  /** Under the rule "Disallow: /search" every search URL is refused and still a search URL,
      so that `ProcessJob` requests it. */
  lemma SearchRefused(kind: string, escaped: string, pathOf: string -> string)
    requires pathOf(SearchUrl(kind, escaped)) == "/search.json"
    ensures IsSearchUrl(SearchUrl(kind, escaped)) && Blocked(SearchUrl(kind, escaped), Some(["/search"]), pathOf)
  {
    SearchUrlIsSearch(kind, escaped);
    assert Robots.NormalizePath("/search.json") == "/search.json";
    assert Strings.HasPrefix("/search.json", ["/search"][0]);
  }
}
