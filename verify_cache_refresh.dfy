/** The cache-refresh verification tool: reading the URLs to probe,
    requesting each URL a number of times and recording the cache headers
    of every answer, and analysing the recorded table.

    HTTP is the oracle `FetchApi`; it is given the URL and the running number
    of the request (0 for the first request of the run), so that answers may
    change over time as a purge takes effect. Clocks, response times and
    console output are not modelled. */
module VerifyCacheRefresh {
  import opened Wrappers
  import opened Text
  import opened Sequences

  /** The placeholder recorded for a header the response does not carry. */
  const NotAvailable: string := "N/A"

  /** How `requests.get(url, timeout=10)` ends: a response, or a
      `requests.RequestException`. */
  datatype FetchReply =
    | Response(statusCode: int, headers: map<string, string>)
    | RequestFailed(message: string)

  /** The HTTP client: URL and running request number to reply. */
  type FetchApi = (string, nat) -> FetchReply

  /** One entry of the result table: the header summary of a response, or
      the error of a failed request. */
  datatype Record =
    | SuccessRecord(statusCode: int, cacheControl: string, etag: string, lastModified: string,
                    xCache: string, xAzureRef: string, contentLength: string)
    | ErrorRecord(error: string)

  /** `response.headers.get(name, 'N/A')` */
  function Header(headers: map<string, string>, name: string): string {
    if name in headers then headers[name] else NotAvailable
  }

  /** The entry recorded for one request. */
  function ToRecord(reply: FetchReply): (r: Record)
    ensures r.SuccessRecord? <==> reply.Response?
    ensures reply.Response? ==> && r.statusCode == reply.statusCode
                                && r.cacheControl == Header(reply.headers, "Cache-Control")
                                && r.etag == Header(reply.headers, "ETag")
                                && r.lastModified == Header(reply.headers, "Last-Modified")
                                && r.xCache == Header(reply.headers, "X-Cache")
                                && r.xAzureRef == Header(reply.headers, "X-Azure-Ref")
                                && r.contentLength == Header(reply.headers, "Content-Length")
    ensures reply.RequestFailed? ==> r.error == reply.message
  {
    match reply
    case Response(code, headers) =>
      SuccessRecord(code, Header(headers, "Cache-Control"), Header(headers, "ETag"),
                    Header(headers, "Last-Modified"), Header(headers, "X-Cache"),
                    Header(headers, "X-Azure-Ref"), Header(headers, "Content-Length"))
    case RequestFailed(message) => ErrorRecord(message)
  }

  // ----- get_front_door_urls -----

  predicate HasScheme(url: string) {
    StartsWith(url, "http://") || StartsWith(url, "https://")
  }

  /** A URL without an http:// or https:// prefix gets https:// in front. */
  function NormalizeUrl(url: string): (r: string)
    ensures HasScheme(r)
    ensures |url| <= |r| && r[|r| - |url|..] == url
    ensures HasScheme(url) ==> r == url
    ensures !HasScheme(url) ==> r == "https://" + url
  {
    if HasScheme(url) then url
    else
      var r := "https://" + url;
      assert r[..|"https://"|] == "https://";
      r
  }

  /** Normalising an already normalised URL changes nothing. */
  lemma NormalizeUrlIdempotent(url: string)
    ensures NormalizeUrl(NormalizeUrl(url)) == NormalizeUrl(url)
  {
  }

  /** `get_front_door_urls`: reads lines until the first one that is empty
      once stripped, strips each and normalises its scheme. Running out of
      input before a blank line makes `input()` raise EOFError, modelled as
      None. */
  method GetFrontDoorUrls(lines: seq<string>) returns (urls: Option<seq<string>>)
    ensures urls.None? <==> forall j :: 0 <= j < |lines| ==> Trim(lines[j]) != []
    ensures urls.Some? ==>
      && |urls.value| < |lines| && Trim(lines[|urls.value|]) == []
      && forall i :: 0 <= i < |urls.value| ==>
           && Trim(lines[i]) != []
           && urls.value[i] == NormalizeUrl(Trim(lines[i]))
  {
    var collected: seq<string> := [];
    var next := 0;
    while true
      invariant 0 <= next <= |lines|
      invariant |collected| == next
      invariant forall j :: 0 <= j < next ==>
                  Trim(lines[j]) != [] && collected[j] == NormalizeUrl(Trim(lines[j]))
      decreases |lines| - next
    {
      if next == |lines| {
        return None;
      }
      var url := Trim(lines[next]);
      if url == [] {
        break;
      }
      ghost var prev := collected;
      collected := collected + [NormalizeUrl(url)];
      forall j | 0 <= j <= next
        ensures Trim(lines[j]) != [] && collected[j] == NormalizeUrl(Trim(lines[j]))
      {
        if j < next {
          assert collected[j] == prev[j];
        }
      }
      next := next + 1;
    }
    urls := Some(collected);
  }

  // ----- test_cache_refresh -----

  /** `range(test_iterations)` is empty for a count below one. */
  function Iterations(testIterations: int): (n: nat)
    ensures testIterations > 0 ==> n == testIterations
    ensures testIterations <= 0 ==> n == 0
  {
    if testIterations > 0 then testIterations else 0
  }

  /** The entries for `count` requests to `url`, the first of them being
      request number `first` of the run. */
  function UrlRecords(fetch: FetchApi, url: string, first: nat, count: nat): (r: seq<Record>)
    ensures |r| == count
    ensures forall k :: 0 <= k < count ==> r[k] == ToRecord(fetch(url, first + k))
  {
    seq(count, k requires 0 <= k < count => ToRecord(fetch(url, first + k)))
  }

  /** The number of requests made before URL j when every URL gets n. */
  function FirstRequest(j: nat, n: nat): nat {
    if j == 0 then 0 else FirstRequest(j - 1, n) + n
  }

  lemma {:induction false} FirstRequestIsProduct(j: nat, n: nat)
    ensures FirstRequest(j, n) == j * n
  {
    if j > 0 {
      FirstRequestIsProduct(j - 1, n);
      assert j * n == (j - 1) * n + n;
    }
  }

  /** The result table after probing `urls` in order, `n` requests each:
      probing the URL at position k resets its list to the entries of
      requests FirstRequest(k, n) onwards, so a URL listed twice keeps the
      entries of its last probe. */
  function RefreshTable(fetch: FetchApi, urls: seq<string>, n: nat): (t: map<string, seq<Record>>)
    ensures t.Keys == set u | u in urls
    ensures forall u :: u in t ==> |t[u]| == n
    decreases |urls|
  {
    if urls == [] then map[]
    else
      var k := |urls| - 1;
      RefreshTable(fetch, urls[..k], n)[urls[k] := UrlRecords(fetch, urls[k], FirstRequest(k, n), n)]
  }

  /** A URL that is not probed again later keeps the n entries of its probe
      at position j; in particular, for distinct URLs every URL keeps its own. */
  lemma {:induction false} RefreshTableLastProbe(fetch: FetchApi, urls: seq<string>, n: nat, j: nat)
    requires j < |urls| && urls[j] !in urls[j + 1..]
    ensures urls[j] in RefreshTable(fetch, urls, n)
    ensures RefreshTable(fetch, urls, n)[urls[j]] == UrlRecords(fetch, urls[j], FirstRequest(j, n), n)
    decreases |urls|
  {
    var k := |urls| - 1;
    var init := urls[..k];
    var last := UrlRecords(fetch, urls[k], FirstRequest(k, n), n);
    var earlier := RefreshTable(fetch, init, n);
    assert RefreshTable(fetch, urls, n) == earlier[urls[k] := last];
    if j < k {
      assert urls[j + 1..][k - j - 1] == urls[k];
      assert urls[j] != urls[k];
      assert init[j] == urls[j] && init[j + 1..] == urls[j + 1..k];
      RefreshTableLastProbe(fetch, init, n, j);
      assert earlier[urls[k] := last][urls[j]] == earlier[urls[j]];
    } else {
      assert urls[j] == urls[k] && FirstRequest(j, n) == FirstRequest(k, n);
      assert earlier[urls[k] := last][urls[k]] == last;
    }
  }

  /** How many sleeps follow the entries in `records` when `n` requests are
      made: one after every successful request that is not the last. */
  function Pauses(records: seq<Record>, n: nat): (p: nat)
    ensures p <= |records|
    decreases |records|
  {
    if records == [] then 0
    else
      var k := |records| - 1;
      Pauses(records[..k], n) + (if records[k].SuccessRecord? && k + 1 < n then 1 else 0)
  }

  /** The sleeps of a whole run. */
  function TotalPauses(fetch: FetchApi, urls: seq<string>, n: nat): nat
    decreases |urls|
  {
    if urls == [] then 0
    else
      var k := |urls| - 1;
      TotalPauses(fetch, urls[..k], n) + Pauses(UrlRecords(fetch, urls[k], FirstRequest(k, n), n), n)
  }

  /** `max(n - 1, 0)` */
  function Gaps(n: nat): nat {
    if n > 0 then n - 1 else 0
  }

  /** A URL probed n times sleeps at most `max(n - 1, 0)` times, and exactly
      that often when every request succeeded. */
  lemma {:induction false} PausesBetweenRequests(records: seq<Record>, n: nat)
    requires |records| <= n
    ensures Pauses(records, n) <= (if |records| < n then |records| else Gaps(n))
    ensures (forall i :: 0 <= i < |records| ==> records[i].SuccessRecord?) ==>
              Pauses(records, n) == (if |records| < n then |records| else Gaps(n))
    decreases |records|
  {
    if records != [] {
      var k := |records| - 1;
      PausesBetweenRequests(records[..k], n);
      assert forall i :: 0 <= i < k ==> records[..k][i] == records[i];
    }
  }

  /** Every request of a run of `urls`, `n` requests each, is answered. */
  predicate RunSucceeded(fetch: FetchApi, urls: seq<string>, n: nat) {
    forall j, m :: 0 <= j < |urls| && FirstRequest(j, n) <= m < FirstRequest(j, n) + n ==> fetch(urls[j], m).Response?
  }

  /** The run sleeps at most `max(n - 1, 0)` times per URL. */
  lemma {:induction false} TotalPausesBound(fetch: FetchApi, urls: seq<string>, n: nat)
    ensures TotalPauses(fetch, urls, n) <= |urls| * Gaps(n)
    decreases |urls|
  {
    if urls != [] {
      var k := |urls| - 1;
      var records := UrlRecords(fetch, urls[k], FirstRequest(k, n), n);
      assert TotalPauses(fetch, urls, n) == TotalPauses(fetch, urls[..k], n) + Pauses(records, n);
      TotalPausesBound(fetch, urls[..k], n);
      PausesBetweenRequests(records, n);
      MultiplySuccessor(k, Gaps(n));
    }
  }

  /** When every request of the run is answered, the run sleeps exactly
      `max(n - 1, 0)` times per URL. */
  lemma {:induction false} TotalPausesAllAnswered(fetch: FetchApi, urls: seq<string>, n: nat)
    requires RunSucceeded(fetch, urls, n)
    ensures TotalPauses(fetch, urls, n) == |urls| * Gaps(n)
    decreases |urls|
  {
    if urls != [] {
      var k := |urls| - 1;
      var first := FirstRequest(k, n);
      var records := UrlRecords(fetch, urls[k], first, n);
      assert TotalPauses(fetch, urls, n) == TotalPauses(fetch, urls[..k], n) + Pauses(records, n);
      assert RunSucceeded(fetch, urls[..k], n) by {
        forall j, m | 0 <= j < k && FirstRequest(j, n) <= m < FirstRequest(j, n) + n
          ensures fetch(urls[..k][j], m).Response?
        {
          assert urls[..k][j] == urls[j];
        }
      }
      TotalPausesAllAnswered(fetch, urls[..k], n);
      forall i | 0 <= i < n ensures records[i].SuccessRecord? {
        assert fetch(urls[k], first + i).Response?;
      }
      PausesBetweenRequests(records, n);
      MultiplySuccessor(k, Gaps(n));
    }
  }

  /** With a non-positive iteration count no request is made: every URL gets
      an empty list and the run never sleeps. */
  lemma NoIterations(fetch: FetchApi, urls: seq<string>, testIterations: int)
    requires testIterations <= 0
    ensures var table := RefreshTable(fetch, urls, Iterations(testIterations));
            forall u :: u in table ==> table[u] == []
    ensures TotalPauses(fetch, urls, Iterations(testIterations)) == 0
  {
    TotalPausesBound(fetch, urls, 0);
  }

  lemma MultiplySuccessor(k: nat, g: nat)
    ensures (k + 1) * g == k * g + g
  {
  }

  /** Probing one more URL updates its entry in the table and adds its sleeps. */
  lemma ProbeStep(fetch: FetchApi, urls: seq<string>, j: nat, n: nat)
    requires j < |urls|
    ensures RefreshTable(fetch, urls[..j + 1], n)
         == RefreshTable(fetch, urls[..j], n)[urls[j] := UrlRecords(fetch, urls[j], FirstRequest(j, n), n)]
    ensures TotalPauses(fetch, urls[..j + 1], n)
         == TotalPauses(fetch, urls[..j], n) + Pauses(UrlRecords(fetch, urls[j], FirstRequest(j, n), n), n)
  {
    assert urls[..j + 1][..j] == urls[..j];
  }

  /** One more request appends its entry, and a sleep when it succeeded
      and was not the last. */
  lemma UrlRecordsSnoc(fetch: FetchApi, url: string, first: nat, i: nat, n: nat)
    ensures UrlRecords(fetch, url, first, i + 1) == UrlRecords(fetch, url, first, i) + [ToRecord(fetch(url, first + i))]
    ensures Pauses(UrlRecords(fetch, url, first, i + 1), n)
         == Pauses(UrlRecords(fetch, url, first, i), n) + (if fetch(url, first + i).Response? && i + 1 < n then 1 else 0)
  {
    var longer := UrlRecords(fetch, url, first, i + 1);
    assert longer[..i] == UrlRecords(fetch, url, first, i);
    assert longer == longer[..i] + [longer[i]];
  }

  /** The inner loop of `test_cache_refresh` for one URL: `test_iterations`
      requests, numbered from `first` on, each appending one entry; a
      successful request that is not the last is followed by a sleep. */
  method ProbeUrl(fetch: FetchApi, url: string, testIterations: int, first: nat)
    returns (tests: seq<Record>, ghost pauses: nat)
    ensures tests == UrlRecords(fetch, url, first, Iterations(testIterations))
    ensures pauses == Pauses(tests, Iterations(testIterations))
  {
    ghost var n := Iterations(testIterations);
    tests := [];
    pauses := 0;
    var i := 0;
    while i < testIterations
      invariant 0 <= i <= n
      invariant tests == UrlRecords(fetch, url, first, i)
      invariant pauses == Pauses(tests, n)
    {
      var entry := ToRecord(fetch(url, first + i));
      UrlRecordsSnoc(fetch, url, first, i, n);
      tests := tests + [entry];
      if entry.SuccessRecord? && i < testIterations - 1 {
        pauses := pauses + 1;
      }
      i := i + 1;
    }
  }

  /** `test_cache_refresh`: for each URL in order, resets its list to the
      entries of a fresh probe; a URL listed twice keeps its last probe. */
  method TestCacheRefresh(fetch: FetchApi, urls: seq<string>, testIterations: int)
    returns (results: map<string, seq<Record>>, ghost pauses: nat)
    ensures results == RefreshTable(fetch, urls, Iterations(testIterations))
    ensures results.Keys == set u | u in urls
    ensures forall u :: u in results ==> |results[u]| == Iterations(testIterations)
    ensures pauses == TotalPauses(fetch, urls, Iterations(testIterations))
  {
    var n := Iterations(testIterations);
    results := map[];
    pauses := 0;
    var sent: nat := 0;
    for j := 0 to |urls|
      invariant sent == FirstRequest(j, n)
      invariant results == RefreshTable(fetch, urls[..j], n)
      invariant pauses == TotalPauses(fetch, urls[..j], n)
    {
      ProbeStep(fetch, urls, j, n);
      var tests, urlPauses := ProbeUrl(fetch, urls[j], testIterations, sent);
      results := results[urls[j] := tests];
      pauses := pauses + urlPauses;
      sent := sent + n;
    }
    assert urls[..|urls|] == urls;
  }

  // ----- analyze_results -----

  /** `[t for t in tests if 'status_code' in t]` */
  function SuccessfulTests(tests: seq<Record>): (r: seq<Record>)
    ensures |r| <= |tests|
    ensures forall t :: t in r <==> t in tests && t.SuccessRecord?
    ensures Subsequence(r, tests)
    ensures forall t :: multiset(r)[t] == (if t.SuccessRecord? then multiset(tests)[t] else 0)
    decreases |tests|
  {
    if tests == [] then []
    else
      var k := |tests| - 1;
      var init := SuccessfulTests(tests[..k]);
      var last := tests[k];
      assert tests == tests[..k] + [last];
      SubsequenceExtend(init, tests[..k], last);
      if last.SuccessRecord? then init + [last] else init
  }

  /** What is reported for one URL. */
  datatype UrlReport =
    | AllFailed
    | Summary(successCount: nat, total: nat, cacheStates: set<string>, contentChanged: bool)

  /** A set has more than one element exactly when it holds two different ones. */
  lemma MoreThanOne<T>(s: set<T>)
    ensures |s| > 1 <==> exists a, b :: a in s && b in s && a != b
  {
    if |s| > 1 {
      var a :| a in s;
      assert |s - {a}| == |s| - 1;
      var b :| b in s - {a};
    } else {
      if exists a, b :: a in s && b in s && a != b {
        var a, b :| a in s && b in s && a != b;
        assert {a, b} <= s;
        assert |{a, b}| == 2;
        SubsetCard({a, b}, s);
      }
    }
  }

  lemma SubsetCard<T>(a: set<T>, b: set<T>)
    requires a <= b
    ensures |a| <= |b|
  {
    assert b == a + (b - a);
  }

  /** Some successful request of `tests` answered with X-Cache value `s`. */
  predicate CacheStateSeen(tests: seq<Record>, s: string) {
    exists t :: t in tests && t.SuccessRecord? && t.xCache == s
  }

  /** Two successful requests of `tests` answered with different ETags. */
  predicate EtagChanged(tests: seq<Record>) {
    exists a, b :: a in tests && b in tests && a.SuccessRecord? && b.SuccessRecord? && a.etag != b.etag
  }

  /** The X-Cache values of the successful entries are the values seen. */
  lemma {:induction false} CacheStatesSeen(tests: seq<Record>)
    ensures forall s :: s in (set t | t in SuccessfulTests(tests) :: t.xCache) <==> CacheStateSeen(tests, s)
  {
    var ok := SuccessfulTests(tests);
    forall s | CacheStateSeen(tests, s) ensures s in (set t | t in ok :: t.xCache) {
      var t :| t in tests && t.SuccessRecord? && t.xCache == s;
      assert t in ok;
    }
  }

  /** More than one distinct ETag among the successful entries exactly when
      two successful requests answered with different ETags. */
  lemma EtagsDiffer(tests: seq<Record>)
    ensures |set t | t in SuccessfulTests(tests) :: t.etag| > 1 <==> EtagChanged(tests)
  {
    var ok := SuccessfulTests(tests);
    var etags := set t | t in ok :: t.etag;
    MoreThanOne(etags);
    if |etags| > 1 {
      var x, y :| x in etags && y in etags && x != y;
      var a :| a in ok && a.etag == x;
      var b :| b in ok && b.etag == y;
      assert a in tests && b in tests && a.SuccessRecord? && b.SuccessRecord?;
    }
    if EtagChanged(tests) {
      var a, b :| a in tests && b in tests && a.SuccessRecord? && b.SuccessRecord? && a.etag != b.etag;
      assert a in ok && b in ok;
      assert a.etag in etags && b.etag in etags;
    }
  }

  /** No successful entry exactly when every entry is an error. */
  lemma {:induction false} NoneSuccessful(tests: seq<Record>)
    ensures SuccessfulTests(tests) == [] <==> forall i :: 0 <= i < |tests| ==> tests[i].ErrorRecord?
  {
    var ok := SuccessfulTests(tests);
    if ok == [] {
      forall i | 0 <= i < |tests| ensures tests[i].ErrorRecord? {
        assert tests[i] in tests;
      }
    } else {
      assert ok[0] in ok;
    }
  }

  /** The per-URL part of `analyze_results`: with no successful request the
      URL is reported as all-failed; otherwise the success count out of the
      total, the distinct X-Cache values, and whether more than one distinct
      ETag was seen (a missing ETag counting as "N/A"). */
  function AnalyzeUrl(tests: seq<Record>): (r: UrlReport)
    ensures r.AllFailed? <==> forall i :: 0 <= i < |tests| ==> tests[i].ErrorRecord?
    ensures r.Summary? ==>
      && r.successCount == |SuccessfulTests(tests)|
      && 0 < r.successCount <= r.total == |tests|
      && (forall s :: s in r.cacheStates <==> CacheStateSeen(tests, s))
      && (r.contentChanged <==> EtagChanged(tests))
  {
    var ok := SuccessfulTests(tests);
    NoneSuccessful(tests);
    if ok == [] then AllFailed
    else
      CacheStatesSeen(tests);
      EtagsDiffer(tests);
      Summary(|ok|, |tests|, set t | t in ok :: t.xCache, |set t | t in ok :: t.etag| > 1)
  }

  /** `analyze_results`: one report per URL of the table. */
  function AnalyzeResults(results: map<string, seq<Record>>): (r: map<string, UrlReport>)
    ensures r.Keys == results.Keys
    ensures forall u :: u in r ==> r[u] == AnalyzeUrl(results[u])
  {
    map u | u in results :: AnalyzeUrl(results[u])
  }

  /** The entries of a probe are all errors exactly when every one of its
      requests failed. */
  lemma ProbeFailed(fetch: FetchApi, url: string, first: nat, n: nat)
    ensures (forall i :: 0 <= i < n ==> UrlRecords(fetch, url, first, n)[i].ErrorRecord?)
        <==> (forall m :: first <= m < first + n ==> fetch(url, m).RequestFailed?)
  {
    var records := UrlRecords(fetch, url, first, n);
    if forall i :: 0 <= i < n ==> records[i].ErrorRecord? {
      forall m | first <= m < first + n ensures fetch(url, m).RequestFailed? {
        assert records[m - first].ErrorRecord?;
      }
    }
  }

  /** End to end, for distinct URLs: a URL is reported as all-failed exactly
      when every one of its requests failed, and otherwise its total is the
      number of iterations. */
  lemma ProbeReport(fetch: FetchApi, urls: seq<string>, testIterations: int, j: nat)
    requires forall a, b :: 0 <= a < b < |urls| ==> urls[a] != urls[b]
    requires j < |urls|
    ensures var n := Iterations(testIterations);
            var report := AnalyzeResults(RefreshTable(fetch, urls, n));
            && urls[j] in report
            && (report[urls[j]].AllFailed? <==>
                  forall m :: FirstRequest(j, n) <= m < FirstRequest(j, n) + n ==> fetch(urls[j], m).RequestFailed?)
            && (report[urls[j]].Summary? ==> report[urls[j]].total == n)
  {
    var n := Iterations(testIterations);
    var first := FirstRequest(j, n);
    assert urls[j] !in urls[j + 1..] by {
      forall k | j + 1 <= k < |urls| ensures urls[k] != urls[j] {
        assert urls[j + 1..][k - j - 1] == urls[k];
      }
    }
    RefreshTableLastProbe(fetch, urls, n, j);
    ProbeFailed(fetch, urls[j], first, n);
    var table := RefreshTable(fetch, urls, n);
    assert AnalyzeResults(table)[urls[j]] == AnalyzeUrl(UrlRecords(fetch, urls[j], first, n));
  }
}
