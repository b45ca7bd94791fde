# Azure Front Door cache purge and refresh check, modelled in Dafny

The repository holds two command-line tools for an Azure Front Door Standard
profile.

- `purge_cache.py` reads its configuration from the environment. It lists the
  endpoints of the profile and purges cached content. With several endpoints it
  purges every endpoint in turn; otherwise it purges only the first.
- `verify_cache_refresh.py` reads URLs typed one per line. It requests each URL
  a number of times, records the cache-related response headers of every
  answer, and summarises per URL how many requests succeeded, which `X-Cache`
  states were seen, and whether the `ETag` changed.

The model keeps each tool's own logic and replaces every remote call with an
oracle parameter:

- the Azure SDK purge call is `PurgeApi`, which completes or raises;
- the endpoint listing arrives as a sequence of endpoints;
- `requests.get` is `FetchApi`, given the URL and the running number of the
  request, so that answers may change while a purge takes effect.

Calls made to the oracles are recorded in ghost traces (`Attempt` lists, a
count of sleeps), so that contracts can say which purges were attempted, in
which order, and how often the refresh tool slept between requests.

Files, one module each:

- `wrappers.dfy`: `Option` and `Result`.
- `text.dfy`: Python's `str.strip()` (with the full `str.isspace()` set),
  `str.split` on a one-character separator, and `str.startswith`.
- `sequences.dfy`: order-preserving selection (`Subsequence`).
- `purge_cache.dfy`: configuration check, purge-path parsing, and the purge
  orchestration.
- `verify_cache_refresh.dfy`: URL input, the result table of the refresh
  check, and its analysis.

Loops in the source are methods with loop invariants. Most are proved against
a specification function: `ValidateConfig` against `MissingVars`, `TallyPurges`
against `CountPurged`, `TestCacheRefresh` against `RefreshTable` and
`TotalPauses`, and `ProbeUrl` against the sequence `UrlRecords` and `Pauses`.
The promised properties are then proved as lemmas about those functions. The
loop of `GetFrontDoorUrls` is proved directly against its quantified
postconditions.

`purge_cache` (purge_cache.py:104-115) purges the endpoints one after
another in a plain loop, and nothing in the repository runs purges
concurrently; `demo_parallel.py` only prints estimates.

In `test_cache_refresh` the sleep (verify_cache_refresh.py:62-63) sits inside
the `try` block after the entry is recorded, so it only follows a request that
succeeded and was not the last. `TotalPausesBound` proves that a run sleeps at
most `max(n - 1, 0)` times per URL, and `TotalPausesAllAnswered` that it sleeps
exactly that often when every request of the run is answered.

## Model

| member | source | states |
|---|---|---|
| PurgeCache.MissingVars | purge_cache.py:59-67 | a variable is reported exactly when it is required and unset or empty; no more names than required |
| PurgeCache.MissingVarsInOrder | purge_cache.py:64-67 | the missing variables come in the order of the required list |
| PurgeCache.MissingVarsDistinct | purge_cache.py:59-67 | with distinct required names, no missing variable is reported twice |
| PurgeCache.ValidateConfig | purge_cache.py:57-68 | the loop collects exactly the missing required variables, in order |
| PurgeCache.Configure | purge_cache.py:32-72 | fails exactly when some required variable is unset or empty, carrying the non-empty ordered list of missing names; otherwise the configuration holds the six values, all non-empty |
| PurgeCache.ParsePaths | purge_cache.py:87-89 | one path per comma-separated piece; each path is that piece stripped, has no comma and no outer whitespace |
| PurgeCache.ParsePathsJoin | purge_cache.py:89 | stripped, comma-free paths joined with commas parse back to the same list |
| PurgeCache.ResolvePaths | purge_cache.py:87-89 | given paths are used unchanged (even an empty list); otherwise the result is the parse of PURGE_PATHS (an empty value included), or of the wildcard default when the variable is unset, a non-empty list of stripped paths |
| PurgeCache.DefaultPaths | purge_cache.py:88 | with PURGE_PATHS unset and no paths given, exactly the wildcard path is purged |
| PurgeCache.PurgeSingleEndpoint | purge_cache.py:140-161 | exactly one purge call with the given name and paths; true iff it completes, false when it raises |
| PurgeCache.CountPurged | purge_cache.py:101-114 | the tally never exceeds the number of endpoints |
| PurgeCache.CountPurgedAll | purge_cache.py:116-117 | the tally equals the total iff every endpoint's purge succeeded |
| PurgeCache.CountPurgedNone | purge_cache.py:101-114 | the tally is zero iff every endpoint's purge failed |
| PurgeCache.TallyPurges | purge_cache.py:101-115 | one purge per endpoint, in list order, all with the same paths, a failure not stopping the loop; the count is the number of successes and at most the total |
| PurgeCache.PurgeCache | purge_cache.py:74-122 | no endpoints: false and no purge; all endpoints with more than one: every endpoint purged once in order, true iff all succeeded; otherwise only the first endpoint purged and its outcome returned |
| PurgeCache.PurgeSpecificEndpoint | purge_cache.py:184-202 | exactly the named endpoint is purged, with the given paths or those from PURGE_PATHS, and its outcome is returned |
| Text.TrimSlice | purge_cache.py:89 | `strip()` keeps a middle slice of the string, with only whitespace cut from either side and none left at its ends |
| Text.TrimTrimmed | purge_cache.py:89 | neither end of a stripped string is whitespace |
| Text.TrimEmpty | verify_cache_refresh.py:130-132 | a line strips to nothing exactly when it is all whitespace |
| Text.TrimPadded | purge_cache.py:89 | stripping a string padded with whitespace gives the string back |
| Text.TrimIdempotent | purge_cache.py:89 | stripping twice is stripping once |
| Text.Split | purge_cache.py:89 | one piece more than there are separators; no piece contains the separator |
| Text.JoinSplit | purge_cache.py:89 | joining the pieces of a split with the separator gives the original string |
| Text.SplitJoin | purge_cache.py:89 | splitting a join of separator-free pieces gives the pieces back |
| Text.SplitNoSeparator | purge_cache.py:88-89 | a string without the separator splits into itself alone |
| VerifyCacheRefresh.ToRecord | verify_cache_refresh.py:43-70 | a response gives a success record with its status code and its Cache-Control, ETag, Last-Modified, X-Cache, X-Azure-Ref and Content-Length headers (`N/A` when absent); a request exception gives an error record with its message |
| VerifyCacheRefresh.NormalizeUrl | verify_cache_refresh.py:134-135 | the result has an http or https scheme and ends with the input; a URL that has a scheme is unchanged, and one without becomes exactly `https://` followed by the URL |
| VerifyCacheRefresh.NormalizeUrlIdempotent | verify_cache_refresh.py:134-135 | normalising twice is normalising once |
| VerifyCacheRefresh.GetFrontDoorUrls | verify_cache_refresh.py:128-139 | reading stops at the first line that strips to nothing; one URL per line before it, each the stripped line normalised; end of input before a blank line is an error |
| VerifyCacheRefresh.FirstRequestIsProduct | verify_cache_refresh.py:29-33 | the probe of the URL at position j starts with request number j * n |
| VerifyCacheRefresh.RefreshTable | verify_cache_refresh.py:24-33 | the table's keys are exactly the URLs, each with one entry per iteration |
| VerifyCacheRefresh.RefreshTableLastProbe | verify_cache_refresh.py:29-70 | a URL not listed again later keeps the entries of its own probe: requests j * n onwards |
| VerifyCacheRefresh.Pauses | verify_cache_refresh.py:62-63 | a URL never sleeps more often than it has entries |
| VerifyCacheRefresh.PausesBetweenRequests | verify_cache_refresh.py:62-63 | a URL sleeps at most `max(n - 1, 0)` times, and exactly that often when every request succeeded |
| VerifyCacheRefresh.TotalPausesBound | verify_cache_refresh.py:29-63 | a run sleeps at most `max(n - 1, 0)` times per URL |
| VerifyCacheRefresh.TotalPausesAllAnswered | verify_cache_refresh.py:29-63 | when every request the run makes is answered, the run sleeps exactly `max(n - 1, 0)` times per URL |
| VerifyCacheRefresh.NoIterations | verify_cache_refresh.py:29-33 | with a non-positive iteration count (`range` is empty) every URL gets an empty list and the run never sleeps |
| VerifyCacheRefresh.ProbeUrl | verify_cache_refresh.py:33-70 | the inner loop records the n requests to one URL in order and sleeps after each successful request but the last |
| VerifyCacheRefresh.TestCacheRefresh | verify_cache_refresh.py:13-73 | the returned table is the specified table: keys exactly the URLs, one entry per iteration, a repeated URL keeping its last probe; the sleeps are those specified |
| VerifyCacheRefresh.SuccessfulTests | verify_cache_refresh.py:86 | the successful entries are exactly the success records, in their original order, each as often as it occurs among the entries, no more than the total |
| VerifyCacheRefresh.NoneSuccessful | verify_cache_refresh.py:86-88 | there are no successful entries exactly when every entry is an error |
| VerifyCacheRefresh.CacheStatesSeen | verify_cache_refresh.py:100-101 | the distinct cache states are exactly the `X-Cache` values of successful requests |
| VerifyCacheRefresh.EtagsDiffer | verify_cache_refresh.py:106-109 | more than one distinct ETag exactly when two successful requests answered with different ETags |
| VerifyCacheRefresh.AnalyzeUrl | verify_cache_refresh.py:86-112 | all-failed exactly when every entry is an error; otherwise the success count out of the total (0 < count <= total), the X-Cache values seen, and a content change iff two successful answers differ in ETag |
| VerifyCacheRefresh.ProbeFailed | verify_cache_refresh.py:65-70 | a probe's entries are all errors exactly when every one of its requests failed |
| VerifyCacheRefresh.ProbeReport | verify_cache_refresh.py:13-90 | for distinct URLs, a URL is reported all-failed exactly when each of its n requests failed, and otherwise its total is n |

## Left out

- The Azure SDK is not modelled: credentials, the management client (purge_cache.py:44-55), `list_by_profile` (purge_cache.py:128-138) and `begin_purge_content(...).result()` (purge_cache.py:144-156). The endpoint list is a parameter, an empty list standing for a failed listing, and a purge is the `PurgeApi` oracle.
- `list_endpoints` (purge_cache.py:163-182) only prints the endpoints.
- The `main` functions of both tools are not modelled, nor is the iteration-count prompt and its default of 3 (verify_cache_refresh.py:141-176).
- Console output is not modelled, nor is `load_dotenv`, `sys.exit` (a `Failure` result instead) or `KeyboardInterrupt` handling.
- The catch-all `except` of `purge_cache` (purge_cache.py:124-126) is not modelled. Every call inside that block already handles its own exceptions, so nothing modelled can reach it.
- Response times, timestamps, rounding and the average response time are floating point or clock readings, so they are not modelled (verify_cache_refresh.py:38-46, 93-97). The sleep is counted, not timed.
- VerifyCacheRefresh.ToRecord: header lookup is by exact name, whereas `requests` looks headers up case-insensitively.
- Exceptions of `requests.get` other than `RequestException` propagate in the source; the oracle has no such outcome.
- VerifyCacheRefresh.GetFrontDoorUrls: end of input raises `EOFError` in the source, which aborts the program; it is modelled as `None`.
- VerifyCacheRefresh.AnalyzeResults: the report is a map, so the order in which URLs are printed is not modelled.
- The details printed per successful request (verify_cache_refresh.py:114-120) are not modelled.
- `demo_parallel.py` only prints a canned scenario and estimates, so it is not modelled.
- No concurrency is modelled: the code purges endpoints in a sequential loop.
- TestCacheRefresh: the list of the URL being probed is built in `ProbeUrl` and stored when its probe ends, rather than appended to inside the dictionary. Nothing reads the dictionary in between, so the result is the same.
