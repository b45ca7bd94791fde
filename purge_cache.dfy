/** The purge tool: configuration check, purge-path parsing, and the
    orchestration that purges one or all endpoints of a Front Door profile.

    The Azure SDK is not modelled. Listing endpoints arrives as a sequence of
    endpoints (an empty one when the listing failed or found nothing), and
    `begin_purge_content(...).result()` is the oracle `PurgeApi`, which either
    completes or raises. The calls made to the oracle are recorded in ghost
    `Attempt` traces so that contracts can say which endpoints were purged,
    in which order and with which paths. */
module PurgeCache {
  import opened Wrappers
  import opened Text
  import opened Sequences

  /** The process environment after `load_dotenv()`: an unset variable is absent. */
  type Env = map<string, string>

  /** The variables the client cannot be built without, in the order they are checked. */
  const RequiredVars: seq<string> := [
    "AZURE_TENANT_ID", "AZURE_CLIENT_ID", "AZURE_CLIENT_SECRET",
    "AZURE_SUBSCRIPTION_ID", "RESOURCE_GROUP_NAME", "FRONT_DOOR_NAME"
  ]

  const PurgePathsVar: string := "PURGE_PATHS"
  /** The value used when PURGE_PATHS is unset: purge everything. */
  const DefaultPurgePaths: string := "/*"

  /** `not os.getenv(name)`: the variable is unset or set to the empty string. */
  predicate Unset(env: Env, name: string) {
    name !in env || env[name] == ""
  }

  /** `os.getenv(name)`, with an unset variable read as the empty string. */
  function Lookup(env: Env, name: string): string {
    if name in env then env[name] else ""
  }

  /** `vars` with every set variable dropped; the order of `vars` is kept. */
  function MissingVars(vars: seq<string>, env: Env): (r: seq<string>)
    ensures |r| <= |vars|
    ensures forall v :: v in r <==> v in vars && Unset(env, v)
    decreases |vars|
  {
    if vars == [] then []
    else
      var last := vars[|vars| - 1];
      MissingVars(vars[..|vars| - 1], env) + (if Unset(env, last) then [last] else [])
  }

  /** The missing variables are reported in the order they are required. */
  lemma {:induction false} MissingVarsInOrder(vars: seq<string>, env: Env)
    ensures Subsequence(MissingVars(vars, env), vars)
    decreases |vars|
  {
    if vars != [] {
      var init, last := vars[..|vars| - 1], vars[|vars| - 1];
      MissingVarsInOrder(init, env);
      SubsequenceExtend(MissingVars(init, env), init, last);
      assert init + [last] == vars;
      if !Unset(env, last) {
        assert MissingVars(init, env) + [] == MissingVars(init, env);
      }
    }
  }

  /** A variable is reported at most once when it is required at most once. */
  lemma {:induction false} MissingVarsDistinct(vars: seq<string>, env: Env)
    requires forall i, j :: 0 <= i < j < |vars| ==> vars[i] != vars[j]
    ensures var r := MissingVars(vars, env); forall i, j :: 0 <= i < j < |r| ==> r[i] != r[j]
    decreases |vars|
  {
    if vars != [] {
      var init, last := vars[..|vars| - 1], vars[|vars| - 1];
      MissingVarsDistinct(init, env);
      assert last !in init;
      assert last !in MissingVars(init, env);
    }
  }

  /** `_validate_config`: collects, in order, every required variable that is
      unset or empty. */
  method ValidateConfig(env: Env) returns (missing: seq<string>)
    ensures missing == MissingVars(RequiredVars, env)
    ensures forall v :: v in missing <==> v in RequiredVars && Unset(env, v)
  {
    missing := [];
    for i := 0 to |RequiredVars|
      invariant missing == MissingVars(RequiredVars[..i], env)
    {
      var name := RequiredVars[i];
      assert RequiredVars[..i + 1][..i] == RequiredVars[..i];
      if Unset(env, name) {
        missing := missing + [name];
      }
    }
    assert RequiredVars[..|RequiredVars|] == RequiredVars;
  }

  /** What the client keeps of its configuration once the check passed. */
  datatype Config = Config(
    tenantId: string, clientId: string, clientSecret: string,
    subscriptionId: string, resourceGroupName: string, frontDoorName: string)

  /** The configuration part of `AzureFrontDoorPurgeClient.__init__`: either
      every required variable is set and the client is configured from them,
      or the process exits (here: a failure carrying the missing names). */
  method Configure(env: Env) returns (r: Result<Config, seq<string>>)
    ensures r.Failure? <==> exists v :: v in RequiredVars && Unset(env, v)
    ensures r.Failure? ==> r.error == MissingVars(RequiredVars, env) && r.error != []
    ensures r.Success? ==> r.value == Config(
      Lookup(env, "AZURE_TENANT_ID"), Lookup(env, "AZURE_CLIENT_ID"), Lookup(env, "AZURE_CLIENT_SECRET"),
      Lookup(env, "AZURE_SUBSCRIPTION_ID"), Lookup(env, "RESOURCE_GROUP_NAME"), Lookup(env, "FRONT_DOOR_NAME"))
    ensures r.Success? ==> && r.value.tenantId != "" && r.value.clientId != "" && r.value.clientSecret != ""
                           && r.value.subscriptionId != "" && r.value.resourceGroupName != ""
                           && r.value.frontDoorName != ""
  {
    var missing := ValidateConfig(env);
    if missing != [] {
      assert missing[0] in missing;
      return Failure(missing);
    }
    assert RequiredVars[0] in RequiredVars && RequiredVars[1] in RequiredVars
        && RequiredVars[2] in RequiredVars && RequiredVars[3] in RequiredVars
        && RequiredVars[4] in RequiredVars && RequiredVars[5] in RequiredVars;
    r := Success(Config(
      Lookup(env, "AZURE_TENANT_ID"), Lookup(env, "AZURE_CLIENT_ID"), Lookup(env, "AZURE_CLIENT_SECRET"),
      Lookup(env, "AZURE_SUBSCRIPTION_ID"), Lookup(env, "RESOURCE_GROUP_NAME"), Lookup(env, "FRONT_DOOR_NAME")));
  }

  /** `[path.strip() for path in raw.split(',')]` */
  function ParsePaths(raw: string): (r: seq<string>)
    ensures |r| == Count(raw, ',') + 1
    ensures forall i :: 0 <= i < |r| ==> ',' !in r[i] && Trimmed(r[i])
    ensures forall i :: 0 <= i < |r| ==> r[i] == Trim(Split(raw, ',')[i])
  {
    var pieces := Split(raw, ',');
    var r := seq(|pieces|, i requires 0 <= i < |pieces| => Trim(pieces[i]));
    assert forall i :: 0 <= i < |r| ==> ',' !in r[i] && Trimmed(r[i]) by {
      forall i | 0 <= i < |r| ensures ',' !in r[i] && Trimmed(r[i]) {
        var a, b := TrimSlice(pieces[i]);
        assert forall c :: c in pieces[i][a..b] ==> c in pieces[i];
      }
    }
    r
  }

  /** Paths written out comma-separated, each already stripped, parse back
      to the same list. */
  lemma ParsePathsJoin(paths: seq<string>)
    requires |paths| > 0
    requires forall i :: 0 <= i < |paths| ==> ',' !in paths[i] && Trimmed(paths[i])
    ensures ParsePaths(Join(paths, ',')) == paths
  {
    var joined := Join(paths, ',');
    SplitJoin(paths, ',');
    var r := ParsePaths(joined);
    assert |r| == |paths|;
    forall i | 0 <= i < |paths| ensures r[i] == paths[i] {
      TrimIdentity(paths[i]);
    }
  }

  /** The paths a purge uses: the caller's list when one is given (even an
      empty one), otherwise PURGE_PATHS (by default the wildcard path) split at commas. */
  function ResolvePaths(env: Env, paths: Option<seq<string>>): (r: seq<string>)
    ensures paths.Some? ==> r == paths.value
    ensures paths.None? ==>
      r == ParsePaths(if PurgePathsVar in env then env[PurgePathsVar] else DefaultPurgePaths)
    ensures paths.None? ==> |r| > 0 && forall i :: 0 <= i < |r| ==> Trimmed(r[i])
  {
    match paths
    case Some(p) => p
    case None =>
      ParsePaths(if PurgePathsVar in env then env[PurgePathsVar] else DefaultPurgePaths)
  }

  /** With PURGE_PATHS unset and no paths given, exactly the wildcard path is purged. */
  lemma DefaultPaths(env: Env)
    requires PurgePathsVar !in env
    ensures ResolvePaths(env, None) == ["/*"]
  {
    assert ',' !in DefaultPurgePaths;
    SplitNoSeparator(DefaultPurgePaths, ',');
    TrimIdentity(DefaultPurgePaths);
  }

  /** An endpoint as listed by `afd_endpoints.list_by_profile`; the
      orchestration only uses its name. */
  datatype Endpoint = Endpoint(name: string, hostName: string)

  /** How `begin_purge_content(...).result()` ends: the remote operation
      completes, or some call raises (authentication, network, unknown
      endpoint, failed operation). */
  datatype PurgeReply = Completed | Raised(message: string)

  /** The remote purge of `paths` on the named endpoint. */
  type PurgeApi = (string, seq<string>) -> PurgeReply

  /** One call made to the purge API. */
  datatype Attempt = Attempt(endpoint: string, paths: seq<string>)

  /** The purge of `name` succeeds. */
  predicate Purged(api: PurgeApi, name: string, paths: seq<string>) {
    api(name, paths).Completed?
  }

  /** `_purge_single_endpoint`: one call to the purge API; anything it raises
      becomes `false` instead of propagating. */
  method PurgeSingleEndpoint(api: PurgeApi, name: string, paths: seq<string>)
    returns (ok: bool, ghost attempt: Attempt)
    ensures ok <==> api(name, paths) == Completed
    ensures !ok ==> api(name, paths).Raised?
    ensures attempt == Attempt(name, paths)
  {
    attempt := Attempt(name, paths);
    var reply := api(name, paths);
    match reply
    case Completed => ok := true;
    case Raised(_) => ok := false;
  }

  function Names(endpoints: seq<Endpoint>): (r: seq<string>)
    ensures |r| == |endpoints| && forall i :: 0 <= i < |r| ==> r[i] == endpoints[i].name
  {
    seq(|endpoints|, i requires 0 <= i < |endpoints| => endpoints[i].name)
  }

  /** One attempt per name, in order, each with the same paths. */
  function AttemptsFor(names: seq<string>, paths: seq<string>): (r: seq<Attempt>)
    ensures |r| == |names|
    ensures forall i :: 0 <= i < |r| ==> r[i].endpoint == names[i] && r[i].paths == paths
  {
    seq(|names|, i requires 0 <= i < |names| => Attempt(names[i], paths))
  }

  /** How many of the named endpoints the API purges successfully. */
  function CountPurged(api: PurgeApi, names: seq<string>, paths: seq<string>): (n: nat)
    ensures n <= |names|
    decreases |names|
  {
    if names == [] then 0
    else
      var last := names[|names| - 1];
      CountPurged(api, names[..|names| - 1], paths) + (if Purged(api, last, paths) then 1 else 0)
  }

  /** The tally reaches the total exactly when every purge succeeded. */
  lemma {:induction false} CountPurgedAll(api: PurgeApi, names: seq<string>, paths: seq<string>)
    ensures CountPurged(api, names, paths) == |names|
        <==> forall i :: 0 <= i < |names| ==> Purged(api, names[i], paths)
    decreases |names|
  {
    if names != [] {
      var init := names[..|names| - 1];
      CountPurgedAll(api, init, paths);
      assert forall i :: 0 <= i < |init| ==> init[i] == names[i];
    }
  }

  /** The tally is zero exactly when every purge failed. */
  lemma {:induction false} CountPurgedNone(api: PurgeApi, names: seq<string>, paths: seq<string>)
    ensures CountPurged(api, names, paths) == 0
        <==> forall i :: 0 <= i < |names| ==> !Purged(api, names[i], paths)
    decreases |names|
  {
    if names != [] {
      var init := names[..|names| - 1];
      CountPurgedNone(api, init, paths);
      assert forall i :: 0 <= i < |init| ==> init[i] == names[i];
    }
  }

  /** The loop of `purge_cache` (multi-endpoint branch): every endpoint is
      purged once, in list order, with the same paths; a failure is counted
      and the loop goes on. */
  method TallyPurges(api: PurgeApi, endpoints: seq<Endpoint>, paths: seq<string>)
    returns (successCount: nat, ghost attempts: seq<Attempt>)
    ensures successCount == CountPurged(api, Names(endpoints), paths)
    ensures successCount <= |endpoints|
    ensures attempts == AttemptsFor(Names(endpoints), paths)
  {
    successCount := 0;
    attempts := [];
    ghost var names := Names(endpoints);
    for i := 0 to |endpoints|
      invariant successCount == CountPurged(api, names[..i], paths)
      invariant attempts == AttemptsFor(names[..i], paths)
    {
      var ok;
      ghost var attempt;
      ok, attempt := PurgeSingleEndpoint(api, endpoints[i].name, paths);
      attempts := attempts + [attempt];
      assert names[..i + 1][..i] == names[..i];
      if ok {
        successCount := successCount + 1;
      }
    }
    assert names[..|endpoints|] == names;
  }

  /** `purge_cache`: no endpoints means failure without any purge; with
      `purgeAllEndpoints` and more than one endpoint every endpoint is purged
      and the result is true iff all of them succeeded; otherwise only the
      first endpoint is purged and its outcome is the result. */
  method PurgeCache(env: Env, api: PurgeApi, endpoints: seq<Endpoint>,
                    paths: Option<seq<string>>, purgeAllEndpoints: bool)
    returns (ok: bool, ghost attempts: seq<Attempt>)
    ensures endpoints == [] ==> !ok
    ensures purgeAllEndpoints && |endpoints| > 1 ==>
      (ok <==> forall i :: 0 <= i < |endpoints| ==> Purged(api, endpoints[i].name, ResolvePaths(env, paths)))
    ensures endpoints != [] && !(purgeAllEndpoints && |endpoints| > 1) ==>
      ok == Purged(api, endpoints[0].name, ResolvePaths(env, paths))
    ensures endpoints == [] ==> attempts == []
    ensures purgeAllEndpoints && |endpoints| > 1 ==>
      attempts == AttemptsFor(Names(endpoints), ResolvePaths(env, paths))
    ensures endpoints != [] && !(purgeAllEndpoints && |endpoints| > 1) ==>
      attempts == [Attempt(endpoints[0].name, ResolvePaths(env, paths))]
  {
    var resolved := ResolvePaths(env, paths);
    if endpoints == [] {
      return false, [];
    }
    var total := |endpoints|;
    if purgeAllEndpoints && total > 1 {
      var successCount;
      successCount, attempts := TallyPurges(api, endpoints, resolved);
      CountPurgedAll(api, Names(endpoints), resolved);
      ok := successCount == total;
    } else {
      ghost var attempt;
      ok, attempt := PurgeSingleEndpoint(api, endpoints[0].name, resolved);
      attempts := [attempt];
    }
  }

  /** `purge_specific_endpoint`: purges the named endpoint only, with the
      given paths or those from PURGE_PATHS. */
  method PurgeSpecificEndpoint(env: Env, api: PurgeApi, name: string, paths: Option<seq<string>>)
    returns (ok: bool, ghost attempt: Attempt)
    ensures attempt == Attempt(name, ResolvePaths(env, paths))
    ensures ok == Purged(api, name, ResolvePaths(env, paths))
  {
    var resolved := ResolvePaths(env, paths);
    ok, attempt := PurgeSingleEndpoint(api, name, resolved);
  }
}
