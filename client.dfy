/** The decision logic of the AWS client wrapper (pkg/client/client.go): session set-up,
    the DescribeRegions cache, region validation and the validated-client decision. The AWS
    SDK is not modelled: the credential provider's answer, the endpoint resolver's outcome
    and the DescribeRegions call are inputs. Time is an integer count of nanoseconds. */
module AwsClient {
  import opened Wrappers
  import opened Errors

  /** The region every DescribeRegions request is sent to. */
  const DefaultRegion: string := "us-east-1"

  /** The opt-in status of a region that cannot be used. */
  const NotOptedIn: string := "not-opted-in"

  /** How long a DescribeRegions answer is reused: 30 minutes, in nanoseconds. */
  const CacheExpiration: int := 30 * 60 * 1000000000

  // ---------------------------------------------------------------------------------------
  // Sessions

  /** Which credential source a session uses. */
  datatype AuthMode = Irsa | DefaultChain

  datatype Credentials = Credentials(accessKeyID: string)

  /** The configuration a new session is created with. */
  datatype SessionConfig = SessionConfig(region: string, authMode: AuthMode)

  /** IRSA is used exactly when both of its environment variables are set; a half-configured
      pair silently falls back to the default credential chain. */
  function SelectAuthMode(roleARN: string, tokenFile: string): (mode: AuthMode)
    ensures mode == Irsa <==> roleARN != "" && tokenFile != ""
  {
    if roleARN != "" && tokenFile != "" then Irsa else DefaultChain
  }

  /** `newAWSSession`: a session for `region`, in the mode the environment selects;
      `creationError` is what the SDK's session constructor reports. */
  function NewAWSSession(region: string, roleARN: string, tokenFile: string, creationError: Option<ApiError>)
    : (r: Result<SessionConfig, Error>)
    ensures r.Success? <==> creationError.None?
    ensures r.Success? ==> r.value.region == region && r.value.authMode == SelectAuthMode(roleARN, tokenFile)
    ensures r.Failure? ==> r.error == Api(creationError.value)
  {
    match creationError
    case Some(e) => Failure(Api(e))
    case None => Success(SessionConfig(region, SelectAuthMode(roleARN, tokenFile)))
  }

  /** A live session: its configured region can be changed in place; `credentials` is what
      its credential provider answers. */
  class Session {
    var region: string
    const authMode: AuthMode
    const credentials: Result<Credentials, ApiError>

    constructor(config: SessionConfig, credentials: Result<Credentials, ApiError>)
      ensures region == config.region && authMode == config.authMode
      ensures this.credentials == credentials
    {
      region := config.region;
      authMode := config.authMode;
      this.credentials := credentials;
    }
  }

  // ---------------------------------------------------------------------------------------
  // Region validation

  /** One region of a DescribeRegions answer. */
  datatype Region = Region(regionName: string, optInStatus: string)

  /** A DescribeRegions answer; its list may hold nil entries. */
  datatype DescribeRegionsOutput = DescribeRegionsOutput(regions: seq<Option<Region>>)

  predicate Names(entry: Option<Region>, region: string) {
    entry.Some? && entry.value.regionName == region
  }

  /** The position of the first non-nil entry naming `region`. */
  function FirstMatch(regions: seq<Option<Region>>, region: string): (r: Option<nat>)
    ensures r.Some? ==> r.value < |regions| && Names(regions[r.value], region)
    ensures r.Some? ==> forall j :: 0 <= j < r.value ==> !Names(regions[j], region)
    ensures r.None? ==> forall j :: 0 <= j < |regions| ==> !Names(regions[j], region)
  {
    if |regions| == 0 then None
    else if Names(regions[0], region) then Some(0)
    else match FirstMatch(regions[1..], region)
      case None => None
      case Some(i) => Some(i + 1)
  }

  /** What validating `region` against an answer yields: the first entry naming it, unless
      there is none or that entry is exactly "not-opted-in". */
  function RegionValidation(output: DescribeRegionsOutput, region: string): (r: Result<Region, Error>)
    ensures r.Success? ==> r.value.regionName == region && r.value.optInStatus != NotOptedIn
    ensures r.Success? ==> Some(r.value) in output.regions
    ensures (forall j :: 0 <= j < |output.regions| ==> !Names(output.regions[j], region)) <==>
              r == Failure(RegionNotValid(region))
    ensures r.Failure? ==> r.error == RegionNotValid(region) || r.error == RegionNotOptedIn(region)
    ensures FirstMatch(output.regions, region).Some? ==>
              var found := output.regions[FirstMatch(output.regions, region).value].value;
              r == (if found.optInStatus == NotOptedIn then Failure(RegionNotOptedIn(region)) else Success(found))
  {
    match FirstMatch(output.regions, region)
    case None => Failure(RegionNotValid(region))
    case Some(i) =>
      var found := output.regions[i].value;
      if found.optInStatus == NotOptedIn then Failure(RegionNotOptedIn(region)) else Success(found)
  }

  /** `validateRegion`: a linear search that stops at the first match. */
  method ValidateRegion(output: DescribeRegionsOutput, region: string) returns (r: Result<Region, Error>)
    ensures r == RegionValidation(output, region)
  {
    var regions := output.regions;
    var found: Option<Region> := None;
    var i := 0;
    while i < |regions|
      invariant 0 <= i <= |regions|
      invariant forall j :: 0 <= j < i ==> !Names(regions[j], region)
      invariant found.None?
    {
      if regions[i].Some? && regions[i].value.regionName == region {
        found := regions[i];
        break;
      }
      i := i + 1;
    }
    assert found.Some? ==> FirstMatch(regions, region) == Some(i);
    if found.None? {
      return Failure(RegionNotValid(region));
    }
    if found.value.optInStatus == NotOptedIn {
      return Failure(RegionNotOptedIn(region));
    }
    return Success(found.value);
  }

  // ---------------------------------------------------------------------------------------
  // The DescribeRegions cache

  /** One cache entry. The zero entry (no error, no answer, time 0) is what a missing key
      reads as. */
  datatype DescribeRegionsData = DescribeRegionsData(
    err: Option<ApiError>,
    output: Option<DescribeRegionsOutput>,
    lastUpdated: int)

  const ZeroData: DescribeRegionsData := DescribeRegionsData(None, None, 0)

  function EntryFor(data: map<string, DescribeRegionsData>, key: string): DescribeRegionsData {
    if key in data then data[key] else ZeroData
  }

  /** An entry that may be answered from: it holds an answer, no error, and is younger than
      the expiration at time `now`. */
  predicate Usable(entry: DescribeRegionsData, now: int): (b: bool)
    ensures b ==> entry.output.Some? && entry.err.None?
    ensures entry.lastUpdated + CacheExpiration <= now ==> !b
    ensures entry.output.Some? && entry.err.None? && now < entry.lastUpdated + CacheExpiration ==> b
  {
    entry.output.Some? && entry.err.None? && now - entry.lastUpdated < CacheExpiration
  }

  /** Whether a lookup for `key` at `now` calls the DescribeRegions API. */
  predicate Misses(data: map<string, DescribeRegionsData>, key: string, now: int) {
    !Usable(EntryFor(data, key), now)
  }

  /** The answer of a lookup for `key` at `now`, given what the API would answer. */
  function CachedAnswer(data: map<string, DescribeRegionsData>, key: string, now: int,
                        fetched: Result<DescribeRegionsOutput, ApiError>)
    : (r: Result<DescribeRegionsOutput, ApiError>)
    ensures !Misses(data, key, now) ==> key in data && r == Success(data[key].output.value)
    ensures Misses(data, key, now) ==> r == fetched
  {
    var entry := EntryFor(data, key);
    if Usable(entry, now) then Success(entry.output.value) else fetched
  }

  /** The cache contents after a lookup for `key` at `now`, given what the API would answer. */
  function CachedData(data: map<string, DescribeRegionsData>, key: string, now: int,
                      fetched: Result<DescribeRegionsOutput, ApiError>)
    : (d: map<string, DescribeRegionsData>)
    ensures d.Keys == data.Keys + (if Misses(data, key, now) && fetched.Success? then {key} else {})
    ensures forall k :: k in data && k != key ==> d[k] == data[k]
    ensures Misses(data, key, now) && fetched.Success? ==>
              d[key] == EntryFor(data, key).(output := Some(fetched.value), lastUpdated := now)
    ensures !Misses(data, key, now) || fetched.Failure? ==> d == data
  {
    var entry := EntryFor(data, key);
    if Usable(entry, now) then data
    else match fetched
      case Failure(_) => data
      case Success(out) => data[key := entry.(output := Some(out), lastUpdated := now)]
  }

  /** The cache's invariant: every stored entry holds an answer and no error. */
  predicate ValidData(data: map<string, DescribeRegionsData>) {
    forall k :: k in data ==> data[k].output.Some? && data[k].err.None?
  }

  /** Errors are never cached: the invariant survives every lookup. */
  lemma CachedDataValid(data: map<string, DescribeRegionsData>, key: string, now: int,
                        fetched: Result<DescribeRegionsOutput, ApiError>)
    requires ValidData(data)
    ensures ValidData(CachedData(data, key, now, fetched))
  {
    var d := CachedData(data, key, now, fetched);
    forall k | k in d ensures d[k].output.Some? && d[k].err.None? {
      if k != key {
        assert k in data;
      }
    }
  }

  /** A failed API call leaves the cache exactly as it was. */
  lemma FailureNotCached(data: map<string, DescribeRegionsData>, key: string, now: int, e: ApiError)
    ensures CachedData(data, key, now, Failure(e)) == data
    ensures CachedAnswer(data, key, now, Failure(e)).Failure? ==> Misses(data, key, now)
  {
  }

  /** Once an answer has been fetched for a key, later lookups for that key within the
      expiration reuse it without calling the API, whatever the API would say then. */
  lemma RefreshThenHit(data: map<string, DescribeRegionsData>, key: string, now: int,
                       out: DescribeRegionsOutput, later: int, fetchedLater: Result<DescribeRegionsOutput, ApiError>)
    requires ValidData(data)
    requires Misses(data, key, now)
    requires now <= later < now + CacheExpiration
    ensures var d := CachedData(data, key, now, Success(out));
            !Misses(d, key, later) &&
            CachedAnswer(d, key, later, fetchedLater) == Success(out) &&
            CachedData(d, key, later, fetchedLater) == d
  {
    var d := CachedData(data, key, now, Success(out));
    assert d[key].err.None? by {
      CachedDataValid(data, key, now, Success(out));
    }
  }

  /** An entry expires: at or after `lastUpdated` plus the expiration the API is called again. */
  lemma ExpiredEntryMisses(data: map<string, DescribeRegionsData>, key: string, now: int)
    requires key in data && now >= data[key].lastUpdated + CacheExpiration
    ensures Misses(data, key, now)
  {
  }

  /** `regionCache`: DescribeRegions answers keyed by the access key that fetched them.
      `requests` records the region of every DescribeRegions request made. */
  class RegionCache {
    var data: map<string, DescribeRegionsData>
    ghost var requests: seq<string>

    ghost predicate Valid()
      reads this
    {
      ValidData(data)
    }

    constructor()
      ensures data == map[] && requests == []
      ensures Valid()
    {
      data := map[];
      requests := [];
    }

    /** `GetCachedDescribeRegions`: answers from the entry of the session's access key when it
        is usable; otherwise sends DescribeRegions with the session's region switched to
        us-east-1, restores the region, and stores a successful answer with time `now`. */
    method GetCachedDescribeRegions(session: Session, now: int,
                                    describeRegions: (Credentials, string) -> Result<DescribeRegionsOutput, ApiError>)
      returns (r: Result<DescribeRegionsOutput, ApiError>)
      requires Valid()
      modifies this, session
      ensures Valid()
      ensures session.region == old(session.region)
      ensures session.credentials.Failure? ==>
                r == Failure(session.credentials.error) && data == old(data) && requests == old(requests)
      ensures session.credentials.Success? ==>
                var key := session.credentials.value.accessKeyID;
                var fetched := describeRegions(session.credentials.value, DefaultRegion);
                && r == CachedAnswer(old(data), key, now, fetched)
                && data == CachedData(old(data), key, now, fetched)
                && requests == old(requests) + (if Misses(old(data), key, now) then [DefaultRegion] else [])
    {
      if session.credentials.Failure? {
        return Failure(session.credentials.error);
      }
      var creds := session.credentials.value;
      var entry := if creds.accessKeyID in data then data[creds.accessKeyID] else ZeroData;
      if entry.output.Some? && entry.err.None? && now - entry.lastUpdated < CacheExpiration {
        return Success(entry.output.value);
      }
      var currentRegion := session.region;
      session.region := DefaultRegion;
      r := describeRegions(creds, session.region);
      requests := requests + [session.region];
      session.region := currentRegion;
      if r.Failure? {
        return;
      }
      entry := entry.(output := Some(r.value), lastUpdated := now);
      data := data[creds.accessKeyID := entry];
    }
  }

  // ---------------------------------------------------------------------------------------
  // Validated clients

  /** What the endpoint resolver says about a region under strict matching. */
  datatype EndpointOutcome = Resolved | UnknownEndpoint | ResolverError(cause: ApiError)

  /** A client for the EC2 and ELB APIs, bound to a session configuration. */
  datatype AwsClient = AwsClient(config: SessionConfig)

  /** The validated-client decision once the session exists: a resolvable region is accepted
      without region data; an unknown one must appear in the region data and be opted in; any
      other resolver error is refused. `regionData` is what the region cache answers. */
  function ValidatedClient(config: SessionConfig, region: string, endpoint: EndpointOutcome,
                           regionData: Result<DescribeRegionsOutput, ApiError>)
    : (r: Result<AwsClient, Error>)
    ensures r.Success? ==> r.value.config == config
    ensures endpoint == Resolved ==> r.Success?
    ensures endpoint.ResolverError? ==> r == Failure(RegionNotResolved(region, endpoint.cause))
    ensures endpoint == UnknownEndpoint ==>
              && (regionData.Failure? ==> r == Failure(RegionDataUnavailable(regionData.error)))
              && (regionData.Success? ==>
                    (r.Success? <==> RegionValidation(regionData.value, region).Success?) &&
                    (r.Failure? ==> r.error == RegionValidation(regionData.value, region).error))
  {
    match endpoint
    case Resolved => Success(AwsClient(config))
    case ResolverError(e) => Failure(RegionNotResolved(region, e))
    case UnknownEndpoint =>
      match regionData
      case Failure(e) => Failure(RegionDataUnavailable(e))
      case Success(out) =>
        match RegionValidation(out, region)
        case Failure(e) => Failure(e)
        case Success(_) => Success(AwsClient(config))
  }

  /** A client is only ever built for a region that is resolvable or reported valid and
      opted in. */
  lemma ValidatedClientRegion(config: SessionConfig, region: string, endpoint: EndpointOutcome,
                              regionData: Result<DescribeRegionsOutput, ApiError>)
    requires ValidatedClient(config, region, endpoint, regionData).Success?
    ensures endpoint == Resolved ||
            (endpoint == UnknownEndpoint && regionData.Success? &&
             exists j :: 0 <= j < |regionData.value.regions| &&
               regionData.value.regions[j].Some? &&
               regionData.value.regions[j].value.regionName == region &&
               regionData.value.regions[j].value.optInStatus != NotOptedIn)
  {
    if endpoint == UnknownEndpoint {
      var found := RegionValidation(regionData.value, region).value;
      var j :| 0 <= j < |regionData.value.regions| && regionData.value.regions[j] == Some(found);
    }
  }

  /** `NewValidatedClient`: creates the session, asks the endpoint resolver about the region,
      and only when the region is unknown to it consults the region cache. */
  method NewValidatedClient(region: string, roleARN: string, tokenFile: string,
                            creationError: Option<ApiError>, credentials: Result<Credentials, ApiError>,
                            endpoint: EndpointOutcome, cache: RegionCache, now: int,
                            describeRegions: (Credentials, string) -> Result<DescribeRegionsOutput, ApiError>)
    returns (r: Result<AwsClient, Error>)
    requires cache.Valid()
    modifies cache
    ensures cache.Valid()
    ensures NewAWSSession(region, roleARN, tokenFile, creationError).Failure? ==>
              r == Failure(NewAWSSession(region, roleARN, tokenFile, creationError).error) &&
              cache.data == old(cache.data) && cache.requests == old(cache.requests)
    ensures endpoint != UnknownEndpoint ==> cache.data == old(cache.data) && cache.requests == old(cache.requests)
    ensures NewAWSSession(region, roleARN, tokenFile, creationError).Success? && endpoint == UnknownEndpoint ==>
              match credentials
              case Failure(_) => cache.data == old(cache.data) && cache.requests == old(cache.requests)
              case Success(c) =>
                && cache.data == CachedData(old(cache.data), c.accessKeyID, now, describeRegions(c, DefaultRegion))
                && cache.requests == old(cache.requests) +
                     (if Misses(old(cache.data), c.accessKeyID, now) then [DefaultRegion] else [])
    ensures NewAWSSession(region, roleARN, tokenFile, creationError).Success? ==>
              var config := NewAWSSession(region, roleARN, tokenFile, creationError).value;
              var regionData :=
                match credentials
                case Failure(e) => Failure(e)
                case Success(c) => CachedAnswer(old(cache.data), c.accessKeyID, now, describeRegions(c, DefaultRegion));
              r == ValidatedClient(config, region, endpoint, regionData)
  {
    var config :- NewAWSSession(region, roleARN, tokenFile, creationError);
    var session := new Session(config, credentials);
    match endpoint {
      case Resolved =>
        return Success(AwsClient(config));
      case ResolverError(e) =>
        return Failure(RegionNotResolved(region, e));
      case UnknownEndpoint =>
        var regionData := cache.GetCachedDescribeRegions(session, now, describeRegions);
        if regionData.Failure? {
          return Failure(RegionDataUnavailable(regionData.error));
        }
        var validated := ValidateRegion(regionData.value, region);
        if validated.Failure? {
          return Failure(validated.error);
        }
        return Success(AwsClient(config));
    }
  }
}
