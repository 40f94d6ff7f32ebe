/** The Places text-search client: the fixed nine-field record built from one
    search result, the paginated fetch loop over the search responses, and
    the key check and column list of the step that saves the raw CSV. */
module GooglePlaces {
  import opened Wrappers
  import opened PyStr

  /** The fields of one search result that the record reads; `None` is an absent key. */
  datatype Location = Location(lat: Option<real>, lng: Option<real>)

  datatype Geometry = Geometry(location: Option<Location>)

  datatype RawPlace = RawPlace(
    placeId: Option<string>,
    name: Option<string>,
    formattedAddress: Option<string>,
    rating: Option<real>,
    userRatingsTotal: Option<int>,
    businessStatus: Option<string>,
    types: Option<seq<string>>,
    geometry: Option<Geometry>)

  /** A value of a normalised record: `str`, `float`, `int` or `None`. */
  datatype Value = Str(s: string) | Real(r: real) | Int(i: int) | Null

  /** The dict `_normalize_result` builds, one field per key. */
  datatype Record = Record(
    placeId: string,
    name: string,
    formattedAddress: string,
    rating: real,
    userRatingsTotal: int,
    businessStatus: string,
    types: string,
    lat: Option<real>,
    lng: Option<real>)

  /** The columns of the raw CSV, in the order they are written. */
  const FieldNames: seq<string> :=
    ["place_id", "name", "formatted_address", "rating", "user_ratings_total",
     "business_status", "types", "lat", "lng"]

  function OptReal(x: Option<real>): Value {
    if x.Some? then Real(x.value) else Null
  }

  /** `record.get(key)`: the value under `key`, `None` for a key the record lacks. */
  function Field(rec: Record, key: string): Option<Value> {
    if key == "place_id" then Some(Str(rec.placeId))
    else if key == "name" then Some(Str(rec.name))
    else if key == "formatted_address" then Some(Str(rec.formattedAddress))
    else if key == "rating" then Some(Real(rec.rating))
    else if key == "user_ratings_total" then Some(Int(rec.userRatingsTotal))
    else if key == "business_status" then Some(Str(rec.businessStatus))
    else if key == "types" then Some(Str(rec.types))
    else if key == "lat" then Some(OptReal(rec.lat))
    else if key == "lng" then Some(OptReal(rec.lng))
    else None
  }

  /** A record holds exactly the nine keys of the CSV header, which are distinct:
      the writer finds a value for every column and no key it would refuse. */
  lemma RecordKeys(rec: Record)
    ensures |FieldNames| == 9
    ensures forall i, j :: 0 <= i < j < |FieldNames| ==> FieldNames[i] != FieldNames[j]
    ensures forall k :: Field(rec, k).Some? <==> k in FieldNames
  {
    assert FieldNames[0][0] == 'p' && FieldNames[3][0] == 'r' && FieldNames[4][0] == 'u';
    assert FieldNames[1][0] == 'n' && FieldNames[2][0] == 'f' && FieldNames[5][0] == 'b';
    assert FieldNames[6][0] == 't' && FieldNames[7][1] == 'a' && FieldNames[8][1] == 'n';
  }

  /** `location.get(...)` for `lat` or `lng`: absent when geometry, location
      or the coordinate itself is absent. */
  function Coordinate(raw: RawPlace, lat: bool): Option<real> {
    match raw.geometry
    case None => None
    case Some(g) =>
      match g.location
      case None => None
      case Some(loc) => if lat then loc.lat else loc.lng
  }

  /** `_normalize_result`: the nine fields, each defaulted when absent. */
  function Normalize(raw: RawPlace): (r: Record)
    ensures Field(r, "place_id") == Some(Str(raw.placeId.GetOr("")))
    ensures Field(r, "name") == Some(Str(raw.name.GetOr("")))
    ensures Field(r, "formatted_address") == Some(Str(raw.formattedAddress.GetOr("")))
    ensures Field(r, "rating") == Some(Real(raw.rating.GetOr(0.0)))
    ensures Field(r, "user_ratings_total") == Some(Int(raw.userRatingsTotal.GetOr(0)))
    ensures Field(r, "business_status") == Some(Str(raw.businessStatus.GetOr("")))
    ensures Field(r, "types") == Some(Str(Join(",", raw.types.GetOr([]))))
    ensures raw.geometry.None? || raw.geometry.value.location.None? ==>
      Field(r, "lat") == Some(Null) && Field(r, "lng") == Some(Null)
    ensures raw.geometry.Some? && raw.geometry.value.location.Some? ==>
      && Field(r, "lat") == Some(OptReal(raw.geometry.value.location.value.lat))
      && Field(r, "lng") == Some(OptReal(raw.geometry.value.location.value.lng))
  {
    Record(
      raw.placeId.GetOr(""),
      raw.name.GetOr(""),
      raw.formattedAddress.GetOr(""),
      raw.rating.GetOr(0.0),
      raw.userRatingsTotal.GetOr(0),
      raw.businessStatus.GetOr(""),
      Join(",", raw.types.GetOr([])),
      Coordinate(raw, true),
      Coordinate(raw, false))
  }

  /** The joined `types` column gives back the tag list when no tag holds a comma. */
  lemma NormalizeTypesRoundTrip(raw: RawPlace)
    requires raw.types.Some? && |raw.types.value| >= 1
    requires forall i :: 0 <= i < |raw.types.value| ==> ',' !in raw.types.value[i]
    ensures Split(Normalize(raw).types, ',') == raw.types.value
  {
    SplitJoin(raw.types.value, ',');
  }

  /** One response of the search endpoint. */
  datatype Response = Response(
    status: Option<string>,
    errorMessage: Option<string>,
    results: Option<seq<RawPlace>>,
    nextPageToken: Option<string>)

  /** `PlacesSearchConfig` */
  datatype PlacesSearchConfig = PlacesSearchConfig(query: string, apiKey: string, maxResults: int)

  /** The default of `max_results`, used when the caller passes none. */
  const DefaultMaxResults := 60

  const DefaultErrorMessage := "No additional details provided."

  /** The two shapes of the request parameters: the first request's, and a later page's. */
  datatype Params = QueryParams(query: string, key: string) | TokenParams(pagetoken: string, key: string) {

    /** The parameter dict that is URL-encoded into the request. */
    function Dict(): (d: map<string, string>)
      ensures QueryParams? ==> d.Keys == {"query", "key"} && d["query"] == query && d["key"] == key
      ensures TokenParams? ==> d.Keys == {"pagetoken", "key"} && d["pagetoken"] == pagetoken && d["key"] == key
    {
      match this
      case QueryParams(q, k) => map["query" := q, "key" := k]
      case TokenParams(t, k) => map["pagetoken" := t, "key" := k]
    }
  }

  function FirstParams(config: PlacesSearchConfig): Params {
    QueryParams(config.query, config.apiKey)
  }

  /** What the fetch does to the outside world: a search request, or a wait in seconds. */
  datatype Event = Get(params: Params) | Sleep(seconds: int)

  /** An API status the loop refuses, or a request with no response. */
  datatype FetchError = ApiError(status: Option<string>, message: string) | TransportError

  /** The text of the `RuntimeError` raised for a refused status. */
  function Describe(status: Option<string>, message: string): (t: string)
    ensures |t| >= 29 + |message|
    ensures t[..27] == "Google Places API returned "
    ensures t[|t| - |message|..] == message
    ensures t[27..|t| - |message| - 2] == (if status.Some? then status.value else "None")
    ensures t[|t| - |message| - 2..|t| - |message|] == ": "
  {
    "Google Places API returned " + (if status.Some? then status.value else "None") + ": " + message
  }

  predicate GoodStatus(status: Option<string>) {
    status == Some("OK") || status == Some("ZERO_RESULTS")
  }

  /** Python truthiness of an optional string. */
  predicate Truthy(token: Option<string>) {
    token.Some? && token.value != ""
  }

  function NormalizePage(results: seq<RawPlace>): (r: seq<Record>)
    ensures |r| == |results|
    ensures forall i :: 0 <= i < |r| ==> r[i] == Normalize(results[i])
  {
    seq(|results|, i requires 0 <= i < |results| => Normalize(results[i]))
  }

  /** The normalised results of the first `n` responses, concatenated in order. */
  function Flat(api: seq<Response>, n: int): seq<Record>
    requires 0 <= n <= |api|
  {
    if n == 0 then [] else Flat(api, n - 1) + NormalizePage(api[n - 1].results.GetOr([]))
  }

  /** The first `max` elements of `s` (none when `max <= 0`). */
  function Truncate<T>(s: seq<T>, max: int): (r: seq<T>)
    ensures |r| == (if max <= 0 then 0 else if |s| <= max then |s| else max)
    ensures r == s[..|r|]
  {
    if max <= 0 then [] else if |s| <= max then s else s[..max]
  }

  /** After response `j` the loop asks for another page: the status is
      accepted, a token came back, and fewer than `max` records are held. */
  predicate Continues(max: int, api: seq<Response>, j: int)
    requires 0 <= j < |api|
  {
    GoodStatus(api[j].status) && Truthy(api[j].nextPageToken) && Count(api, j + 1) < max
  }

  /** The number of results in the first `n` responses. */
  function Count(api: seq<Response>, n: int): nat
    requires 0 <= n <= |api|
  {
    if n == 0 then 0 else Count(api, n - 1) + |api[n - 1].results.GetOr([])|
  }

  lemma {:induction false} FlatCount(api: seq<Response>, n: int)
    requires 0 <= n <= |api|
    ensures |Flat(api, n)| == Count(api, n)
  {
    if n > 0 {
      FlatCount(api, n - 1);
    }
  }

  /** The index of the last request made when requests from `j` on are made
      while the previous response asks for another page. */
  function LastFrom(max: int, api: seq<Response>, j: int): (last: int)
    requires 0 <= j <= |api|
    ensures j <= last <= |api|
    decreases |api| - j
  {
    if j == |api| || !Continues(max, api, j) then j else LastFrom(max, api, j + 1)
  }

  /** The index of the last request of a fetch with a positive `max`. */
  function LastRequest(max: int, api: seq<Response>): (last: int)
    ensures 0 <= last <= |api|
  {
    LastFrom(max, api, 0)
  }

  /** The events of the first `n` requests: the query request, then a wait
      and a token request for each further page. */
  function Requests(config: PlacesSearchConfig, api: seq<Response>, n: int): seq<Event>
    requires 0 <= n <= |api| + 1
  {
    if n == 0 then []
    else if n == 1 then [Get(FirstParams(config))]
    else Requests(config, api, n - 1)
         + [Sleep(2)] + [Get(TokenParams(api[n - 2].nextPageToken.GetOr(""), config.apiKey))]
  }

  /** What `fetch_places` returns, or the error it raises. */
  function FetchOutcome(config: PlacesSearchConfig, api: seq<Response>): Result<seq<Record>, FetchError> {
    if config.maxResults <= 0 then Success([])
    else
      var last := LastRequest(config.maxResults, api);
      if last == |api| then Failure(TransportError)
      else if !GoodStatus(api[last].status) then
        Failure(ApiError(api[last].status, api[last].errorMessage.GetOr(DefaultErrorMessage)))
      else Success(Truncate(Flat(api, last + 1), config.maxResults))
  }

  /** The requests and waits of `fetch_places`. */
  function FetchTrace(config: PlacesSearchConfig, api: seq<Response>): seq<Event> {
    if config.maxResults <= 0 then [] else Requests(config, api, LastRequest(config.maxResults, api) + 1)
  }

  /** The records the loop holds after `page` responses. */
  lemma FlatTruncateStep(api: seq<Response>, page: int, max: int, start: seq<Record>)
    requires 0 <= page < |api|
    requires start == Truncate(Flat(api, page), max) && |start| < max
    ensures Truncate(Flat(api, page + 1), max)
      == Truncate(start + NormalizePage(api[page].results.GetOr([])), max)
  {
  }

  /** The inner loop of `fetch_places`: appends the page's normalised results
      and stops as soon as `max` records are held. */
  method AppendPage(collected0: seq<Record>, results: seq<RawPlace>, max: int)
    returns (collected: seq<Record>)
    requires |collected0| < max
    ensures collected == Truncate(collected0 + NormalizePage(results), max)
  {
    collected := collected0;
    var k := 0;
    while k < |results|
      invariant 0 <= k <= |results|
      invariant collected == collected0 + NormalizePage(results)[..k]
      invariant |collected| < max
    {
      collected := collected + [Normalize(results[k])];
      k := k + 1;
      if |collected| >= max {
        break;
      }
    }
  }

  /** `fetch_places` over the responses `api`: response `k` answers request `k`,
      and a request beyond the last response fails in transport. */
  method FetchPlaces(config: PlacesSearchConfig, api: seq<Response>)
    returns (res: Result<seq<Record>, FetchError>, trace: seq<Event>)
    ensures res == FetchOutcome(config, api)
    ensures trace == FetchTrace(config, api)
  {
    var max := config.maxResults;
    var params := FirstParams(config);
    var collected: seq<Record> := [];
    var nextPageToken: Option<string> := None;
    var page := 0;
    trace := [];
    while |collected| < max
      invariant 0 <= page <= |api|
      invariant page == 0 ==> collected == [] && nextPageToken == None && params == FirstParams(config)
      invariant page > 0 ==> max > 0 && GoodStatus(api[page - 1].status)
      invariant page > 0 ==> nextPageToken == api[page - 1].nextPageToken && Truthy(nextPageToken)
      invariant page > 0 ==> LastRequest(max, api) == LastFrom(max, api, page - 1)
      invariant collected == Truncate(Flat(api, page), max)
      invariant trace == Requests(config, api, page)
      decreases |api| - page
    {
      FlatCount(api, page);
      if page > 0 {
        assert Continues(max, api, page - 1);
      }
      assert LastRequest(max, api) == LastFrom(max, api, page);
      if Truthy(nextPageToken) {
        params := TokenParams(nextPageToken.value, config.apiKey);
        trace := trace + [Sleep(2)];
      }
      trace := trace + [Get(params)];
      RequestsNext(config, api, page);
      if page == |api| {
        return Failure(TransportError), trace;
      }
      var payload := api[page];
      if !GoodStatus(payload.status) {
        return Failure(ApiError(payload.status, payload.errorMessage.GetOr(DefaultErrorMessage))), trace;
      }
      var results := payload.results.GetOr([]);
      ghost var start := collected;
      FlatCount(api, page + 1);
      collected := AppendPage(collected, results, max);
      FlatTruncateStep(api, page, max, start);
      page := page + 1;
      nextPageToken := payload.nextPageToken;
      if !Truthy(nextPageToken) {
        break;
      }
    }
    FlatCount(api, page);
    res := Success(collected);
  }

  lemma RequestsNext(config: PlacesSearchConfig, api: seq<Response>, n: int)
    requires 0 <= n <= |api|
    ensures Requests(config, api, n + 1) == Requests(config, api, n)
      + (if n == 0 then [] else [Sleep(2)])
      + [Get(if n == 0 then FirstParams(config) else TokenParams(api[n - 1].nextPageToken.GetOr(""), config.apiKey))]
  {
  }

  /** From request `j` on, the loop goes on exactly while each response asks
      for another page, and it stops at the first that does not. */
  lemma {:induction false} LastFromStops(max: int, api: seq<Response>, j: int)
    requires 0 <= j <= |api|
    ensures forall i :: j <= i < LastFrom(max, api, j) ==> Continues(max, api, i)
    ensures LastFrom(max, api, j) < |api| ==> !Continues(max, api, LastFrom(max, api, j))
    decreases |api| - j
  {
    if j < |api| && Continues(max, api, j) {
      LastFromStops(max, api, j + 1);
    }
  }

  /** The stop rule: every response before the last request had an accepted
      status, a non-empty token and left the loop short of `max` records; the
      last request got no response, or a refused status, or no token, or
      brought the count to `max`. */
  lemma StopRule(max: int, api: seq<Response>)
    ensures forall i :: 0 <= i < LastRequest(max, api) ==>
      GoodStatus(api[i].status) && Truthy(api[i].nextPageToken) && |Flat(api, i + 1)| < max
    ensures var last := LastRequest(max, api);
      last < |api| ==>
        !GoodStatus(api[last].status) || !Truthy(api[last].nextPageToken) || |Flat(api, last + 1)| >= max
  {
    var last := LastRequest(max, api);
    LastFromStops(max, api, 0);
    forall i | 0 <= i < last
      ensures GoodStatus(api[i].status) && Truthy(api[i].nextPageToken) && |Flat(api, i + 1)| < max
    {
      assert Continues(max, api, i);
      FlatCount(api, i + 1);
    }
    if last < |api| {
      FlatCount(api, last + 1);
    }
  }

  /** Nothing is fetched for a non-positive `max`, and never more than `max` records. */
  lemma FetchBounded(config: PlacesSearchConfig, api: seq<Response>)
    ensures config.maxResults <= 0 ==> FetchOutcome(config, api) == Success([]) && FetchTrace(config, api) == []
    ensures FetchOutcome(config, api).Success? && config.maxResults > 0 ==>
      |FetchOutcome(config, api).value| <= config.maxResults
  {
  }

  /** The pages already fetched are a prefix of the pages fetched later. */
  lemma {:induction false} FlatPrefix(api: seq<Response>, m: int, n: int)
    requires 0 <= m <= n <= |api|
    ensures |Flat(api, m)| <= |Flat(api, n)|
    ensures Flat(api, n)[..|Flat(api, m)|] == Flat(api, m)
    decreases n - m
  {
    if m < n {
      FlatPrefix(api, m, n - 1);
      assert Flat(api, n)[..|Flat(api, n - 1)|] == Flat(api, n - 1);
    }
  }

  /** In the concatenation of the first `n` pages, page `k` occupies the
      positions after the results of the pages before it. */
  lemma {:induction false} FlatPage(api: seq<Response>, n: int, k: int)
    requires 0 <= k < n <= |api|
    ensures Count(api, k + 1) <= Count(api, n) == |Flat(api, n)|
    ensures Flat(api, n)[Count(api, k)..Count(api, k + 1)] == NormalizePage(api[k].results.GetOr([]))
    decreases n
  {
    FlatCount(api, n);
    FlatCount(api, k);
    if k < n - 1 {
      FlatPage(api, n - 1, k);
      FlatPrefix(api, n - 1, n);
      FlatCount(api, n - 1);
      assert Flat(api, n)[Count(api, k)..Count(api, k + 1)]
        == Flat(api, n)[..Count(api, n - 1)][Count(api, k)..Count(api, k + 1)];
    }
  }

  /** The records are the normalised results of the fetched pages in order,
      cut at `max`; a fetch that ends short of `max` returns all of them and
      stopped because the last page carried no token. */
  lemma FetchConcatenation(config: PlacesSearchConfig, api: seq<Response>)
    requires FetchOutcome(config, api).Success? && config.maxResults > 0
    ensures var r := FetchOutcome(config, api).value;
      var last := LastRequest(config.maxResults, api);
      && last < |api|
      && |r| <= |Flat(api, last + 1)| && r == Flat(api, last + 1)[..|r|]
      && (|r| < config.maxResults ==> r == Flat(api, last + 1) && !Truthy(api[last].nextPageToken))
  {
    var last := LastRequest(config.maxResults, api);
    var r := FetchOutcome(config, api).value;
    StopRule(config.maxResults, api);
  }

  /** A refused status ends the fetch with that status and the API's message
      (or the stock one), after pages whose statuses were all accepted. */
  lemma FetchApiError(config: PlacesSearchConfig, api: seq<Response>)
    requires FetchOutcome(config, api).Failure? && FetchOutcome(config, api).error.ApiError?
    ensures var e := FetchOutcome(config, api).error;
      var last := LastRequest(config.maxResults, api);
      && config.maxResults > 0 && last < |api|
      && e.status == api[last].status && !GoodStatus(e.status)
      && e.message == api[last].errorMessage.GetOr(DefaultErrorMessage)
      && (forall i :: 0 <= i < last ==> GoodStatus(api[i].status))
  {
    StopRule(config.maxResults, api);
  }

  /** The shape of the first `n` requests: the query request, then pairs of
      a 2-second wait and a request for the token of the previous response. */
  lemma {:induction false} RequestsShape(config: PlacesSearchConfig, api: seq<Response>, n: int)
    requires 1 <= n <= |api| + 1
    ensures |Requests(config, api, n)| == 2 * n - 1
    ensures Requests(config, api, n)[0] == Get(QueryParams(config.query, config.apiKey))
    ensures forall k :: 1 <= k < n ==>
      && Requests(config, api, n)[2 * k - 1] == Sleep(2)
      && Requests(config, api, n)[2 * k] == Get(TokenParams(api[k - 1].nextPageToken.GetOr(""), config.apiKey))
  {
    if n > 1 {
      RequestsShape(config, api, n - 1);
    }
  }

  /** The requests of a fetch: none for a non-positive `max`; otherwise the
      query request first and, for every further page, a wait followed by a
      request carrying only the non-empty token of the previous page and the key. */
  lemma FetchTraceShape(config: PlacesSearchConfig, api: seq<Response>)
    requires config.maxResults > 0
    ensures var trace := FetchTrace(config, api);
      var n := LastRequest(config.maxResults, api) + 1;
      && |trace| == 2 * n - 1
      && trace[0] == Get(QueryParams(config.query, config.apiKey))
      && forall k :: 1 <= k < n ==>
        && trace[2 * k - 1] == Sleep(2)
        && trace[2 * k].Get? && trace[2 * k].params.TokenParams?
        && trace[2 * k].params.key == config.apiKey
        && Some(trace[2 * k].params.pagetoken) == api[k - 1].nextPageToken
        && trace[2 * k].params.pagetoken != ""
  {
    var n := LastRequest(config.maxResults, api) + 1;
    RequestsShape(config, api, n);
    StopRule(config.maxResults, api);
  }

  /** Why `fetch_and_save_raw_csv` stops early. */
  datatype SaveError = MissingApiKey | FetchFailed(error: FetchError)

  /** The raw CSV: its header and its rows. */
  datatype RawCsv = RawCsv(fieldnames: seq<string>, records: seq<Record>)

  /** `fetch_and_save_raw_csv` up to the write: the key from the environment
      (`None` when unset) is stripped and must be non-empty before anything is
      fetched, `max_results` is 60 unless given (`None` when omitted), and the
      records go out under the fixed nine-column header. */
  method FetchAndSaveRawCsv(query: string, envApiKey: Option<string>, maxResults: Option<int>, api: seq<Response>)
    returns (res: Result<RawCsv, SaveError>, trace: seq<Event>)
    ensures AllSpace(envApiKey.GetOr("")) <==> res == Failure(MissingApiKey)
    ensures AllSpace(envApiKey.GetOr("")) ==> trace == []
    ensures !AllSpace(envApiKey.GetOr("")) ==>
      var config := PlacesSearchConfig(query, Strip(envApiKey.GetOr("")), maxResults.GetOr(DefaultMaxResults));
      var outcome := FetchOutcome(config, api);
      && trace == FetchTrace(config, api)
      && (outcome.Failure? ==> res == Failure(FetchFailed(outcome.error)))
      && (outcome.Success? ==> res == Success(RawCsv(FieldNames, outcome.value)))
  {
    var apiKey := Strip(envApiKey.GetOr(""));
    if apiKey == "" {
      return Failure(MissingApiKey), [];
    }
    var fetched;
    fetched, trace := FetchPlaces(PlacesSearchConfig(query, apiKey, maxResults.GetOr(DefaultMaxResults)), api);
    if fetched.Failure? {
      return Failure(FetchFailed(fetched.error)), trace;
    }
    res := Success(RawCsv(FieldNames, fetched.value));
  }
}
