/** The HTTP client of the calculation service: endpoint building, the
    URL builders, the retry policy of a request and the helpers that read
    one output out of a calculation result. The network is an oracle that
    gives the outcome of each attempt; percent-encoding of a query is an
    abstract function. */
module CalcsLiveClient {

  import opened Wrappers
  import opened Text
  import opened Json

  const DefaultBaseUrl: string := "https://www.calcs.live"
  const MaxRetries: int := 3
  const RetryDelay: nat := 1

  datatype Client = Client(apiKey: Option<string>, baseUrl: string)

  /** The constructor: the base URL loses its trailing slashes. */
  function NewClient(apiKey: Option<string>, baseUrl: string): (c: Client)
    ensures c.apiKey == apiKey
    ensures IsPrefix(c.baseUrl, baseUrl) && (c.baseUrl == [] || c.baseUrl[|c.baseUrl| - 1] != '/')
    ensures forall i :: |c.baseUrl| <= i < |baseUrl| ==> baseUrl[i] == '/'
  {
    Client(apiKey, RStripChar(baseUrl, '/'))
  }

  /** A base URL without trailing slashes is kept as it is. */
  lemma NewClientKeepsCleanUrl(apiKey: Option<string>, baseUrl: string)
    requires baseUrl == [] || baseUrl[|baseUrl| - 1] != '/'
    ensures NewClient(apiKey, baseUrl).baseUrl == baseUrl
  {}

  datatype Endpoint = Calculate | Validate | FreecadConnect | FreecadDashboard

  /** The path of each endpoint below the base URL; the dashboard path is a
      template with an `{article_id}` field. */
  function EndpointPath(e: Endpoint): string {
    match e
    case Calculate => "/api/n8n/v1/calculate"
    case Validate => "/api/n8n/v1/validate"
    case FreecadConnect => "/freecad/connect"
    case FreecadDashboard => "/freecad/{article_id}/dashboard"
  }

  /** `self.endpoints[e]`. */
  function EndpointUrl(c: Client, e: Endpoint): (r: string)
    ensures IsPrefix(c.baseUrl, r) && |r| > |c.baseUrl| && r[|c.baseUrl|] == '/'
  {
    c.baseUrl + EndpointPath(e)
  }

  /** Every endpoint of a client built from `baseUrl` lies below the
      stripped base URL, and below `baseUrl` itself when it has no trailing
      slash. */
  lemma EndpointsBelowBase(apiKey: Option<string>, baseUrl: string, e: Endpoint)
    ensures var c := NewClient(apiKey, baseUrl);
      IsPrefix(c.baseUrl, EndpointUrl(c, e)) && IsPrefix(c.baseUrl, baseUrl)
    ensures baseUrl == [] || baseUrl[|baseUrl| - 1] != '/' ==>
      IsPrefix(baseUrl, EndpointUrl(NewClient(apiKey, baseUrl), e))
  {}

  // ---------------------------------------------------------------------
  // URL builders

  /** Python's truth value of an optional text. */
  predicate Given(s: Option<string>) {
    s.Some? && s.value != []
  }

  /** The query parameters in insertion order; `urlencode` turns them into a
      query string. */
  type Query = seq<(string, string)>

  function Param(key: string, value: Option<string>): (q: Query)
    ensures q == [] <==> !Given(value)
  {
    if Given(value) then [(key, value.value)] else []
  }

  /** A URL with its query string, added only when there are parameters. */
  function WithQuery(url: string, params: Query, urlencode: Query -> string): string {
    if params == [] then url else url + "?" + urlencode(params)
  }

  /** `get_freecad_connect_url`. */
  function ConnectUrl(c: Client, modelId: Option<string>, urlencode: Query -> string): (r: string)
    ensures IsPrefix(EndpointUrl(c, FreecadConnect), r)
    ensures r == EndpointUrl(c, FreecadConnect) <==> !Given(c.apiKey) && !Given(modelId)
    ensures Given(c.apiKey) || Given(modelId) ==>
      r == EndpointUrl(c, FreecadConnect) + "?" + urlencode(Param("apiKey", c.apiKey) + Param("modelId", modelId))
  {
    WithQuery(EndpointUrl(c, FreecadConnect), Param("apiKey", c.apiKey) + Param("modelId", modelId), urlencode)
  }

  /** `get_dashboard_url`: the template filled with the article id, and the
      model id as the only possible parameter. */
  function DashboardUrl(c: Client, articleId: string, modelId: Option<string>, urlencode: Query -> string): (r: string)
    ensures var page := c.baseUrl + "/freecad/" + articleId + "/dashboard";
      && (!Given(modelId) ==> r == page)
      && (Given(modelId) ==> r == page + "?" + urlencode([("modelId", modelId.value)]))
  {
    WithQuery(c.baseUrl + "/freecad/" + articleId + "/dashboard", Param("modelId", modelId), urlencode)
  }

  /** The validation URL `test_connection` and `validate_article` request:
      the article id, then the API key when there is one. */
  function ValidateUrl(c: Client, articleId: string, urlencode: Query -> string): (r: string)
    ensures IsPrefix(EndpointUrl(c, Validate) + "?", r)
    ensures IsPrefix(c.baseUrl, r)
  {
    EndpointUrl(c, Validate) + "?" + urlencode([("articleId", articleId)] + Param("apiKey", c.apiKey))
  }

  // ---------------------------------------------------------------------
  // Retry policy

  /** The outcome of one attempt. */
  datatype Outcome =
    | Response(body: Json)
    | HttpError(code: int, reason: string)
    | NetworkError(reason: string)
    | BadJson(message: string)
    | OtherError(message: string)

  /** A failure that ends the loop at once: a client error below 500, or a
      response that is not JSON. */
  predicate StopsRetrying(o: Outcome) {
    (o.HttpError? && o.code < 500) || o.BadJson?
  }

  /** The message a failed attempt leaves as the last error. */
  function ErrorText(o: Outcome): string
    requires !o.Response?
  {
    match o
    case HttpError(code, reason) => "HTTP " + IntToString(code) + ": " + reason
    case NetworkError(reason) => "Network error: " + reason
    case BadJson(message) => "Invalid JSON response: " + message
    case OtherError(message) => "Request failed: " + message
  }

  /** The number of attempts allowed for a `retries` argument; `None` means
      the client's default. */
  function AttemptBound(retries: Option<int>): (n: nat)
    ensures retries.None? ==> n == 4
    ensures retries.Some? && retries.value >= 0 ==> n == retries.value + 1
  {
    var r := retries.GetOr(MaxRetries);
    if r + 1 < 0 then 0 else r + 1
  }

  /** The waits between attempts: the k-th wait lasts `RetryDelay * (k + 1)`. */
  predicate Backoff(waits: seq<nat>) {
    forall k :: 0 <= k < |waits| ==> waits[k] == RetryDelay * (k + 1)
  }

  /** `_make_request`. `outcome(k)` is what attempt `k` meets; the method
      also returns how many attempts it made and the waits it slept. */
  method MakeRequest(retries: Option<int>, outcome: nat -> Outcome) returns (r: Result<Json, string>, attempts: nat, waits: seq<nat>)
    ensures attempts <= AttemptBound(retries)
    ensures forall k :: 0 <= k < attempts - 1 ==> !outcome(k).Response? && !StopsRetrying(outcome(k))
    ensures r.Ok? <==> attempts > 0 && outcome(attempts - 1).Response?
    ensures r.Ok? ==> r.value == outcome(attempts - 1).body
    ensures r.Err? ==> attempts == AttemptBound(retries) || (attempts > 0 && StopsRetrying(outcome(attempts - 1)))
    ensures r.Err? ==> r.error == "Request failed after " + IntToString(retries.GetOr(MaxRetries) + 1) + " attempts: "
                                  + (if attempts == 0 then "None" else ErrorText(outcome(attempts - 1)))
    ensures |waits| == if attempts == 0 then 0 else attempts - 1
    ensures Backoff(waits)
  {
    var n := retries.GetOr(MaxRetries);
    var lastError := "None";
    attempts := 0;
    waits := [];
    var attempt: nat := 0;
    while attempt < n + 1
      invariant attempts == attempt && attempt <= AttemptBound(retries)
      invariant forall k :: 0 <= k < attempt ==> !outcome(k).Response? && !StopsRetrying(outcome(k))
      invariant attempt == 0 ==> lastError == "None"
      invariant attempt > 0 ==> lastError == ErrorText(outcome(attempt - 1))
      invariant attempt <= n || attempt == 0 ==> |waits| == attempt
      invariant attempt == n + 1 && n >= 0 ==> |waits| == n
      invariant Backoff(waits)
    {
      attempts := attempt + 1;
      var o := outcome(attempt);
      if o.Response? {
        return Ok(o.body), attempts, waits;
      }
      lastError := ErrorText(o);
      if StopsRetrying(o) {
        break;
      }
      if attempt < n {
        waits := waits + [RetryDelay * (attempt + 1)];
      }
      attempt := attempt + 1;
    }
    r := Err("Request failed after " + IntToString(n + 1) + " attempts: " + lastError);
  }

  /** `test_connection`: one retry at most, and any failure is `false`. */
  method TestConnection(outcome: nat -> Outcome) returns (ok: bool, attempts: nat)
    ensures attempts <= 2
    ensures ok <==> exists k :: 0 <= k < attempts && outcome(k).Response?
    ensures outcome(0).Response? ==> ok && attempts == 1
    ensures !ok && !StopsRetrying(outcome(0)) ==> attempts == 2
  {
    var r, waits;
    r, attempts, waits := MakeRequest(Some(1), outcome);
    ok := r.Ok?;
  }

  // ---------------------------------------------------------------------
  // Reading outputs

  /** `extract_output_value` and `extract_output_unit`: field `field` of the
      symbol's entry under `outputs`. `None` is Python's `None` for a
      missing symbol or a missing field; an error is what Python raises on
      a result of the wrong shape. */
  function ExtractOutput(result: map<string, Json>, symbol: string, field: string): (r: Result<Option<Json>, string>)
    ensures "outputs" !in result ==> r == Ok(None)
    ensures "outputs" in result && result["outputs"].JObj? ==>
      var outputs := result["outputs"].fields;
      && (symbol !in outputs ==> r == Ok(None))
      && (symbol in outputs && outputs[symbol].JObj? ==>
            r == Ok(if field in outputs[symbol].fields then Some(outputs[symbol].fields[field]) else None))
      && (symbol in outputs && !outputs[symbol].JObj? ==> r.Err?)
  {
    match Get(result, "outputs", EmptyObject)
    case JObj(outputs) =>
      if symbol !in outputs then Ok(None)
      else (match outputs[symbol]
            case JObj(entry) => Ok(if field in entry then Some(entry[field]) else None)
            case _ => Err("AttributeError: the output entry has no get"))
    case JArr(items) =>
      if JStr(symbol) in items then Err("TypeError: list indices must be integers or slices, not str") else Ok(None)
    case JStr(s) =>
      if Contains(s, symbol) then Err("TypeError: string indices must be integers") else Ok(None)
    case _ => Err("TypeError: the outputs value is not iterable")
  }

  function ExtractOutputValue(result: map<string, Json>, symbol: string): (r: Result<Option<Json>, string>)
    ensures "outputs" !in result ==> r == Ok(None)
    ensures "outputs" in result && result["outputs"].JObj? && symbol !in result["outputs"].fields ==> r == Ok(None)
  {
    ExtractOutput(result, symbol, "value")
  }

  function ExtractOutputUnit(result: map<string, Json>, symbol: string): (r: Result<Option<Json>, string>)
    ensures "outputs" !in result ==> r == Ok(None)
    ensures "outputs" in result && result["outputs"].JObj? && symbol !in result["outputs"].fields ==> r == Ok(None)
  {
    ExtractOutput(result, symbol, "unit")
  }

  /** A well-formed output entry gives back exactly what it stores, and a
      symbol the result does not list gives `None`. */
  lemma ExtractFromOutputs(symbol: string, value: Json, unit: Json, other: string)
    requires other != symbol
    ensures var result := map["outputs" := JObj(map[symbol := JObj(map["value" := value, "unit" := unit])])];
      && ExtractOutputValue(result, symbol) == Ok(Some(value))
      && ExtractOutputUnit(result, symbol) == Ok(Some(unit))
      && ExtractOutputValue(result, other) == Ok(None)
      && ExtractOutputUnit(result, other) == Ok(None)
  {}
}
