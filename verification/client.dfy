/** The API client of src/Client.php: its fixed configuration, how one
    request is shaped, how the response is classified into a success
    envelope or a typed error, and the claim set of the single sign-on
    token. The HTTP transport, JSON decoding and the clock are parameters. */
module ApiClient {
  import opened Results
  import opened Text
  import opened JsonValues
  import opened Errors

  const ApiBase: string := "https://api.invoiced.com"
  const ApiBaseSandbox: string := "https://api.sandbox.invoiced.com"
  const Version: string := "1.3.0"
  const UserAgent: string := "Invoiced PHP/" + Version
  const ConnectTimeout: nat := 30
  const ReadTimeout: nat := 60

  const MissingApiKeyMessage: string := "You must provide an API Key"
  const MissingSsoKeyMessage: string := "Please provide a single sign-on key! You can find this value in Settings > Developers > Single Sign-On of the Invoiced application."
  const ConnectionMessage: string := "There was an error connecting to the Invoiced API. Please check your internet connection or status.invoiced.com for service outages. The reason was: "

  /** The client's configuration; `ssoKey` is None when no key was given. */
  datatype Client = Client(apiKey: string, sandbox: bool, ssoKey: Option<string>)

  /** Builds a client; an empty API key (PHP `empty()`) is refused. */
  function NewClient(apiKey: string, sandbox: bool, ssoKey: Option<string>): (r: Result<Client, Error>)
    ensures r.Failure? <==> EmptyString(apiKey)
    ensures r.Failure? ==> r.error.kind == InvalidArgument
    ensures r.Success? ==> r.value.apiKey == apiKey && r.value.sandbox == sandbox && r.value.ssoKey == ssoKey
  {
    if EmptyString(apiKey) then Failure(LocalError(InvalidArgument, MissingApiKeyMessage))
    else Success(Client(apiKey, sandbox, ssoKey))
  }

  function ApiKey(c: Client): string {
    c.apiKey
  }

  /** The key a client was built with is the key it reports. */
  lemma ApiKeyRoundTrip(apiKey: string, sandbox: bool, ssoKey: Option<string>)
    requires !EmptyString(apiKey)
    ensures NewClient(apiKey, sandbox, ssoKey).Success?
    ensures ApiKey(NewClient(apiKey, sandbox, ssoKey).value) == apiKey
  {
  }

  /** The base URL: the sandbox one exactly when the sandbox flag is set. */
  function Endpoint(c: Client): (r: string)
    ensures r == ApiBaseSandbox <==> c.sandbox
    ensures r == ApiBase <==> !c.sandbox
  {
    if c.sandbox then ApiBaseSandbox else ApiBase
  }

  // ---------------------------------------------------------------------
  // Shaping one request

  /** What the library hands to the transport for one call. `json` is None
      when no request body is set. */
  datatype RequestPlan = RequestPlan(
    baseUri: string,
    httpMethod: string,
    path: string,
    auth: (string, string),
    headers: map<string, Json>,
    query: map<string, Json>,
    json: Option<map<string, Json>>,
    connectTimeout: nat,
    readTimeout: nat)

  /** The request headers: content type and user agent always, and an
      idempotency key exactly when the option is present and truthy. */
  function BuildHeaders(opts: map<string, Json>): (r: map<string, Json>)
    ensures "Content-Type" in r && r["Content-Type"] == JString("application/json")
    ensures "User-Agent" in r && r["User-Agent"] == JString(UserAgent)
    ensures "Idempotency-Key" in r <==> "idempotency_key" in opts && Truthy(opts["idempotency_key"])
    ensures "Idempotency-Key" in r ==> r["Idempotency-Key"] == opts["idempotency_key"]
    ensures r.Keys <= {"Content-Type", "User-Agent", "Idempotency-Key"}
  {
    var headers := map["Content-Type" := JString("application/json"), "User-Agent" := JString(UserAgent)];
    if "idempotency_key" in opts && opts["idempotency_key"] != JNull && Truthy(opts["idempotency_key"]) then
      headers["Idempotency-Key" := opts["idempotency_key"]]
    else
      headers
  }

  /** Methods without a request body, compared after lowering. */
  predicate Bodyless(loweredMethod: string) {
    loweredMethod == "get" || loweredMethod == "delete"
  }

  /** Shapes a request: GET and DELETE (in any letter case) put the
      parameters in the query string, every other method sends them as the
      JSON body with an empty query. */
  function BuildRequest(c: Client, httpMethod: string, path: string, params: map<string, Json>, opts: map<string, Json>): (r: RequestPlan)
    ensures r.httpMethod == Lower(httpMethod)
    ensures r.baseUri == Endpoint(c) && r.path == path
    ensures r.auth == (c.apiKey, "")
    ensures r.headers == BuildHeaders(opts)
    ensures Bodyless(Lower(httpMethod)) ==> r.query == params && r.json == None
    ensures !Bodyless(Lower(httpMethod)) ==> r.query == map[] && r.json == Some(params)
    ensures r.connectTimeout == 30 && r.readTimeout == 60
  {
    var m := Lower(httpMethod);
    var plan := RequestPlan(Endpoint(c), m, path, (c.apiKey, ""), BuildHeaders(opts), map[], None, ConnectTimeout, ReadTimeout);
    if Bodyless(m) then plan.(query := plan.query + params) else plan.(json := Some(params))
  }

  /** The method is case-insensitive: two spellings of one method shape
      the same request. */
  lemma MethodCaseInsensitive(c: Client, m1: string, m2: string, path: string, params: map<string, Json>, opts: map<string, Json>)
    requires Lower(m1) == Lower(m2)
    ensures BuildRequest(c, m1, path, params, opts) == BuildRequest(c, m2, path, params, opts)
  {
  }

  /** "GET", "Get" and "get" all carry the parameters in the query. */
  lemma UpperCaseGetIsBodyless(c: Client, path: string, params: map<string, Json>, opts: map<string, Json>)
    ensures BuildRequest(c, "GET", path, params, opts).query == params
    ensures BuildRequest(c, "GET", path, params, opts).json == None
    ensures BuildRequest(c, "Get", path, params, opts) == BuildRequest(c, "get", path, params, opts)
  {
    assert Lower("GET") == "get";
    assert Lower("Get") == "get";
  }

  // ---------------------------------------------------------------------
  // Classifying the response

  /** What the transport gives back: a response, or a connection-level
      failure with its reason. */
  datatype TransportOutcome =
    | ConnectionFailure(reason: string)
    | Response(code: int, headers: map<string, seq<string>>, body: string)

  /** The success envelope: status code, flattened headers and decoded body
      (JNull for 204). */
  datatype Envelope = Envelope(code: int, headers: map<string, string>, body: Json)

  /** `null === json_decode(...)`: the decoder failed or decoded JSON null. */
  predicate Undecodable(d: Option<Json>) {
    d.None? || d.value == JNull
  }

  predicate SuccessStatus(code: int) {
    200 <= code < 400
  }

  /** Each header name maps to its values joined by ", ". */
  function FlattenHeaders(headers: map<string, seq<string>>): (r: map<string, string>)
    ensures r.Keys == headers.Keys
    ensures forall k | k in r :: r[k] == Join(headers[k], ", ")
    ensures forall k | k in r && |headers[k]| == 1 :: r[k] == headers[k][0]
  {
    map k | k in headers :: Join(headers[k], ", ")
  }

  /** `$error['message']`: the "message" member of a decoded JSON object,
      and null for anything else. */
  function MessageOf(error: Json): Json {
    if error.JObject? && "message" in error.fields then error.fields["message"] else JNull
  }

  /** The generic API error for an error status the table does not name or
      an error body that did not decode. */
  function GeneralApiError(code: int, body: string): (e: Error)
    ensures e.kind == ApiError && e.code == code && e.body == None
    ensures e.message.JString? && Interpolates(e.message.s, "API Error ", code, " - ", body)
  {
    InterpolationReadsBack("API Error ", code, " - ", body);
    Error(ApiError, JString("API Error " + IntToString(code) + " - " + body), code, None)
  }

  /** The error for a 2xx/3xx response (other than 204) whose body did not
      decode: an ApiError whose message names the code and ends with the raw
      body. */
  function DecodeFailureError(code: int, body: string): (e: Error)
    ensures e.kind == ApiError && e.code == code && e.body == None
    ensures e.message.JString? && Interpolates(e.message.s, "Could not decode JSON of ", code, " response: ", body)
  {
    InterpolationReadsBack("Could not decode JSON of ", code, " response: ", body);
    Error(ApiError, JString("Could not decode JSON of " + IntToString(code) + " response: " + body), code, None)
  }

  /** The error-status dispatch table, as a table. */
  const DispatchTable: map<int, ErrorKind> := map[
    401 := AuthenticationError,
    400 := InvalidRequest, 403 := InvalidRequest, 404 := InvalidRequest,
    429 := RateLimitError,
    500 := ApiError]

  /** Classifies one response. 2xx/3xx: 204 yields a null body without
      decoding, any other code needs a decodable body. Every other code
      is an error: the generic API error when the body does not decode,
      else the kind the dispatch table names, carrying the body's message,
      the code and the body; codes outside the table get the generic
      error. */
  function Classify(code: int, headers: map<string, seq<string>>, body: string, decode: string -> Option<Json>): (r: Result<Envelope, Error>)
    ensures SuccessStatus(code) && code == 204 ==> r == Success(Envelope(code, FlattenHeaders(headers), JNull))
    ensures SuccessStatus(code) && code != 204 && !Undecodable(decode(body)) ==>
              r == Success(Envelope(code, FlattenHeaders(headers), decode(body).value))
    ensures SuccessStatus(code) && code != 204 && Undecodable(decode(body)) ==>
              r == Failure(DecodeFailureError(code, body))
    ensures !SuccessStatus(code) && Undecodable(decode(body)) ==> r == Failure(GeneralApiError(code, body))
    ensures !SuccessStatus(code) && !Undecodable(decode(body)) && code in DispatchTable ==>
              var e := decode(body).value;
              r == Failure(Error(DispatchTable[code], MessageOf(e), code, Some(e)))
    ensures !SuccessStatus(code) && code !in DispatchTable ==> r == Failure(GeneralApiError(code, body))
  {
    if 200 <= code && code < 400 then
      if code != 204 then
        var parsed := decode(body);
        if Undecodable(parsed) then
          Failure(DecodeFailureError(code, body))
        else
          Success(Envelope(code, FlattenHeaders(headers), parsed.value))
      else
        Success(Envelope(code, FlattenHeaders(headers), JNull))
    else
      var parsed := decode(body);
      if Undecodable(parsed) then Failure(GeneralApiError(code, body))
      else
        var error := parsed.value;
        if code == 401 then Failure(Error(AuthenticationError, MessageOf(error), code, Some(error)))
        else if code in [400, 403, 404] then Failure(Error(InvalidRequest, MessageOf(error), code, Some(error)))
        else if code == 429 then Failure(Error(RateLimitError, MessageOf(error), code, Some(error)))
        else if code == 500 then Failure(Error(ApiError, MessageOf(error), code, Some(error)))
        else Failure(GeneralApiError(code, body))
  }

  /** A response is a success exactly when its status is 2xx/3xx and it is
      either a 204 or carries a decodable body; a success body is null
      exactly for 204; every error carries the response's status and is an
      API error. */
  lemma ClassifySuccessIff(code: int, headers: map<string, seq<string>>, body: string, decode: string -> Option<Json>)
    ensures Classify(code, headers, body, decode).Success? <==>
              SuccessStatus(code) && (code == 204 || !Undecodable(decode(body)))
    ensures Classify(code, headers, body, decode).Success? ==>
              (Classify(code, headers, body, decode).value.body == JNull <==> code == 204)
    ensures Classify(code, headers, body, decode).Failure? ==>
              Classify(code, headers, body, decode).error.code == code &&
              FromApi(Classify(code, headers, body, decode).error.kind)
  {
  }

  /** The typed kinds (authentication, invalid request, rate limit) arise
      only from a decodable body under the status the table assigns them. */
  lemma TypedErrorsNeedDecodedBody(code: int, headers: map<string, seq<string>>, body: string, decode: string -> Option<Json>)
    ensures var r := Classify(code, headers, body, decode);
            r.Failure? && r.error.kind in {AuthenticationError, InvalidRequest, RateLimitError} ==>
              !Undecodable(decode(body)) && code in DispatchTable && DispatchTable[code] == r.error.kind &&
              r.error.body == decode(body)
  {
  }

  /** One logical request: shape it, hand it to the transport, classify
      what comes back. A transport failure becomes a connection error with
      code 0 whose message ends with the reason. */
  function Request(c: Client, httpMethod: string, path: string, params: map<string, Json>, opts: map<string, Json>,
                   transport: RequestPlan -> TransportOutcome, decode: string -> Option<Json>): (r: Result<Envelope, Error>)
    ensures var outcome := transport(BuildRequest(c, httpMethod, path, params, opts));
            && (outcome.ConnectionFailure? ==>
                  r.Failure? && r.error.kind == ConnectionError && r.error.code == 0 && r.error.body == None &&
                  r.error.message.JString? && |r.error.message.s| > |outcome.reason| &&
                  r.error.message.s[|r.error.message.s| - |outcome.reason|..] == outcome.reason)
            && (outcome.Response? ==> r == Classify(outcome.code, outcome.headers, outcome.body, decode))
  {
    match transport(BuildRequest(c, httpMethod, path, params, opts))
    case ConnectionFailure(reason) => Failure(Error(ConnectionError, JString(ConnectionMessage + reason), 0, None))
    case Response(code, headers, body) => Classify(code, headers, body, decode)
  }

  // ---------------------------------------------------------------------
  // Single sign-on

  /** The claim set that gets signed into the sign-in token. */
  datatype Claims = Claims(iss: string, sub: int, iat: int, exp: int)

  predicate HasSsoKey(c: Client) {
    c.ssoKey.Some? && !EmptyString(c.ssoKey.value)
  }

  /** The claims of the sign-in token at clock reading `now`; refused when
      the client has no (truthy) single sign-on key. */
  function SignInClaims(c: Client, customerId: int, ttl: int, now: int): (r: Result<Claims, Error>)
    ensures r.Failure? <==> !HasSsoKey(c)
    ensures r.Failure? ==> r.error.kind == InvalidArgument && r.error.code == 0
    ensures r.Success? ==> r.value.iss == UserAgent && r.value.sub == customerId &&
                           r.value.iat == now && r.value.exp - r.value.iat == ttl
  {
    if !HasSsoKey(c) then Failure(LocalError(InvalidArgument, MissingSsoKeyMessage))
    else Success(Claims(UserAgent, customerId, now, now + ttl))
  }
}
