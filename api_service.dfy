/**
 * APIService.request: preparing the fetch configuration (method, headers,
 * body) and turning what the transport produced into the value the request
 * resolves with or the message it is rejected with. The transport itself
 * (fetch, the abort timer, reading the body) is an input: an Outcome.
 */
module ApiService {
  import opened JsText
  import opened JsonValues
  import opened ApiUrl
  import opened ApiErrors

  // ---------------------------------------------------------------------------
  // Headers
  // ---------------------------------------------------------------------------

  /** Header names to values; None is a header explicitly set to undefined. */
  type Headers = map<string, Option<string>>

  const DefaultHeaders: Headers := map["Content-Type" := Some("application/json"), "credentials" := Some("include")]

  /** `{...DEFAULT_CONFIG.headers, ...headers}`: the call's headers override the defaults. */
  function MergeHeaders(overrides: Headers): Headers
  {
    DefaultHeaders + overrides
  }

  /** The headers left once every undefined value is deleted. */
  function DefinedHeaders(headers: Headers): (r: Headers)
    ensures forall k :: k in r ==> r[k].Some?
  {
    map k | k in headers && headers[k].Some? :: headers[k]
  }

  /** The loop deleting every header whose value is undefined, in place. */
  method RemoveUndefined(headers: Headers) returns (result: Headers)
    ensures result == DefinedHeaders(headers)
  {
    result := headers;
    var pending := headers.Keys;
    while pending != {}
      invariant pending <= headers.Keys
      invariant forall k :: k in result <==> k in headers && (k in pending || headers[k].Some?)
      invariant forall k :: k in result ==> result[k] == headers[k]
      decreases |pending|
    {
      var k :| k in pending;
      if result[k].None? {
        result := result - {k};
      }
      pending := pending - {k};
    }
  }

  /**
   * What the request sends: a defined header of the call wins; a header the
   * call sets to undefined is not sent at all, even a default one (so the
   * browser can set a multipart Content-Type itself); the other defaults stay.
   */
  lemma FinalHeaders(overrides: Headers, name: string)
    ensures var h := DefinedHeaders(MergeHeaders(overrides));
            && (name in overrides && overrides[name].Some? ==> name in h && h[name] == overrides[name])
            && (name in overrides && overrides[name].None? ==> name !in h)
            && (name !in overrides ==> (name in h <==> name in DefaultHeaders)
                                       && (name in h ==> h[name] == DefaultHeaders[name]))
  {
  }

  // ---------------------------------------------------------------------------
  // Body
  // ---------------------------------------------------------------------------

  /** A plain object or array: the bodies JSON.stringify is meant for. */
  type Composite = v: Json | v.JArr? || v.JObj? witness JArr([])

  /**
   * The body option of a request; the browser-native objects are opaque
   * handles, and an ObjectBody is an object or array literal.
   */
  datatype Body =
    | NullBody
    | UndefinedBody
    | BoolBody(b: bool)
    | NumberBody(n: int)
    | StringBody(s: string)
    | FormDataBody(handle: nat)
    | BlobBody(handle: nat)
    | ArrayBufferBody(handle: nat)
    | SearchParamsBody(handle: nat)
    | ObjectBody(value: Composite)

  predicate BodyTruthy(body: Body)
  {
    match body
    case NullBody => false
    case UndefinedBody => false
    case BoolBody(b) => b
    case NumberBody(n) => n != 0
    case StringBody(s) => s != ""
    case _ => true
  }

  /** The body as a JSON value, for the bodies that are one. */
  function AsJson(body: Body): Option<Json>
  {
    match body
    case NullBody => Some(JNull)
    case BoolBody(b) => Some(JBool(b))
    case NumberBody(n) => Some(JNum(n))
    case StringBody(s) => Some(JStr(s))
    case ObjectBody(v) => Some(v)
    case _ => None
  }

  /**
   * `if (body)`: a body that is a JSON value is truthy exactly as that value
   * is; undefined is falsy and the browser-native objects are truthy.
   */
  lemma BodyTruthyAsJson(body: Body)
    ensures AsJson(body).Some? ==> (BodyTruthy(body) <==> Truthy(AsJson(body).value))
    ensures body.UndefinedBody? ==> !BodyTruthy(body)
    ensures body.FormDataBody? || body.BlobBody? || body.ArrayBufferBody? || body.SearchParamsBody? ==> BodyTruthy(body)
  {
  }

  /** Bodies fetch takes as they are. */
  predicate IsNativeBody(body: Body)
  {
    body.StringBody? || body.FormDataBody? || body.BlobBody? || body.ArrayBufferBody? || body.SearchParamsBody?
  }

  /** What `config.body` becomes; `Serialized(v)` stands for JSON.stringify(v). */
  datatype SentBody = NotSent | Raw(body: Body) | Serialized(value: Json)

  /** The value JSON.stringify receives: a body that is neither native nor falsy. */
  function JsonOf(body: Body): Json
    requires BodyTruthy(body) && !IsNativeBody(body)
  {
    match body
    case BoolBody(b) => JBool(b)
    case NumberBody(n) => JNum(n)
    case ObjectBody(v) => v
  }

  function BodyToSend(httpMethod: string, body: Body): SentBody
  {
    if BodyTruthy(body) && httpMethod != "GET" && httpMethod != "HEAD" then
      if IsNativeBody(body) then Raw(body) else Serialized(JsonOf(body))
    else NotSent
  }

  /**
   * A body is sent exactly when it is truthy and the method is neither GET
   * nor HEAD; native bodies go as they are, any other is serialised.
   */
  lemma BodyRules(httpMethod: string, body: Body)
    ensures BodyToSend(httpMethod, body) != NotSent <==> BodyTruthy(body) && httpMethod != "GET" && httpMethod != "HEAD"
    ensures BodyToSend(httpMethod, body).Raw? ==> BodyToSend(httpMethod, body).body == body && IsNativeBody(body)
    ensures BodyToSend(httpMethod, body).Serialized? ==> !IsNativeBody(body)
    ensures BodyTruthy(body) && httpMethod != "GET" && httpMethod != "HEAD" && !IsNativeBody(body) ==>
              BodyToSend(httpMethod, body) == Serialized(JsonOf(body))
    ensures BodyToSend(httpMethod, body).Serialized? ==>
              AsJson(body) == Some(BodyToSend(httpMethod, body).value) && (body.ObjectBody? || body.BoolBody? || body.NumberBody?)
    ensures body.StringBody? && body.s != "" && httpMethod != "GET" && httpMethod != "HEAD" ==>
              BodyToSend(httpMethod, body) == Raw(body)
    ensures body.ObjectBody? && httpMethod != "GET" && httpMethod != "HEAD" ==>
              BodyToSend(httpMethod, body) == Serialized(body.value)
  {
  }

  // ---------------------------------------------------------------------------
  // The configuration handed to fetch
  // ---------------------------------------------------------------------------

  /**
   * The customConfig keys the configuration depends on: None is a key that
   * customConfig does not set. Its method, headers and signal are always
   * overwritten by request, so they are not kept here.
   */
  datatype CustomConfig = CustomConfig(credentials: Option<string>, body: Option<Body>)

  datatype Options = Options(
    params: seq<(string, Scalar)>,
    query: seq<(string, QueryValue)>,
    body: Body,
    headers: Headers,
    custom: CustomConfig)

  datatype Config = Config(httpMethod: string, credentials: string, headers: Headers, body: SentBody)

  /** `{...DEFAULT_CONFIG, ...customConfig}.credentials` */
  function Credentials(custom: CustomConfig): string
  {
    if custom.credentials.Some? then custom.credentials.value else "include"
  }

  /**
   * `config.body` after the spread and the body step: the request's own body
   * when that step attaches one, otherwise whatever customConfig put there
   * (an undefined one is no body).
   */
  function ConfigBody(httpMethod: string, body: Body, custom: CustomConfig): SentBody
  {
    var own := BodyToSend(httpMethod, body);
    if own == NotSent && custom.body.Some? && custom.body.value != UndefinedBody then Raw(custom.body.value)
    else own
  }

  /**
   * customConfig's credentials replace the default 'include'; its body is
   * kept exactly when the request's own body is not attached, and then as it
   * is, unserialised, even on a GET or HEAD.
   */
  lemma CustomConfigRules(httpMethod: string, body: Body, custom: CustomConfig)
    ensures custom.credentials.None? ==> Credentials(custom) == "include"
    ensures custom.credentials.Some? ==> Credentials(custom) == custom.credentials.value
    ensures BodyToSend(httpMethod, body) != NotSent ==> ConfigBody(httpMethod, body, custom) == BodyToSend(httpMethod, body)
    ensures custom.body.None? ==> ConfigBody(httpMethod, body, custom) == BodyToSend(httpMethod, body)
    ensures (httpMethod == "GET" || httpMethod == "HEAD") && custom.body.Some? && custom.body.value != UndefinedBody ==>
              ConfigBody(httpMethod, body, custom) == Raw(custom.body.value)
  {
  }

  /**
   * The first half of request: the URL, then the configuration, with the
   * undefined headers deleted from the merged ones.
   */
  method Prepare(httpMethod: string, endpoint: string, options: Options, registry: Registry, baseURL: string)
    returns (url: string, config: Config)
    ensures url == Url(endpoint, options.params, options.query, registry, baseURL)
    ensures config.httpMethod == ToUpper(httpMethod)
    ensures config.credentials == Credentials(options.custom)
    ensures config.headers == DefinedHeaders(MergeHeaders(options.headers))
    ensures config.body == ConfigBody(ToUpper(httpMethod), options.body, options.custom)
  {
    var unreplaced;
    url, unreplaced := BuildURL(endpoint, options.params, options.query, registry, baseURL);
    var upper := ToUpper(httpMethod);
    var headers := RemoveUndefined(MergeHeaders(options.headers));
    var sent := if options.custom.body.Some? && options.custom.body.value != UndefinedBody then Raw(options.custom.body.value) else NotSent;
    if BodyTruthy(options.body) && upper != "GET" && upper != "HEAD" {
      sent := BodyToSend(upper, options.body);
    }
    config := Config(upper, Credentials(options.custom), headers, sent);
  }

  /** A GET or HEAD request never carries a body, whatever the case of its method. */
  lemma NoBodyOnGetOrHead(httpMethod: string, body: Body)
    requires ToUpper(httpMethod) == "GET" || ToUpper(httpMethod) == "HEAD"
    ensures BodyToSend(ToUpper(httpMethod), body) == NotSent
  {
  }

  // ---------------------------------------------------------------------------
  // The response
  // ---------------------------------------------------------------------------

  /** What response.json() gives: a value, or the SyntaxError it throws. */
  datatype JsonParse = Parsed(value: Json) | Unparseable(message: string)

  /** A response body read as text and as JSON. */
  datatype Payload = Payload(text: string, json: JsonParse)

  /** What fetch produced: a response, an abort by the timer, or a thrown value. */
  datatype Outcome =
    | Completed(status: int, contentType: Option<string>, payload: Payload)
    | Aborted
    | Threw(error: Thrown)

  /** What the request resolves with. */
  datatype Value = NullValue | JsonValue(json: Json) | TextValue(text: string)

  datatype Settled = Fulfilled(value: Value) | Rejected(message: string)

  predicate IsOk(status: int) { 200 <= status <= 299 }

  /** A present, non-empty content type that mentions application/json. */
  predicate IsJsonContent(contentType: Option<string>)
  {
    contentType.Some? && contentType.value != "" && Includes(contentType.value, "application/json")
  }

  /** The body, read as the content type says. */
  function ReadBody(contentType: Option<string>, payload: Payload): Settled
  {
    if IsJsonContent(contentType) then
      match payload.json
      case Parsed(v) => Fulfilled(JsonValue(v))
      case Unparseable(message) => Rejected(Reclassify(Thrown(ErrorObject, "SyntaxError", message)))
    else Fulfilled(TextValue(payload.text))
  }

  /**
   * The second half of request, catch block included: every rejection
   * carries one of the fourteen fixed messages.
   */
  function Respond(outcome: Outcome): (r: Settled)
    ensures r.Rejected? ==> r.message in AllMessages
  {
    match outcome
    case Aborted => Rejected(Reclassify(Thrown(ErrorObject, "AbortError", "")))
    case Threw(e) => Rejected(Reclassify(e))
    case Completed(status, contentType, payload) =>
      if !IsOk(status) then Rejected(Reclassify(Thrown(ErrorObject, "Error", UserFriendlyMessage(status))))
      else if status == 204 then Fulfilled(NullValue)
      else ReadBody(contentType, payload)
  }

  /** A response outside 200..299 is rejected with its status message, whatever its body. */
  lemma NonOkRejected(status: int, contentType: Option<string>, payload: Payload)
    requires !IsOk(status)
    ensures Respond(Completed(status, contentType, payload)) == Rejected(UserFriendlyMessage(status))
  {
    ReclassifyKeepsStatusMessage(status);
  }

  /** A successful response: 204 is null, JSON content is parsed, anything else is text. */
  lemma OkDispatch(status: int, contentType: Option<string>, payload: Payload)
    requires IsOk(status)
    ensures status == 204 ==> Respond(Completed(status, contentType, payload)) == Fulfilled(NullValue)
    ensures status != 204 && IsJsonContent(contentType) && payload.json.Parsed? ==>
              Respond(Completed(status, contentType, payload)) == Fulfilled(JsonValue(payload.json.value))
    ensures status != 204 && !IsJsonContent(contentType) ==>
              Respond(Completed(status, contentType, payload)) == Fulfilled(TextValue(payload.text))
  {
  }

  /** An abort by the timer is reported as a timeout. */
  lemma AbortIsTimeout()
    ensures Respond(Aborted) == Rejected(TimeoutMessage)
  {
  }

  /** A request settles with a value exactly when a 2xx response was read successfully. */
  lemma FulfilledIff(outcome: Outcome)
    ensures Respond(outcome).Fulfilled? <==>
              outcome.Completed? && IsOk(outcome.status)
              && (outcome.status == 204 || !IsJsonContent(outcome.contentType) || outcome.payload.json.Parsed?)
  {
  }

  /**
   * request: the prepared URL and configuration, and how it settles for the
   * transport's outcome.
   */
  method Request(httpMethod: string, endpoint: string, options: Options, registry: Registry, baseURL: string,
                 outcome: Outcome)
    returns (url: string, config: Config, result: Settled)
    ensures url == Url(endpoint, options.params, options.query, registry, baseURL)
    ensures config.httpMethod == ToUpper(httpMethod)
    ensures config.credentials == Credentials(options.custom)
    ensures config.headers == DefinedHeaders(MergeHeaders(options.headers))
    ensures config.body == ConfigBody(ToUpper(httpMethod), options.body, options.custom)
    ensures result == Respond(outcome)
    ensures result.Rejected? ==> result.message in AllMessages
  {
    url, config := Prepare(httpMethod, endpoint, options, registry, baseURL);
    result := Respond(outcome);
  }

  // ---------------------------------------------------------------------------
  // Shortcuts and the action verb
  // ---------------------------------------------------------------------------

  method Get(endpoint: string, options: Options, registry: Registry, baseURL: string, outcome: Outcome)
    returns (url: string, config: Config, result: Settled)
    ensures config.httpMethod == "GET" && config.body == ConfigBody("GET", options.body, options.custom)
    ensures options.custom.body.None? ==> config.body == NotSent
    ensures result == Respond(outcome)
  {
    UpperGet();
    url, config, result := Request("GET", endpoint, options, registry, baseURL, outcome);
  }

  method Post(endpoint: string, body: Body, options: Options, registry: Registry, baseURL: string, outcome: Outcome)
    returns (url: string, config: Config, result: Settled)
    ensures config.httpMethod == "POST" && config.body == ConfigBody("POST", body, options.custom)
    ensures options.custom.body.None? ==> config.body == BodyToSend("POST", body)
    ensures result == Respond(outcome)
  {
    UpperPost();
    url, config, result := Request("POST", endpoint, options.(body := body), registry, baseURL, outcome);
  }

  method Put(endpoint: string, body: Body, options: Options, registry: Registry, baseURL: string, outcome: Outcome)
    returns (url: string, config: Config, result: Settled)
    ensures config.httpMethod == "PUT" && config.body == ConfigBody("PUT", body, options.custom)
    ensures options.custom.body.None? ==> config.body == BodyToSend("PUT", body)
    ensures result == Respond(outcome)
  {
    UpperPut();
    url, config, result := Request("PUT", endpoint, options.(body := body), registry, baseURL, outcome);
  }

  method Patch(endpoint: string, body: Body, options: Options, registry: Registry, baseURL: string, outcome: Outcome)
    returns (url: string, config: Config, result: Settled)
    ensures config.httpMethod == "PATCH" && config.body == ConfigBody("PATCH", body, options.custom)
    ensures options.custom.body.None? ==> config.body == BodyToSend("PATCH", body)
    ensures result == Respond(outcome)
  {
    UpperPatch();
    url, config, result := Request("PATCH", endpoint, options.(body := body), registry, baseURL, outcome);
  }

  /** DELETE passes its options' body along, which a truthy body makes the request carry. */
  method Delete(endpoint: string, options: Options, registry: Registry, baseURL: string, outcome: Outcome)
    returns (url: string, config: Config, result: Settled)
    ensures config.httpMethod == "DELETE" && config.body == ConfigBody("DELETE", options.body, options.custom)
    ensures options.custom.body.None? ==> config.body == BodyToSend("DELETE", options.body)
    ensures result == Respond(outcome)
  {
    UpperDelete();
    url, config, result := Request("DELETE", endpoint, options, registry, baseURL, outcome);
  }

  // The shortcuts pass upper-case method names, which ToUpper leaves as they are.

  lemma UpperGet()
    ensures ToUpper("GET") == "GET"
  {
    UpperOfUpper("GET");
  }

  lemma UpperPost()
    ensures ToUpper("POST") == "POST"
  {
    UpperOfUpper("POST");
  }

  lemma UpperPut()
    ensures ToUpper("PUT") == "PUT"
  {
    UpperOfUpper("PUT");
  }

  lemma UpperPatch()
    ensures ToUpper("PATCH") == "PATCH"
  {
    UpperOfUpper("PATCH");
  }

  lemma UpperDelete()
    ensures ToUpper("DELETE") == "DELETE"
  {
    UpperOfUpper("DELETE");
  }

  /** getActionVerb: the verb for a method, in any case. */
  function ActionVerb(httpMethod: string): string
  {
    match ToUpper(httpMethod)
    case "GET" => "fetch"
    case "POST" => "create"
    case "PUT" => "update"
    case "PATCH" => "update"
    case "DELETE" => "delete"
    case _ => "process"
  }

  /** The verb only depends on the method up to case. */
  lemma ActionVerbIgnoresCase(m1: string, m2: string)
    requires ToUpper(m1) == ToUpper(m2)
    ensures ActionVerb(m1) == ActionVerb(m2)
  {
  }
}
