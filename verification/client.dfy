/**
 * The request pipeline of `client.Client`: construction with options, the
 * request every call sends (URL, body, four headers, signature), and the
 * normalisation of the response into a decoded target, an `APIError`, or a
 * decode error. The network is a parameter: it maps the configured HTTP
 * client and a request to what happened on the wire.
 */
module Client {
  import opened Wrappers
  import opened GoStrings
  import opened Json
  import opened Platform
  import opened GoDecode
  import opened Errors
  import Codec
  import Signer

  const BaseUrl: Bytes := Ascii("https://api.accessgrid.com")

  /** 30 seconds, in nanoseconds as `time.Duration` counts. */
  const DefaultTimeout: int := 30_000_000_000

  const UserAgent: Bytes := Ascii("accessgrid.go @ v") + Version

  /** The `*http.Client` a client sends with; only its timeout is modelled. */
  datatype HttpClient = HttpClient(timeout: int)

  datatype Client = Client(accountId: Bytes, secretKey: Bytes, baseUrl: Bytes, http: HttpClient)

  /** The two `Option` closures the package offers. */
  datatype ClientOption = WithBaseUrl(url: Bytes) | WithHttpClient(client: HttpClient)

  function ApplyOption(c: Client, o: ClientOption): Client {
    match o
    case WithBaseUrl(url) => c.(baseUrl := url)
    case WithHttpClient(h) => c.(http := h)
  }

  /** The options applied one after the other, first to last. */
  function ApplyOptions(c: Client, opts: seq<ClientOption>): Client
    decreases |opts|
  {
    if |opts| == 0 then c else ApplyOptions(ApplyOption(c, opts[0]), opts[1..])
  }

  /** The base URL of the last `WithBaseURL` option, if any. */
  function LastBaseUrl(opts: seq<ClientOption>): Option<Bytes>
    decreases |opts|
  {
    if |opts| == 0 then None
    else
      match LastBaseUrl(opts[1..])
      case Some(url) => Some(url)
      case None => if opts[0].WithBaseUrl? then Some(opts[0].url) else None
  }

  /** The HTTP client of the last `WithHTTPClient` option, if any. */
  function LastHttpClient(opts: seq<ClientOption>): Option<HttpClient>
    decreases |opts|
  {
    if |opts| == 0 then None
    else
      match LastHttpClient(opts[1..])
      case Some(h) => Some(h)
      case None => if opts[0].WithHttpClient? then Some(opts[0].client) else None
  }

  /** Applying options in order: the last option of each kind wins, and the credentials are never touched. */
  lemma {:induction false} ApplyOptionsLastWins(c: Client, opts: seq<ClientOption>)
    ensures ApplyOptions(c, opts).baseUrl == LastBaseUrl(opts).GetOr(c.baseUrl)
    ensures ApplyOptions(c, opts).http == LastHttpClient(opts).GetOr(c.http)
    ensures ApplyOptions(c, opts).accountId == c.accountId
    ensures ApplyOptions(c, opts).secretKey == c.secretKey
    decreases |opts|
  {
    if |opts| > 0 {
      ApplyOptionsLastWins(ApplyOption(c, opts[0]), opts[1..]);
    }
  }

  /**
   * `NewClient`: an empty account id is refused first, then an empty secret
   * key; otherwise the client starts from the defaults and the options are
   * applied in order.
   */
  function NewClient(accountId: Bytes, secretKey: Bytes, opts: seq<ClientOption>): (r: Result<Client, Error>)
    ensures accountId == [] ==> r == Failure(Text(Ascii("accountID is required")))
    ensures accountId != [] && secretKey == [] ==> r == Failure(Text(Ascii("secretKey is required")))
    ensures accountId != [] && secretKey != [] ==>
      r == Success(Client(accountId, secretKey, LastBaseUrl(opts).GetOr(BaseUrl),
                          LastHttpClient(opts).GetOr(HttpClient(DefaultTimeout))))
  {
    if accountId == [] then Failure(Text(Ascii("accountID is required")))
    else if secretKey == [] then Failure(Text(Ascii("secretKey is required")))
    else
      var c := Client(accountId, secretKey, BaseUrl, HttpClient(DefaultTimeout));
      ApplyOptionsLastWins(c, opts);
      Success(ApplyOptions(c, opts))
  }

  // ---------------------------------------------------------------------
  // The outgoing request.
  // ---------------------------------------------------------------------

  datatype HttpMethod = Get | Post | Patch | Put | Delete

  /** A header line; `http.Header.Set` stores names in canonical form (`X-Acct-Id`). */
  datatype Header = Header(name: Bytes, value: Bytes)

  /** `http.Header.Get`: header names are compared without regard to case. */
  function HeaderGet(hs: seq<Header>, name: Bytes): Option<Bytes>
    decreases |hs|
  {
    if |hs| == 0 then None
    else if FoldEq(hs[0].name, name) then Some(hs[0].value)
    else HeaderGet(hs[1..], name)
  }

  /** The four headers of every request, names in the canonical form `Header.Set` stores. */
  function Headers(accountId: Bytes, signature: Bytes): seq<Header> {
    [ Header(Ascii("Content-Type"), Ascii("application/json")),
      Header(Ascii("X-Acct-Id"), accountId),
      Header(Ascii("User-Agent"), UserAgent),
      Header(Ascii("X-Payload-Sig"), signature) ]
  }

  lemma HeadersLookup(accountId: Bytes, signature: Bytes)
    ensures HeaderGet(Headers(accountId, signature), Ascii("Content-Type")) == Some(Ascii("application/json"))
    ensures HeaderGet(Headers(accountId, signature), Ascii("X-ACCT-ID")) == Some(accountId)
    ensures HeaderGet(Headers(accountId, signature), Ascii("User-Agent")) == Some(UserAgent)
    ensures HeaderGet(Headers(accountId, signature), Ascii("X-PAYLOAD-SIG")) == Some(signature)
  {
    var hs := Headers(accountId, signature);
    var ct, acct, ua, sig := Ascii("Content-Type"), Ascii("X-ACCT-ID"), Ascii("User-Agent"), Ascii("X-PAYLOAD-SIG");
    assert |ct| == 12 && |acct| == 9 && |ua| == 10 && |sig| == 13;
    assert |hs[1].name| == 9 && |hs[2].name| == 10 && |hs[3].name| == 13;
    assert FoldEq(hs[0].name, ct);
    assert FoldEq(hs[1].name, acct);
    assert FoldEq(hs[2].name, ua);
    assert FoldEq(hs[3].name, sig);
    assert HeaderGet(hs, ct) == Some(Ascii("application/json"));
    assert HeaderGet(hs, acct) == HeaderGet(hs[1..], acct);
    assert HeaderGet(hs, ua) == HeaderGet(hs[1..], ua) == HeaderGet(hs[2..], ua);
    assert HeaderGet(hs, sig) == HeaderGet(hs[1..], sig) == HeaderGet(hs[2..], sig) == HeaderGet(hs[3..], sig);
  }

  /** The `body` argument of `Request`: a nil interface, or a value that marshals to `json`. */
  datatype Payload = NilBody | Body(json: Json)

  datatype HttpRequest = HttpRequest(verb: HttpMethod, url: Bytes, headers: seq<Header>, body: Bytes)

  /** One call of `Request`: method, path, body, and the type of the result target (`None` for a nil target). */
  datatype Call = Call(verb: HttpMethod, path: Bytes, payload: Payload, target: Option<GoType>)

  /** The marshalled body; `None` is the nil slice left when the body is nil. */
  function RequestBody(p: Platform, payload: Payload): Option<Bytes> {
    match payload
    case NilBody => None
    case Body(j) => Some(Codec.Marshal(p, j))
  }

  /**
   * The request `Request` builds: base URL followed by the path, the
   * marshalled body (empty for a nil body), and exactly four headers, the
   * last a signature of the body. A URL that does not parse stops the call.
   */
  function BuildRequest(p: Platform, c: Client, call: Call): (r: Result<HttpRequest, Error>)
    ensures r.Failure? <==> !p.parsesAsUrl(c.baseUrl + call.path)
    ensures r.Failure? ==> r.error == Wrap("error creating request", Foreign)
    ensures r.Success? ==>
      && r.value.verb == call.verb
      && r.value.url == c.baseUrl + call.path
      && r.value.body == RequestBody(p, call.payload).GetOr([])
      && |r.value.headers| == 4
      && HeaderGet(r.value.headers, Ascii("Content-Type")) == Some(Ascii("application/json"))
      && HeaderGet(r.value.headers, Ascii("X-ACCT-ID")) == Some(c.accountId)
      && HeaderGet(r.value.headers, Ascii("User-Agent")) == Some(UserAgent)
      && HeaderGet(r.value.headers, Ascii("X-PAYLOAD-SIG")) == Some(Signer.Sign(p, c.secretKey, RequestBody(p, call.payload)))
  {
    var url := c.baseUrl + call.path;
    if !p.parsesAsUrl(url) then Failure(Wrap("error creating request", Foreign))
    else
      var body := RequestBody(p, call.payload);
      var headers := Headers(c.accountId, Signer.Sign(p, c.secretKey, body));
      HeadersLookup(c.accountId, Signer.Sign(p, c.secretKey, body));
      Success(HttpRequest(call.verb, url, headers, body.GetOr([])))
  }

  // ---------------------------------------------------------------------
  // The response.
  // ---------------------------------------------------------------------

  /** What the client reads back: the status, the `X-Request-ID` header (empty when absent), and the body. */
  datatype Response = Response(status: int, requestIdHeader: Bytes, body: Bytes)

  /** The outcome of sending a request: `Do` failed, reading the body failed, or a full response. */
  datatype Exchange = SendFailed | ReadFailed | Received(response: Response)

  type Network = (HttpClient, HttpRequest) -> Exchange

  /** The fields of an error body the client looks at. */
  datatype ErrorBody = ErrorBody(message: Bytes, error: Bytes, requestId: Bytes)

  const MessageKey: Bytes := Ascii("message")
  const ErrorKey: Bytes := Ascii("error")
  const RequestIdKey: Bytes := Ascii("request_id")

  /** The anonymous struct `Request` decodes an error body into. */
  const ErrorBodyType: GoType := StructT([Field(MessageKey, StringT), Field(ErrorKey, StringT), Field(RequestIdKey, StringT)])

  /**
   * What an error body says, read straight off the JSON value: `null` says
   * nothing; an object whose members named like the three fields are all
   * strings or `null` gives, per field, the last string among them; any
   * other value does not fit.
   */
  function ErrorBodyOf(j: Json): Option<ErrorBody> {
    match j
    case JNull => Some(ErrorBody([], [], []))
    case JObject(ms) =>
      if NamedAreStringsOrNull(ms, MessageKey) && NamedAreStringsOrNull(ms, ErrorKey) && NamedAreStringsOrNull(ms, RequestIdKey)
      then Some(ErrorBody(LastStringNamed(ms, MessageKey).GetOr([]), LastStringNamed(ms, ErrorKey).GetOr([]),
                          LastStringNamed(ms, RequestIdKey).GetOr([])))
      else None
    case _ => None
  }

  /** Decoding into the error-body struct agrees with `ErrorBodyOf`. */
  lemma ErrorBodyDecode(p: Platform, j: Json)
    ensures DecodeNew(p, ErrorBodyType, j).Some? <==> ErrorBodyOf(j).Some?
    ensures DecodeNew(p, ErrorBodyType, j).Some? ==>
      var f := FieldsOf(DecodeNew(p, ErrorBodyType, j).value);
      ErrorBodyOf(j).value == ErrorBody(StrAt(f, 0), StrAt(f, 1), StrAt(f, 2))
  {
    var fs := ErrorBodyType.fields;
    var zero := ZeroFields(fs);
    assert Zero(ErrorBodyType) == VStruct(zero);
    assert AllStrings(fs);
    ZeroStrings(fs);
    match j
    case JNull =>
      assert DecodeNew(p, ErrorBodyType, j) == Some(VStruct(zero));
    case JObject(ms) =>
      assert DistinctNames(fs);
      StringFields(p, fs, ms, zero);
      var r := DecodeMembers(p, fs, ms, zero);
      assert DecodeNew(p, ErrorBodyType, j) == if r.Some? then Some(VStruct(r.value)) else None;
      assert fs[0].name == MessageKey && fs[1].name == ErrorKey && fs[2].name == RequestIdKey;
    case _ =>
      assert DecodeNew(p, ErrorBodyType, j) == None;
  }

  /** What encoding/json makes of an error body, with a body that does not parse giving nothing. */
  function ErrorFields(p: Platform, body: Bytes): Option<ErrorBody> {
    match Codec.ParseJson(p, body)
    case None => None
    case Some(j) => ErrorBodyOf(j)
  }

  /**
   * The `APIError` of a response with status 400 or more. The message is the
   * body's non-empty `message`, else its non-empty `error`, else the raw
   * body; the request id is the body's non-empty `request_id`, else the
   * header. A body that does not decode gives the raw body and the header.
   */
  function ApiErrorOf(p: Platform, resp: Response): (e: ApiError)
    ensures e.statusCode == resp.status && e.rawBody == resp.body
    ensures e.message == match ErrorFields(p, resp.body)
      case None => resp.body
      case Some(b) => if b.message != [] then b.message else if b.error != [] then b.error else resp.body
    ensures e.requestId == match ErrorFields(p, resp.body)
      case None => resp.requestIdHeader
      case Some(b) => if b.requestId != [] then b.requestId else resp.requestIdHeader
  {
    var unparsed := ApiError(resp.status, resp.body, resp.requestIdHeader, resp.body);
    match Codec.ParseJson(p, resp.body)
    case None => unparsed
    case Some(j) =>
      ErrorBodyDecode(p, j);
      match DecodeNew(p, ErrorBodyType, j)
      case None => unparsed
      case Some(v) =>
        var f := FieldsOf(v);
        var message := if StrAt(f, 0) != [] then StrAt(f, 0) else if StrAt(f, 1) != [] then StrAt(f, 1) else resp.body;
        var requestId := if StrAt(f, 2) != [] then StrAt(f, 2) else resp.requestIdHeader;
        ApiError(resp.status, message, requestId, resp.body)
  }

  /**
   * The end of `Request` once a response is read. Status 400 or more is
   * always an `APIError`. Below that, the body is decoded only when there is
   * a target and the body is non-empty; otherwise the target keeps its zero
   * value. A body that does not parse or fit is an unmarshal error, never an
   * `APIError`.
   */
  function Normalize(p: Platform, resp: Response, target: Option<GoType>): (r: Result<Option<Value>, Error>)
    ensures resp.status >= 400 ==> r == Failure(Api(ApiErrorOf(p, resp)))
    ensures resp.status < 400 && r.Failure? ==> AsApi(r.error) == None && Unwrap(r.error).Some?
    ensures resp.status < 400 && target.None? ==> r == Success(None)
    ensures resp.status < 400 && target.Some? && |resp.body| == 0 ==> r == Success(Some(Zero(target.value)))
    ensures resp.status < 400 && target.Some? && |resp.body| > 0 ==>
      match Codec.ParseJson(p, resp.body)
      case None => r == Failure(Wrap("error unmarshaling response", JsonSyntax))
      case Some(j) =>
        match DecodeNew(p, target.value, j)
        case None => r == Failure(Wrap("error unmarshaling response", JsonType))
        case Some(v) => r == Success(Some(v))
    ensures r.Success? ==> (r.value.Some? <==> target.Some?)
    ensures r.Success? && target.Some? ==> HasType(r.value.value, target.value)
  {
    if resp.status >= 400 then Failure(Api(ApiErrorOf(p, resp)))
    else if target.None? || |resp.body| == 0 then
      Success(if target.None? then None else Some(Zero(target.value)))
    else
      match Codec.ParseJson(p, resp.body)
      case None => Failure(Wrap("error unmarshaling response", JsonSyntax))
      case Some(j) =>
        match DecodeNew(p, target.value, j)
        case None => Failure(Wrap("error unmarshaling response", JsonType))
        case Some(v) => Success(Some(v))
  }

  /** What the network answers to the request of `call`; `None` when the request could not be built. */
  function Answer(p: Platform, net: Network, c: Client, call: Call): Option<Exchange> {
    match BuildRequest(p, c, call)
    case Failure(_) => None
    case Success(req) => Some(net(c.http, req))
  }

  /** A response came back, with a status of at least `least`. */
  predicate ReceivedStatusAtLeast(p: Platform, net: Network, c: Client, call: Call, least: int) {
    var a := Answer(p, net, c, call);
    a.Some? && a.value.Received? && a.value.response.status >= least
  }

  /**
   * `Client.Request`: build, send, read, normalise. A failure before a
   * response is read is wrapped with the step that failed and is never an
   * `APIError`.
   */
  function Request(p: Platform, net: Network, c: Client, call: Call): (r: Result<Option<Value>, Error>)
    ensures Answer(p, net, c, call).None? ==> r == Failure(Wrap("error creating request", Foreign))
    ensures Answer(p, net, c, call) == Some(SendFailed) ==> r == Failure(Wrap("error sending request", Foreign))
    ensures Answer(p, net, c, call) == Some(ReadFailed) ==> r == Failure(Wrap("error reading response body", Foreign))
    ensures Answer(p, net, c, call).Some? && Answer(p, net, c, call).value.Received? ==>
      r == Normalize(p, Answer(p, net, c, call).value.response, call.target)
    ensures r.Failure? && AsApi(r.error).Some? <==> ReceivedStatusAtLeast(p, net, c, call, 400)
    ensures r.Success? ==> (r.value.Some? <==> call.target.Some?)
    ensures r.Success? && call.target.Some? ==> HasType(r.value.value, call.target.value)
  {
    match BuildRequest(p, c, call)
    case Failure(e) => Failure(e)
    case Success(req) =>
      match net(c.http, req)
      case SendFailed => Failure(Wrap("error sending request", Foreign))
      case ReadFailed => Failure(Wrap("error reading response body", Foreign))
      case Received(resp) => Normalize(p, resp, call.target)
  }

  // ---------------------------------------------------------------------
  // How the service methods end, stated once for all of them.
  // ---------------------------------------------------------------------

  /**
   * How a service method that decodes its result into type `t`, shows it
   * through `view`, and wraps its failures with `context` ends, given the
   * network's answer `a`. Every failure is `Request`'s own error wrapped with
   * `context`: the step that stopped the call when no response was read, the
   * response's `APIError` (so it stays recoverable) for a status of 400 or
   * more, and an unmarshal error for a body that does not parse or decode
   * into `t`. An empty body gives the view of the zero value; a decoded body
   * gives the view of the decoded value.
   */
  ghost predicate Settles<T>(p: Platform, a: Option<Exchange>, t: GoType, view: Value -> T, context: Bytes, r: Result<T, Error>) {
    match a
    case None => r == Failure(Wrapped(context, Wrap("error creating request", Foreign)))
    case Some(SendFailed) => r == Failure(Wrapped(context, Wrap("error sending request", Foreign)))
    case Some(ReadFailed) => r == Failure(Wrapped(context, Wrap("error reading response body", Foreign)))
    case Some(Received(resp)) =>
      if resp.status >= 400 then r == Failure(Wrapped(context, Api(ApiErrorOf(p, resp))))
      else if |resp.body| == 0 then r == Success(view(Zero(t)))
      else (
        match Codec.ParseJson(p, resp.body)
        case None => r == Failure(Wrapped(context, Wrap("error unmarshaling response", JsonSyntax)))
        case Some(j) =>
          match DecodeNew(p, t, j)
          case None => r == Failure(Wrapped(context, Wrap("error unmarshaling response", JsonType)))
          case Some(v) => r == Success(view(v)))
  }

  /**
   * How a service method without a result target ends: it succeeds exactly
   * when a response below 400 came back, whatever its body. Otherwise the
   * error is `Request`'s own, wrapped with `context`: the step that stopped
   * the call, or the response's `APIError`. `None` is a nil error.
   */
  ghost predicate Completes(p: Platform, a: Option<Exchange>, context: Bytes, r: Option<Error>) {
    match a
    case None => r == Some(Wrapped(context, Wrap("error creating request", Foreign)))
    case Some(SendFailed) => r == Some(Wrapped(context, Wrap("error sending request", Foreign)))
    case Some(ReadFailed) => r == Some(Wrapped(context, Wrap("error reading response body", Foreign)))
    case Some(Received(resp)) =>
      if resp.status >= 400 then r == Some(Wrapped(context, Api(ApiErrorOf(p, resp))))
      else r == None
  }

  /** A typed call: the request's decoded value shown through `view`, or its error wrapped with `context`. */
  function Typed<T>(p: Platform, net: Network, c: Client, call: Call, view: Value -> T, context: string): (r: Result<T, Error>)
    requires call.target.Some?
    ensures Settles(p, Answer(p, net, c, call), call.target.value, view, Ascii(context), r)
  {
    match Request(p, net, c, call)
    case Failure(e) => Failure(Wrap(context, e))
    case Success(v) => Success(view(v.value))
  }

  /** A call without a result target: `None` on success, or its error wrapped with `context`. */
  function Untyped(p: Platform, net: Network, c: Client, call: Call, context: string): (r: Option<Error>)
    requires call.target.None?
    ensures Completes(p, Answer(p, net, c, call), Ascii(context), r)
  {
    match Request(p, net, c, call)
    case Failure(e) => Some(Wrap(context, e))
    case Success(_) => None
  }
}
