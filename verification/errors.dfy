/**
 * The errors the client returns. Go's `error` values form a chain through
 * `fmt.Errorf("...: %w", cause)`; `errors.As` walks that chain looking for
 * an `*APIError`, which is how callers recover the API's status and message
 * from the wrapped errors the services return.
 */
module Errors {
  import opened Wrappers
  import opened GoStrings

  /** The client's version, part of the `User-Agent` header and of every API error text. */
  const Version: Bytes := Ascii("0.1.0")

  /** `client.APIError`: a response with status 400 or more. */
  datatype ApiError = ApiError(statusCode: int, message: Bytes, requestId: Bytes, rawBody: Bytes)

  datatype Error =
    | Text(text: Bytes)                        // errors.New
    | Api(api: ApiError)                       // *client.APIError
    | JsonSyntax                               // *json.SyntaxError, including an empty input
    | JsonType                                 // *json.UnmarshalTypeError, or a time that is not RFC 3339
    | Foreign                                  // an error of net/url, net/http or io
    | Wrapped(context: Bytes, cause: Error)    // fmt.Errorf("<context>: %w", cause)

  /** `errors.As(err, &apiErr)`: the API error at the end of the wrapping chain, if any. */
  function AsApi(e: Error): Option<ApiError> {
    match e
    case Api(a) => Some(a)
    case Wrapped(_, cause) => AsApi(cause)
    case _ => None
  }

  /** `errors.Unwrap`. */
  function Unwrap(e: Error): Option<Error> {
    if e.Wrapped? then Some(e.cause) else None
  }

  /** `fmt.Errorf("<context>: %w", cause)`: the cause stays reachable, and so does any API error in it. */
  function Wrap(context: string, cause: Error): (r: Error)
    ensures Unwrap(r) == Some(cause)
    ensures AsApi(r) == AsApi(cause)
  {
    Wrapped(Ascii(context), cause)
  }

  /** The fixed start of every API error text. */
  const Lead: Bytes := Ascii("accessgrid-go v") + Version + Ascii(": API error (status ")

  const RequestIdLead: Bytes := Ascii(" (request ID: ")

  /**
   * `APIError.Error()`: the version, the status and the message, followed by
   * the request id in parentheses only when there is one.
   */
  function ErrorText(e: ApiError): (r: Bytes)
    ensures |Lead| <= |r| && r[..|Lead|] == Lead
    ensures |r| == |Lead| + |FormatInt(e.statusCode)| + 3 + |e.message|
                   + (if e.requestId == [] then 0 else |RequestIdLead| + |e.requestId| + 1)
    ensures r[|Lead|..|Lead| + |FormatInt(e.statusCode)| + 3 + |e.message|]
            == FormatInt(e.statusCode) + Ascii("): ") + e.message
    ensures e.requestId != [] ==>
      var tail := RequestIdLead + e.requestId + Ascii(")");
      |tail| <= |r| && r[|r| - |tail|..] == tail
  {
    var msg := Lead + FormatInt(e.statusCode) + Ascii("): ") + e.message;
    if e.requestId != [] then msg + (RequestIdLead + e.requestId + Ascii(")")) else msg
  }

  /** Reads the status code back from an API error text: the number between the lead and the first `)`. */
  function StatusInText(text: Bytes): Option<int> {
    if |Lead| <= |text| && text[..|Lead|] == Lead then ParseInt64(TakeUntil(text[|Lead|..], ')' as int))
    else None
  }

  /** The status code of an API error is recoverable from its text. */
  lemma StatusInErrorText(e: ApiError)
    requires MinInt64 <= e.statusCode <= MaxInt64
    ensures StatusInText(ErrorText(e)) == Some(e.statusCode)
  {
    var r := ErrorText(e);
    var digits := FormatInt(e.statusCode);
    var n := |Lead|;
    var mid := digits + Ascii("): ") + e.message;
    assert r[n..n + |mid|] == mid;
    var after := r[n + |digits|..];
    assert after[0] == mid[|digits|] == ')' as int;
    assert r[n..] == digits + after;
    TakeUntilPrefix(digits, after, ')' as int);
    ParseFormatRoundTrip(e.statusCode);
  }

}
