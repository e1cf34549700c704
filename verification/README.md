# accessgrid-go client core, in Dafny

This project models the core of the AccessGrid Go SDK and proves properties about it. The SDK is a thin HTTP client for the AccessGrid API, and the model covers four parts:

- **Client** (`client/client.go`): how a client is built, the request pipeline, and `APIError.Error`. The pipeline builds the URL, marshals the body, sets four headers, signs, sends, reads, and then turns the response into either a decoded result or an error.
- **Signer** (`signRequest`): the signature is an HMAC-SHA256 over the standard Base64 of the payload, written as lower-case hex. A nil payload is signed as `{}`.
- **Card service** (`services/access_cards.go`): the two-pass `parseUnionResponse`, which tells a unified access pass from a single card by the `details` array. It also covers the eight card operations, each given as its method, path, body and result target.
- **Console service** (`services/console.go`): the five template operations, and `EventLog` with its filter query and path.

Go strings are byte sequences (`GoStrings.Bytes`). Code from outside the repository is taken as a parameter, the `Platform` record:

- HMAC-SHA256;
- the JSON syntax parser and string quoting;
- RFC 3339 time formatting and parsing;
- `url.Values.Encode`;
- whether `url.Parse` accepts a URL.

Every property therefore holds whatever those functions compute.

The network is also a parameter. It is a function from the HTTP client and the request to one of three outcomes: the send failed, the body read failed, or a response came back (status, `X-Request-ID` header, body).

Some library behaviour is modelled concretely, because the SDK's behaviour depends on it:

- **encoding/json decoding** (`GoDecode`), over a small schema of Go types:
  - object keys match struct fields ignoring ASCII case, and later keys win;
  - `null` leaves a field alone, but a slice becomes nil and a `json.RawMessage` stores the `null`;
  - a type mismatch is an error;
  - an empty text is a syntax error.
- **Path escaping** (`Url`): `url.PathEscape`, and the path escaping done by `url.URL.String`.
- **Base64 and hex** encodings.

Modules follow the program. `Client`, `Errors` and `Signer` cover `client/client.go`. `AccessCards` and `Routes` cover the card service, and `Console` covers the console service. `Models` holds the records the services decode into.

`List` sends its filter as the JSON body of a GET request, not as a query string. A nil filter pointer is marshalled as `null`, which is different from the nil body that is signed as `{}`.

## Model

| member | source | states |
|---|---|---|
| Client.NewClient | client/client.go:66-87 | An empty account id is refused first, then an empty secret key. Otherwise the client has the given credentials, the default base URL `https://api.accessgrid.com` unless a `WithBaseURL` option overrides it, and a 30-second HTTP client unless a `WithHTTPClient` option overrides it. |
| Client.ApplyOptionsLastWins | client/client.go:48-63 | When options are applied in order, the last `WithBaseURL` and the last `WithHTTPClient` decide the result, and the credentials are never changed. |
| Client.BuildRequest | client/client.go:91-117 | Building fails exactly when the base URL followed by the path does not parse, and the error is wrapped as "error creating request". Otherwise the request has the call's method, the marshalled body (empty for a nil body) and exactly four headers. Looked up by name ignoring case, they are: Content-Type `application/json`; X-ACCT-ID, the account id; User-Agent `accessgrid.go @ v0.1.0`; and X-PAYLOAD-SIG, the signature of the body. |
| Signer.MacMessage | client/client.go:178-186 | The MAC input is 4·⌈n/3⌉ characters of the standard Base64 alphabet plus `=`, where n is the payload length. It decodes back to the payload, and its padding bits are zero. The payload is `{}` when the body is nil. |
| Signer.MacMessageExact | client/client.go:186 | The MAC input is the only text with zero padding bits that decodes to the payload, so the signed text is pinned down exactly. |
| Signer.Sign | client/client.go:186-195 | The signature is 64 lower-case hex characters that decode to exactly the HMAC-SHA256 of the MAC input under the secret key. |
| Signer.NilBodySignedAsEmptyObject | client/client.go:178-183 | A request without a body carries the same signature as one whose body marshals to `{}`. |
| Client.ErrorBodyDecode | client/client.go:134-146 | Decoding into the `{message, error, request_id}` struct succeeds exactly when the reference reading of the JSON value succeeds. That reading accepts `null`, or an object whose members for those fields are strings or `null`. The three fields then hold the last string given for each. |
| Client.ApiErrorOf | client/client.go:133-163 | The APIError's status and raw body are the response's. The message is the body's non-empty `message`, else its non-empty `error`, else the raw body; a body that does not decode also gives the raw body. The request id is the body's non-empty `request_id`, else the `X-Request-ID` header. |
| Client.Normalize | client/client.go:132-173 | A status of 400 or more is always the response's APIError. Below 400: with no target, or with an empty body, the call succeeds and the target is left as its zero value. A body that fails to parse or decode is wrapped as "error unmarshaling response" and is never an APIError. A success carries a value exactly when a target was given, and that value has the target's type. |
| Client.Request | client/client.go:90-174 | The request-building, send and read failures are wrapped with the step that failed. The result is an APIError exactly when a response with status 400 or more was received. A received response is settled as in `Normalize`. |
| Client.Typed | client/client.go:166-173 | A typed service call fails with `Request`'s own error wrapped with the service's context. Without a response that is the failed step ("error creating request", "error sending request" or "error reading response body"). With status 400 or more it is the response's APIError, so it stays recoverable. A body that does not parse or decode into the target type gives "error unmarshaling response". An empty body gives the view of the zero value, and a decoded body gives the view of the decoded value. |
| Client.Untyped | client/client.go:166-173 | A service call without a target succeeds exactly when a response below 400 arrives, whatever its body. Otherwise its error is `Request`'s own, wrapped with the service's context: the failed step, or for a status of 400 or more the recoverable APIError. |
| Errors.Wrap | services/console.go:28-30 | Wrapping with `%w` keeps the cause reachable through `Unwrap`, and an APIError stays recoverable. |
| Errors.ErrorText | client/client.go:32-38 | The text starts with `accessgrid-go v0.1.0: API error (status `, followed by the decimal status code, `): ` and the message. Its length is exactly that of the status, message and optional request-id parts. It ends with ` (request ID: R)` when the request id R is non-empty. |
| Errors.StatusInErrorText | client/client.go:33 | The status code can be read back from the error text, between the fixed lead and the first `)`. |
| AccessCards.PeekCountsDetails | services/access_cards.go:109-114 | The peek pass succeeds exactly when the value is `null` or an object whose `details` members are all arrays or `null`. The peeked length is then the length of the last of them, or 0 when there are none. |
| AccessCards.PassHoldsAllDetails | services/access_cards.go:116-121 | When the peek finds a non-empty `details`, the decoded pass has exactly that many cards. |
| AccessCards.ParseUnionResponse | services/access_cards.go:108-129 | An empty raw message or a failed peek is "error parsing response". A non-empty `details` resolves to a unified access pass with that many details, namely the pass the second decode produced, or to "error parsing unified access pass". An absent, `null` or empty `details` resolves to the single card the second decode produced, or to "error parsing card". |
| AccessCards.FetchUnion | services/access_cards.go:26-42 | Without a response, or with status 400 or more, `Request`'s own error (the failed step, or the response's APIError) is returned wrapped with the context, and nothing is parsed. An empty successful body fails the peek parse. A body that does not parse is an unmarshal error. Any other body is resolved by `ParseUnionResponse`. |
| AccessCards.Provision | services/access_cards.go:25-32 | POST `/v1/key-cards` with the parameters as the body, resolved as a union; failures are wrapped as "error provisioning card". |
| AccessCards.GetCard | services/access_cards.go:35-43 | GET `/v1/key-cards/{escaped id}` with a nil body, resolved as a union; failures are wrapped as "error getting card". |
| AccessCards.Update | services/access_cards.go:46-54 | PATCH `/v1/key-cards/{escaped id}` with the parameters as the body, decoded straight into a Card; failures are wrapped as "error updating card". |
| AccessCards.List | services/access_cards.go:57-66 | GET `/v1/key-cards` with the filter, or `null`, as a JSON body, decoded into a struct with a `keys` slice of cards; failures are wrapped as "error listing cards". |
| AccessCards.ListReturnsKeys | services/access_cards.go:58-65 | Whatever the filter, a list that settles successfully on an object body holds as many cards as the last `keys` array of the response object, and none when the response has no `keys`. |
| AccessCards.ChangeState | services/access_cards.go:69-106 | Suspend, Resume, Unlink and Delete POST an empty object to `/v1/key-cards/{escaped id}/{action}` with no target. Each succeeds exactly when a response below 400 comes back, with its own error context. |
| AccessCards.ChangeStateSignedAsNilBody | services/access_cards.go:71 | The empty-object body of a state change carries the same signature as a nil body. |
| Routes.CardPathSegments | services/access_cards.go:37 | A card path is `/v1/key-cards` plus exactly one more segment, which unescapes back to the id. An action path adds the action as one further segment. |
| Routes.TemplatePathSegments | services/console.go:48 | A template path is `/v1/console/card-templates` plus exactly one segment that unescapes back to the id, and the log path adds `logs`. |
| Console.CreateTemplate | services/console.go:25-32 | POST the collection with the parameters as the body and decode a Template; failures are wrapped as "error creating template". |
| Console.UpdateTemplate | services/console.go:35-43 | PUT `/v1/console/card-templates/{escaped id}` with the parameters as the body and decode a Template; failures are wrapped as "error updating template". |
| Console.ReadTemplate | services/console.go:46-54 | GET the template's path with a nil body and decode a Template; failures are wrapped as "error reading template". |
| Console.ListTemplates | services/console.go:57-64 | GET the collection with a nil body and decode a bare array of templates; failures are wrapped as "error listing templates". |
| Console.ListTemplatesCount | services/console.go:58-63 | A listed array gives one template per item. |
| Console.DeleteTemplate | services/console.go:67-74 | DELETE the template's path with a nil body and no target: it succeeds exactly on a response below 400, and the body is ignored. |
| Console.BodilessCallsSignedAsEmptyObject | services/console.go:49 | Reading, listing and deleting templates send no body, so each is signed as the text `{}`. |
| Console.EventLogQuery | services/console.go:81-93 | The query has `device` exactly when that filter is non-empty and `event_type` exactly when that filter is non-empty. It has `start_date` and `end_date` exactly when those dates are given, formatted as RFC 3339. Each key has exactly one value, and there are no other keys. The query is empty exactly when no filter is set. |
| Console.EventLogPath | services/console.go:95-104 | Everything before the first `?` is the template's log path, and with no filter there is no `?` at all. With a filter set, the path is the log path, then `?`, then the encoded filter query (or the bare log path if the encoding is empty). |
| Console.EventLogEscapesTwice | services/console.go:96-104 | The path as written equals the intended one exactly when the id contains no byte that path escaping changes. |
| Console.EventLogSpaceInId | services/console.go:97 | For the id `a b`, the intended segment is `a%20b` but the path as written carries `a%2520b`. |
| Console.EventLog | services/console.go:77-112 | GET the corrected log path with the query and a nil body, and decode a bare array of events; failures are wrapped as "error fetching event log". |
| Console.EventLogAsWritten | services/console.go:77-112 | The event log as the code is written: GET the doubly escaped log path with the query and a nil body, decoded as a bare array of events; failures are wrapped as "error fetching event log". |
| Console.EventLogAsWrittenAgrees | services/console.go:96-104 | The call as written equals the corrected call exactly when the id needs no path escaping, and for such ids the two event logs give the same result. |
| Console.EventLogCount | services/console.go:106-111 | Whatever the filters, an event log that settles successfully on an array body gives one event per item. |
| GoDecode.StringFields | client/client.go:134-146 | Decoding an object into a struct of string fields with distinct names succeeds exactly when every member naming a field is a string or `null`. Each field then holds the last string given for it. |
| GoDecode.SliceFieldLength | services/access_cards.go:109-116 | Decoding an object into a one-slice struct succeeds only when every member naming the slice is an array or `null`. The slice length is then that of the last one, and it is 0 after a `null`. For `json.RawMessage` elements, the "only when" becomes "exactly when". |
| Url.UnescapeEscape | services/access_cards.go:37 | Unescaping undoes path escaping, so the server recovers an escaped identifier exactly. |
| Url.SegmentSurvivesPathEscaping | services/console.go:97 | A path-escaped segment is unchanged by whole-path escaping exactly when the original needed no escaping. |
| Base64.DecodeEncode | client/client.go:186 | Round trip: decoding the standard Base64 of a byte string gives back that byte string. |
| Base64.EncodeDecode | client/client.go:186 | Round trip the other way: a text that decodes and has zero padding bits is the standard Base64 of what it decodes to. |
| Base64.EncodeCanonical | client/client.go:186 | Encoding leaves the padding bits of the last group zero. |
| Hex.DecodeLowerHex | client/client.go:195 | Round trip: decoding the `%x` text of a byte string gives back that byte string. |
| GoStrings.ParseFormatRoundTrip | client/client.go:33 | Round trip: a 64-bit integer written in decimal parses back to itself. |

## Left out

- HMAC-SHA256 and SHA-256 are a `Platform` function with a 32-byte result. The error branch of `h.Write` (client/client.go:190-193) cannot happen for a hash and is not modelled.
- Sending, context cancellation, timeouts and `io.ReadAll` are left out; the network is a parameter that returns one of the three outcomes. A nil `HTTPClient` passed to `WithHTTPClient` is not modelled, because it would panic in `Do`.
- `url.Values.Encode` and `time.Time.Format(time.RFC3339)` are `Platform` functions. `url.Parse` appears only as the yes/no answer of `parsesAsUrl`.
- JSON syntax and string quoting are `Platform` functions. Marshalling of DTO structs is left out: parameters are given as their JSON value, and their `omitempty` field lists are not modelled.
- The `json.Marshal` error branch (client/client.go:97-99) is not modelled: parameters are taken as already-marshalled JSON values. The branch is reachable in Go: `time.Time` fields fail to marshal for years outside 0 to 9999, and `ProvisionParams.StartDate`, `ProvisionParams.ExpirationDate` (models/models.go:36-37) and `UpdateParams.ExpirationDate` (models/models.go:49) are such fields. `Provision` and `Update` can therefore return "error marshaling request body", which the model does not.
- Case-insensitive key matching in encoding/json uses Unicode case folding. The model folds ASCII only.
- When a JSON object repeats a key whose value is an array, Go decodes the later array into the slice elements already there, so fields the later items omit keep their earlier values. The model decodes every item into a fresh zero value. The two agree on slice lengths only; element values can differ. Repeated keys holding objects are merged in both.
- AccessCards.List: for a body that repeats `keys`, such as `{"keys":[{"id":"a"}],"keys":[{}]}`, the model's card has an empty id where Go keeps `a`. The exact cards the contract states are the fresh-element reading; `AccessCards.ListReturnsKeys` (the count) holds for both.
- AccessCards.ParseUnionResponse: the same holds for a pass whose body repeats `details`. The cards of the returned pass are the fresh-element reading, and the count `AccessCards.PassHoldsAllDetails` states holds for both. `Provision` and `GetCard` inherit this.
- When decoding fails, Go may leave a target partly filled. The model reports only the failure, and no caller reads the partial target.
- `time.Time` decoding is a `Platform` function, `parseRfc3339`, applied to the text of a JSON string after its escapes are undone. Go's `Time.UnmarshalJSON` parses the raw bytes between the quotes without undoing escapes. So a time such as `"\u0032024-01-01T00:00:00Z"` fails in Go with "error unmarshaling response", while the model reads it as `2024-01-01T00:00:00Z`. The JSON value the model parses keeps no raw string lexemes. Every operation whose result holds a time is affected: `Provision`, `GetCard`, `Update`, `List`, the template operations and `EventLog`.
- A nil slice and an empty slice are both shown as an empty sequence in the decoded records.
- Headers are looked up ignoring case. The canonical spelling Go puts on the wire (`X-Acct-Id`) is kept, but `http.Header`'s other behaviour is not modelled.
- `models.Union` and `models.UnifiedAccessPass` are not defined in the repository's models file. The union is modelled as a closed sum of a single card and a pass holding its `details` cards.
- `accessgrid.go` only forwards to `client.NewClient` and is not part of this model.
- `UpdateTemplate` and `Update` take the id as a separate argument, not as the `CardTemplateID` or `CardID` field of the parameters.
- Client.NewClient: options are a closed set of the two options the package ships, `WithBaseURL` and `WithHTTPClient`. In Go an `Option` is any `func(*Client)` and runs after the credential checks, so a caller-written option could clear `AccountID` or `SecretKey` or change any field; the model does not cover such options.
- Client.ApplyOptionsLastWins: the credentials are unchanged only because the model's options are the two shipped ones; a caller-written Go option could change them.
- Console.EventLog: it sends the corrected, singly escaped path, not the doubly escaped path the code builds. `Console.EventLogAsWritten` models the code as written, and `Console.EventLogAsWrittenAgrees` shows the two agree exactly when the id needs no path escaping.

## Findings

| source | as written | input that shows it | evidently intended | confidence | as-written member | corrected member |
|---|---|---|---|---|---|---|
| services/console.go:96-104 | The path-escaped id is stored in `url.URL.Path`, and `URL.String` escapes that path again, so every `%` from the first escaping becomes `%25`. | template id `a b`: the request goes to `/v1/console/card-templates/a%2520b/logs` | the id escaped once, `/v1/console/card-templates/a%20b/logs`, as in every other template operation | high (not executed) | Console.EventLogPathAsWritten and Console.EventLogAsWritten, shown by Console.EventLogEscapesTwice and Console.EventLogSpaceInId | Console.EventLogPath, which Console.EventLog uses |
