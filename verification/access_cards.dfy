/**
 * `AccessCardsService`: the requests behind each card operation, and the
 * resolution of a provisioned or fetched card into either one card or a
 * unified access pass.
 */
module AccessCards {
  import opened Wrappers
  import opened GoStrings
  import opened Json
  import opened Platform
  import opened GoDecode
  import opened Errors
  import opened Models
  import opened Url
  import opened Client
  import opened Routes
  import Codec
  import Signer

  /** The four state changes, each a POST to a sub-resource of the card. */
  datatype CardAction = Suspend | Resume | Unlink | Delete

  function ActionName(a: CardAction): Bytes {
    match a
    case Suspend => Ascii("suspend")
    case Resume => Ascii("resume")
    case Unlink => Ascii("unlink")
    case Delete => Ascii("delete")
  }

  function ActionContext(a: CardAction): string {
    match a
    case Suspend => "error suspending card"
    case Resume => "error resuming card"
    case Unlink => "error unlinking card"
    case Delete => "error deleting card"
  }

  /** The body of a state change: `map[string]string{}`, an empty JSON object. */
  const EmptyObject: Json := JObject([])

  /** `List`'s response struct: a `keys` field holding a slice of cards. */
  const KeysKey: Bytes := Ascii("keys")
  const KeysType: GoType := StructT([Field(KeysKey, SliceT(CardType))])

  function ProvisionCall(params: Json): Call { Call(Post, KeyCardsPath, Body(params), Some(RawT)) }
  function GetCall(id: Bytes): Call { Call(Get, CardPath(id), NilBody, Some(RawT)) }
  function UpdateCall(id: Bytes, params: Json): Call { Call(Patch, CardPath(id), Body(params), Some(CardType)) }

  /** A nil filter pointer still marshals, to `null`: `List` always sends a body. */
  function ListCall(filter: Option<Json>): Call { Call(Get, KeyCardsPath, Body(filter.GetOr(JNull)), Some(KeysType)) }

  function ActionCall(id: Bytes, a: CardAction): Call { Call(Post, ActionPath(id, ActionName(a)), Body(EmptyObject), None) }

  // ---------------------------------------------------------------------
  // parseUnionResponse
  // ---------------------------------------------------------------------

  /** The struct the first pass decodes into: only `details`, as raw messages. */
  const PeekType: GoType := StructT([Field(DetailsKey, SliceT(RawT))])

  /**
   * How many `details` the first pass sees, read straight off the JSON:
   * `null` has none; an object has as many as its last `details` array (none
   * when the member is absent or `null`); the pass fails on any other value
   * and on an object with a `details` member that is neither an array nor
   * `null`.
   */
  function DetailsCount(j: Json): Option<nat> {
    match j
    case JNull => Some(0)
    case JObject(ms) =>
      if NamedAreArraysOrNull(ms, DetailsKey)
      then Some(match LastNamed(ms, DetailsKey) case None => 0 case Some(d) => ArrayLength(d))
      else None
    case _ => None
  }

  function FirstField(v: Value): Value {
    if |FieldsOf(v)| > 0 then FieldsOf(v)[0] else VSlice(None)
  }

  /** The first pass agrees with `DetailsCount`. */
  lemma PeekCountsDetails(p: Platform, j: Json)
    ensures DecodeNew(p, PeekType, j).Some? <==> DetailsCount(j).Some?
    ensures DecodeNew(p, PeekType, j).Some? ==> SliceLength(FirstField(DecodeNew(p, PeekType, j).value)) == DetailsCount(j).value
  {
    assert ZeroFields(PeekType.fields) == [VSlice(None)];
    if j.JObject? {
      SliceFieldLength(p, DetailsKey, RawT, j.members, ZeroFields(PeekType.fields));
    }
  }

  /** When the first pass saw details, a successful second pass holds as many cards. */
  lemma PassHoldsAllDetails(p: Platform, j: Json)
    requires DetailsCount(j).Some? && DetailsCount(j).value > 0
    requires DecodeNew(p, PassType, j).Some?
    ensures |PassOf(DecodeNew(p, PassType, j).value).details| == DetailsCount(j).value
  {
    SliceFieldLength(p, DetailsKey, CardType, j.members, ZeroFields(PassType.fields));
  }

  /**
   * `parseUnionResponse`: a response with a non-empty `details` array is a
   * unified access pass with that many cards; one whose `details` is absent,
   * `null` or empty is a single card. A first pass that fails (no raw
   * message, not an object, `details` not an array) is "error parsing
   * response"; a second pass that fails is attributed to its branch.
   */
  function ParseUnionResponse(p: Platform, raw: Option<Json>): (r: Result<Union, Error>)
    ensures raw.None? ==> r == Failure(Wrap("error parsing response", JsonSyntax))
    ensures raw.Some? && DetailsCount(raw.value).None? ==> r == Failure(Wrap("error parsing response", JsonType))
    ensures raw.Some? && DetailsCount(raw.value).Some? && DetailsCount(raw.value).value > 0 ==>
      && (r.Success? <==> DecodeNew(p, PassType, raw.value).Some?)
      && (r.Success? ==> r.value.AccessPass? && |r.value.pass.details| == DetailsCount(raw.value).value)
      && (r.Success? ==> r.value == AccessPass(PassOf(DecodeNew(p, PassType, raw.value).value)))
      && (r.Failure? ==> r.error == Wrap("error parsing unified access pass", JsonType))
    ensures raw.Some? && DetailsCount(raw.value) == Some(0) ==>
      && (r.Success? <==> DecodeNew(p, CardType, raw.value).Some?)
      && (r.Success? ==> r.value == SingleCard(CardOf(DecodeNew(p, CardType, raw.value).value)))
      && (r.Failure? ==> r.error == Wrap("error parsing card", JsonType))
  {
    match raw
    case None => Failure(Wrap("error parsing response", JsonSyntax))
    case Some(j) =>
      PeekCountsDetails(p, j);
      match DecodeNew(p, PeekType, j)
      case None => Failure(Wrap("error parsing response", JsonType))
      case Some(check) =>
        if SliceLength(FirstField(check)) > 0 then
          match DecodeNew(p, PassType, j)
          case None => Failure(Wrap("error parsing unified access pass", JsonType))
          case Some(pass) =>
            PassHoldsAllDetails(p, j);
            Success(AccessPass(PassOf(pass)))
        else
          match DecodeNew(p, CardType, j)
          case None => Failure(Wrap("error parsing card", JsonType))
          case Some(card) => Success(SingleCard(CardOf(card)))
  }

  /** The raw message a request left behind; `None` when it stayed empty. */
  function RawOf(v: Option<Value>): Option<Json> {
    if v.Some? && v.value.VRaw? then v.value.raw else None
  }

  /**
   * How `Provision` and `Get` end: without a response, or with status 400 or
   * more, `Request`'s own error wrapped with `context` (an `APIError` stays
   * recoverable); an empty body fails the first parsing pass; a body that
   * does not parse is an unmarshal error; any other body is resolved by
   * `ParseUnionResponse`.
   */
  ghost predicate ResolvesUnion(p: Platform, a: Option<Exchange>, context: Bytes, r: Result<Union, Error>) {
    match a
    case None => r == Failure(Wrapped(context, Wrap("error creating request", Foreign)))
    case Some(SendFailed) => r == Failure(Wrapped(context, Wrap("error sending request", Foreign)))
    case Some(ReadFailed) => r == Failure(Wrapped(context, Wrap("error reading response body", Foreign)))
    case Some(Received(resp)) =>
      if resp.status >= 400 then r == Failure(Wrapped(context, Api(ApiErrorOf(p, resp))))
      else if |resp.body| == 0 then r == Failure(Wrap("error parsing response", JsonSyntax))
      else (
        match Codec.ParseJson(p, resp.body)
        case None => r == Failure(Wrapped(context, Wrap("error unmarshaling response", JsonSyntax)))
        case Some(j) => r == ParseUnionResponse(p, Some(j)))
  }

  function FetchUnion(p: Platform, net: Network, c: Client, call: Call, context: string): (r: Result<Union, Error>)
    requires call.target == Some(RawT)
    ensures ResolvesUnion(p, Answer(p, net, c, call), Ascii(context), r)
  {
    RequestResolves(p, net, c, call, context);
    Resolve(p, Request(p, net, c, call), context)
  }

  /** What `Provision` and `Get` make of `Request`'s outcome: its error wrapped, or the raw message parsed. */
  function Resolve(p: Platform, q: Result<Option<Value>, Error>, context: string): Result<Union, Error> {
    match q
    case Failure(e) => Failure(Wrap(context, e))
    case Success(v) => ParseUnionResponse(p, RawOf(v))
  }

  lemma RequestResolves(p: Platform, net: Network, c: Client, call: Call, context: string)
    requires call.target == Some(RawT)
    ensures ResolvesUnion(p, Answer(p, net, c, call), Ascii(context), Resolve(p, Request(p, net, c, call), context))
  {
    var q := Request(p, net, c, call);
    match Answer(p, net, c, call)
    case None =>
    case Some(SendFailed) =>
    case Some(ReadFailed) =>
    case Some(Received(resp)) =>
      assert q == Normalize(p, resp, Some(RawT));
  }

  /** `Provision`: POST the parameters to the collection, then resolve the response. */
  function Provision(p: Platform, net: Network, c: Client, params: Json): (r: Result<Union, Error>)
    ensures ResolvesUnion(p, Answer(p, net, c, ProvisionCall(params)), Ascii("error provisioning card"), r)
  {
    FetchUnion(p, net, c, ProvisionCall(params), "error provisioning card")
  }

  /** `Get`: GET the card's path without a body, then resolve the response. */
  function GetCard(p: Platform, net: Network, c: Client, id: Bytes): (r: Result<Union, Error>)
    ensures ResolvesUnion(p, Answer(p, net, c, GetCall(id)), Ascii("error getting card"), r)
  {
    FetchUnion(p, net, c, GetCall(id), "error getting card")
  }

  /** `Update`: PATCH the card's path with the parameters, and decode the response as one card. */
  function Update(p: Platform, net: Network, c: Client, id: Bytes, params: Json): (r: Result<Card, Error>)
    ensures Settles(p, Answer(p, net, c, UpdateCall(id, params)), CardType, CardOf, Ascii("error updating card"), r)
  {
    Typed(p, net, c, UpdateCall(id, params), CardOf, "error updating card")
  }

  function KeysOf(v: Value): seq<Card> {
    CardsOf(ItemsOf(FirstField(v)))
  }

  /** `List`: GET the collection with the filter as the JSON body, and return the response's `keys`. */
  function List(p: Platform, net: Network, c: Client, filter: Option<Json>): (r: Result<seq<Card>, Error>)
    ensures Settles(p, Answer(p, net, c, ListCall(filter)), KeysType, KeysOf, Ascii("error listing cards"), r)
  {
    Typed(p, net, c, ListCall(filter), KeysOf, "error listing cards")
  }

  /**
   * `List` returns exactly as many cards as the last `keys` array of the
   * response object holds, and none without one: this holds of any outcome
   * `List` settles on.
   */
  lemma ListReturnsKeys(p: Platform, resp: Response, ms: seq<Member>, r: Result<seq<Card>, Error>)
    requires Settles(p, Some(Received(resp)), KeysType, KeysOf, Ascii("error listing cards"), r)
    requires resp.status < 400 && Codec.ParseJson(p, resp.body) == Some(JObject(ms))
    requires r.Success?
    ensures |r.value| == match LastNamed(ms, KeysKey) case None => 0 case Some(k) => ArrayLength(k)
  {
    assert |resp.body| > 0;
    var f := Field(KeysKey, SliceT(CardType));
    assert KeysType.fields == [f];
    var zero := ZeroFields([f]);
    assert ZeroField(f) == VSlice(None);
    assert zero == [VSlice(None)] + ZeroFields([]);
    SliceFieldLength(p, KeysKey, CardType, ms, zero);
    var v := DecodeNew(p, KeysType, JObject(ms));
    assert v.Some? && r == Success(KeysOf(v.value));
  }

  /** `Suspend`, `Resume`, `Unlink`, `Delete`: POST an empty object to the action's path; no result is read. */
  function ChangeState(p: Platform, net: Network, c: Client, id: Bytes, a: CardAction): (r: Option<Error>)
    ensures Completes(p, Answer(p, net, c, ActionCall(id, a)), Ascii(ActionContext(a)), r)
  {
    Untyped(p, net, c, ActionCall(id, a), ActionContext(a))
  }

  /** A state change is signed exactly like a request without a body. */
  lemma ChangeStateSignedAsNilBody(p: Platform, c: Client, id: Bytes, a: CardAction)
    requires BuildRequest(p, c, ActionCall(id, a)).Success?
    ensures HeaderGet(BuildRequest(p, c, ActionCall(id, a)).value.headers, Ascii("X-PAYLOAD-SIG"))
            == Some(Signer.Sign(p, c.secretKey, None))
  {
    Signer.NilBodySignedAsEmptyObject(p, c.secretKey);
  }
}
