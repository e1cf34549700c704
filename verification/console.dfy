/**
 * `ConsoleService`: the card-template operations of the enterprise console
 * and a template's event log, whose query carries only the filters that
 * are set.
 */
module Console {
  import opened Wrappers
  import opened GoStrings
  import opened Json
  import opened Platform
  import opened GoDecode
  import opened Errors
  import opened Models
  import opened Url
  import opened Client
  import opened Routes
  import Codec
  import Signer

  function CreateTemplateCall(params: Json): Call { Call(Post, TemplatesPath, Body(params), Some(TemplateType)) }
  function UpdateTemplateCall(id: Bytes, params: Json): Call { Call(Put, TemplatePath(id), Body(params), Some(TemplateType)) }
  function ReadTemplateCall(id: Bytes): Call { Call(Get, TemplatePath(id), NilBody, Some(TemplateType)) }
  const ListTemplatesCall: Call := Call(Get, TemplatesPath, NilBody, Some(SliceT(TemplateType)))
  function DeleteTemplateCall(id: Bytes): Call { Call(Delete, TemplatePath(id), NilBody, None) }

  /** `CreateTemplate`: POST the parameters to the collection and decode a template. */
  function CreateTemplate(p: Platform, net: Network, c: Client, params: Json): (r: Result<Template, Error>)
    ensures Settles(p, Answer(p, net, c, CreateTemplateCall(params)), TemplateType, TemplateOf, Ascii("error creating template"), r)
  {
    Typed(p, net, c, CreateTemplateCall(params), TemplateOf, "error creating template")
  }

  /** `UpdateTemplate`: PUT the parameters to the template's path and decode a template. */
  function UpdateTemplate(p: Platform, net: Network, c: Client, id: Bytes, params: Json): (r: Result<Template, Error>)
    ensures Settles(p, Answer(p, net, c, UpdateTemplateCall(id, params)), TemplateType, TemplateOf, Ascii("error updating template"), r)
  {
    Typed(p, net, c, UpdateTemplateCall(id, params), TemplateOf, "error updating template")
  }

  /** `ReadTemplate`: GET the template's path without a body and decode a template. */
  function ReadTemplate(p: Platform, net: Network, c: Client, id: Bytes): (r: Result<Template, Error>)
    ensures Settles(p, Answer(p, net, c, ReadTemplateCall(id)), TemplateType, TemplateOf, Ascii("error reading template"), r)
  {
    Typed(p, net, c, ReadTemplateCall(id), TemplateOf, "error reading template")
  }

  function TemplateList(v: Value): seq<Template> {
    TemplatesOf(ItemsOf(v))
  }

  /** `ListTemplates`: GET the collection without a body and decode a bare array of templates. */
  function ListTemplates(p: Platform, net: Network, c: Client): (r: Result<seq<Template>, Error>)
    ensures Settles(p, Answer(p, net, c, ListTemplatesCall), SliceT(TemplateType), TemplateList, Ascii("error listing templates"), r)
  {
    Typed(p, net, c, ListTemplatesCall, TemplateList, "error listing templates")
  }

  /** A listed array yields one template per item. */
  lemma ListTemplatesCount(p: Platform, net: Network, c: Client, items: seq<Json>)
    requires var a := Answer(p, net, c, ListTemplatesCall);
      a.Some? && a.value.Received? && a.value.response.status < 400
      && Codec.ParseJson(p, a.value.response.body) == Some(JArray(items))
    requires ListTemplates(p, net, c).Success?
    ensures |ListTemplates(p, net, c).value| == |items|
  {
    var resp := Answer(p, net, c, ListTemplatesCall).value.response;
    assert |resp.body| > 0;
    var v := DecodeNew(p, SliceT(TemplateType), JArray(items));
    assert v.Some? && ListTemplates(p, net, c) == Success(TemplateList(v.value));
  }

  /** `DeleteTemplate`: DELETE the template's path without a body; the response body is never read. */
  function DeleteTemplate(p: Platform, net: Network, c: Client, id: Bytes): (r: Option<Error>)
    ensures Completes(p, Answer(p, net, c, DeleteTemplateCall(id)), Ascii("error deleting template"), r)
  {
    Untyped(p, net, c, DeleteTemplateCall(id), "error deleting template")
  }

  /** Reading, listing and deleting templates send no body, so each is signed as the text `{}`. */
  lemma BodilessCallsSignedAsEmptyObject(p: Platform, c: Client, id: Bytes)
    requires BuildRequest(p, c, ReadTemplateCall(id)).Success?
    requires BuildRequest(p, c, ListTemplatesCall).Success?
    requires BuildRequest(p, c, DeleteTemplateCall(id)).Success?
    ensures HeaderGet(BuildRequest(p, c, ReadTemplateCall(id)).value.headers, Ascii("X-PAYLOAD-SIG"))
            == Some(Signer.Sign(p, c.secretKey, Some(Ascii("{}"))))
    ensures HeaderGet(BuildRequest(p, c, ListTemplatesCall).value.headers, Ascii("X-PAYLOAD-SIG"))
            == Some(Signer.Sign(p, c.secretKey, Some(Ascii("{}"))))
    ensures HeaderGet(BuildRequest(p, c, DeleteTemplateCall(id)).value.headers, Ascii("X-PAYLOAD-SIG"))
            == Some(Signer.Sign(p, c.secretKey, Some(Ascii("{}"))))
  {
    Signer.NilBodySignedAsEmptyObject(p, c.secretKey);
    Codec.MarshalFixedBodies(p);
  }

  // ---------------------------------------------------------------------
  // EventLog
  // ---------------------------------------------------------------------

  const DeviceKey: Bytes := Ascii("device")
  const StartDateKey: Bytes := Ascii("start_date")
  const EndDateKey: Bytes := Ascii("end_date")
  const EventTypeKey: Bytes := Ascii("event_type")

  /** The four query keys are distinct, so each filter lands under a key of its own. */
  lemma KeysDistinct()
    ensures DeviceKey != StartDateKey && DeviceKey != EndDateKey && DeviceKey != EventTypeKey
    ensures StartDateKey != EndDateKey && StartDateKey != EventTypeKey && EndDateKey != EventTypeKey
  {
    assert |DeviceKey| == 6 && |EndDateKey| == 8 && |StartDateKey| == 10 && |EventTypeKey| == 10;
    assert StartDateKey[0] != EventTypeKey[0];
  }

  predicate NoFilter(f: EventLogFilters) {
    f.device == [] && f.startDate.None? && f.endDate.None? && f.eventType == []
  }

  /**
   * The event-log query: `device` and `event_type` when non-empty, the dates
   * (RFC 3339) when given, each key with exactly one value, and no other key.
   */
  function EventLogQuery(p: Platform, f: EventLogFilters): (q: Values)
    ensures DeviceKey in q <==> f.device != []
    ensures DeviceKey in q ==> q[DeviceKey] == [f.device]
    ensures StartDateKey in q <==> f.startDate.Some?
    ensures StartDateKey in q ==> q[StartDateKey] == [p.formatRfc3339(f.startDate.value)]
    ensures EndDateKey in q <==> f.endDate.Some?
    ensures EndDateKey in q ==> q[EndDateKey] == [p.formatRfc3339(f.endDate.value)]
    ensures EventTypeKey in q <==> f.eventType != []
    ensures EventTypeKey in q ==> q[EventTypeKey] == [f.eventType]
    ensures q.Keys <= {DeviceKey, StartDateKey, EndDateKey, EventTypeKey}
    ensures |q| == 0 <==> NoFilter(f)
  {
    KeysDistinct();
    var q := FilterQuery(Keys(DeviceKey, StartDateKey, EndDateKey, EventTypeKey), f,
                         if f.startDate.Some? then p.formatRfc3339(f.startDate.value) else [],
                         if f.endDate.Some? then p.formatRfc3339(f.endDate.value) else []);
    QueryEmptyWithoutFilters(q, f);
    q
  }

  /** The names the four filters are sent under. */
  datatype Keys = Keys(device: Bytes, startDate: Bytes, endDate: Bytes, eventType: Bytes)

  predicate Distinct(k: Keys) {
    && k.device != k.startDate && k.device != k.endDate && k.device != k.eventType
    && k.startDate != k.endDate && k.startDate != k.eventType && k.endDate != k.eventType
  }

  /** The filters added in order, each under its key when set; `start` and `end` are the formatted dates. */
  function FilterQuery(k: Keys, f: EventLogFilters, start: Bytes, end: Bytes): (q: Values)
    requires Distinct(k)
    ensures k.device in q <==> f.device != []
    ensures k.device in q ==> q[k.device] == [f.device]
    ensures k.startDate in q <==> f.startDate.Some?
    ensures k.startDate in q ==> q[k.startDate] == [start]
    ensures k.endDate in q <==> f.endDate.Some?
    ensures k.endDate in q ==> q[k.endDate] == [end]
    ensures k.eventType in q <==> f.eventType != []
    ensures k.eventType in q ==> q[k.eventType] == [f.eventType]
    ensures q.Keys <= {k.device, k.startDate, k.endDate, k.eventType}
  {
    var q1 := AddIf(map[], f.device != [], k.device, f.device);
    var q2 := AddIf(q1, f.startDate.Some?, k.startDate, start);
    var q3 := AddIf(q2, f.endDate.Some?, k.endDate, end);
    AddIf(q3, f.eventType != [], k.eventType, f.eventType)
  }

  /** A query holding only the filter keys, each exactly when its filter is set, is empty exactly without filters. */
  lemma QueryEmptyWithoutFilters(q: Values, f: EventLogFilters)
    requires DeviceKey in q <==> f.device != []
    requires StartDateKey in q <==> f.startDate.Some?
    requires EndDateKey in q <==> f.endDate.Some?
    requires EventTypeKey in q <==> f.eventType != []
    requires q.Keys <= {DeviceKey, StartDateKey, EndDateKey, EventTypeKey}
    ensures |q| == 0 <==> NoFilter(f)
  {
    if NoFilter(f) {
      assert q.Keys == {};
      assert q == map[];
    } else {
      assert DeviceKey in q || StartDateKey in q || EndDateKey in q || EventTypeKey in q;
      assert q != map[];
    }
  }

  /** One `if ... { query.Add(key, value) }` of `EventLog`, for a key not yet in the query. */
  function AddIf(q: Values, cond: bool, key: Bytes, value: Bytes): (r: Values)
    requires key !in q
    ensures r.Keys == if cond then q.Keys + {key} else q.Keys
    ensures cond ==> r[key] == [value]
    ensures forall k :: k in q ==> r[k] == q[k]
  {
    if cond then Add(q, key, value) else q
  }

  /** `?` and the encoded query, when `RawQuery` ends up non-empty; nothing otherwise. */
  function QuerySuffix(p: Platform, q: Values): Bytes {
    var raw := if |q| > 0 then p.encodeQuery(q) else [];
    if raw == [] then [] else Ascii("?") + raw
  }

  /**
   * The event-log path as `EventLog` builds it: the path-escaped id is
   * placed in `url.URL.Path`, and `URL.String` escapes that path once more.
   */
  function EventLogPathAsWritten(p: Platform, id: Bytes, f: EventLogFilters): Bytes {
    EscapedPath(LogsPath(id)) + QuerySuffix(p, EventLogQuery(p, f))
  }

  /**
   * The event-log path with the id escaped once: everything before the first
   * `?` is the log path of the id; without filters there is no query, and
   * with filters the encoded query follows a `?` (unless it encodes to
   * nothing, as `URL.String` leaves out an empty query).
   */
  function EventLogPath(p: Platform, id: Bytes, f: EventLogFilters): (r: Bytes)
    ensures TakeUntil(r, '?' as int) == LogsPath(id)
    ensures NoFilter(f) ==> r == LogsPath(id)
    ensures !NoFilter(f) && p.encodeQuery(EventLogQuery(p, f)) != [] ==>
      r == LogsPath(id) + Ascii("?") + p.encodeQuery(EventLogQuery(p, f))
    ensures !NoFilter(f) && p.encodeQuery(EventLogQuery(p, f)) == [] ==> r == LogsPath(id)
  {
    var suffix := QuerySuffix(p, EventLogQuery(p, f));
    LogsPathHasNoQuestionMark(id);
    TakeUntilPrefix(LogsPath(id), suffix, '?' as int);
    LogsPath(id) + suffix
  }

  /** The fixed pieces of the log path need no escaping in a whole path. */
  lemma LiteralPiecesSafe()
    ensures Safe(TemplatesPath, WholePath)
    ensures Safe(Ascii("/"), WholePath)
    ensures Safe(Ascii("logs"), WholePath)
  {
    TemplatesLiteralSafe();
  }

  lemma TemplatesLiteralSafe()
    ensures Safe(Ascii("/v1/console/card-templates"), WholePath)
  {
    var s := Ascii("/v1/console/card-templates");
    forall i | 0 <= i < |s|
      ensures !ShouldEscape(s[i], WholePath)
    {
    }
  }

  /** A log path never holds `?`, so it is never taken for the start of a query. */
  lemma LogsPathHasNoQuestionMark(id: Bytes)
    ensures forall i :: 0 <= i < |LogsPath(id)| ==> LogsPath(id)[i] != '?' as int
  {
    LiteralPiecesSafe();
    var head, e, tail := TemplatesPath + Ascii("/"), PathEscape(id), Ascii("/") + Ascii("logs");
    SafeAppend(TemplatesPath, Ascii("/"), WholePath);
    SafeAppend(Ascii("/"), Ascii("logs"), WholePath);
    assert LogsPath(id) == head + e + tail;
    forall i | 0 <= i < |LogsPath(id)|
      ensures LogsPath(id)[i] != '?' as int
    {
      if i < |head| {
        assert LogsPath(id)[i] == head[i];
        assert !ShouldEscape(head[i], WholePath);
      } else if i < |head| + |e| {
        assert LogsPath(id)[i] == e[i - |head|];
      } else {
        assert LogsPath(id)[i] == tail[i - |head| - |e|];
        assert !ShouldEscape(tail[i - |head| - |e|], WholePath);
      }
    }
  }

  /** The log path survives whole-path escaping exactly when the id needs no path escaping. */
  lemma LogsPathSafe(id: Bytes)
    ensures Safe(LogsPath(id), WholePath) <==> Safe(id, PathSegment)
  {
    LiteralPiecesSafe();
    SafeAppend(TemplatesPath, Ascii("/"), WholePath);
    SafeAppend(TemplatesPath + Ascii("/"), PathEscape(id), WholePath);
    SafeAppend(TemplatePath(id), Ascii("/"), WholePath);
    SafeAppend(TemplatePath(id) + Ascii("/"), Ascii("logs"), WholePath);
    SegmentSurvivesPathEscaping(id);
  }

  /**
   * The as-written event-log path agrees with the intended one exactly when
   * the id has no byte that path escaping changes; for every other id the
   * `%` of each escape is escaped a second time.
   */
  lemma EventLogEscapesTwice(p: Platform, id: Bytes, f: EventLogFilters)
    ensures EventLogPathAsWritten(p, id, f) == EventLogPath(p, id, f) <==> Safe(id, PathSegment)
  {
    var suffix := QuerySuffix(p, EventLogQuery(p, f));
    EscapeIdentity(LogsPath(id), WholePath);
    LogsPathSafe(id);
    if !Safe(id, PathSegment) {
      assert |EventLogPathAsWritten(p, id, f)| >= |EventLogPath(p, id, f)| + 2;
    }
  }

  /** An id with a space: the intended path carries `a%20b`, the as-written one `a%2520b`. */
  lemma EventLogSpaceInId(p: Platform, f: EventLogFilters)
    ensures PathEscape(Ascii("a b")) == Ascii("a%20b")
    ensures EscapedPath(Ascii("a%20b")) == Ascii("a%2520b")
    ensures EventLogPathAsWritten(p, Ascii("a b"), f) != EventLogPath(p, Ascii("a b"), f)
  {
    var id := Ascii("a b");
    assert ShouldEscape(id[1], PathSegment);
    EventLogEscapesTwice(p, id, f);
    SpaceEscapes();
  }

  lemma SpaceEscapes()
    ensures PathEscape(Ascii("a b")) == Ascii("a%20b")
    ensures EscapedPath(Ascii("a%20b")) == Ascii("a%2520b")
  {
    SpaceEscapedOnce();
    PercentEscapedAgain();
  }

  lemma SpaceEscapedOnce()
    ensures PathEscape(Ascii("a b")) == Ascii("a%20b")
  {
    var a, b := 'a' as int, 'b' as int;
    assert Ascii("a b") == [a, ' ' as int, b];
    assert Escape([b], PathSegment) == [b];
    assert Escape([' ' as int, b], PathSegment) == ['%' as int, '2' as int, '0' as int, b];
    assert Ascii("a%20b") == [a, '%' as int, '2' as int, '0' as int, b];
  }

  lemma PercentEscapedAgain()
    ensures EscapedPath(Ascii("a%20b")) == Ascii("a%2520b")
  {
    var a, b := 'a' as int, 'b' as int;
    assert Ascii("a%20b") == [a, '%' as int, '2' as int, '0' as int, b];
    assert Escape([b], WholePath) == [b];
    assert Escape(['0' as int, b], WholePath) == ['0' as int, b];
    assert Escape(['2' as int, '0' as int, b], WholePath) == ['2' as int, '0' as int, b];
    assert Escape(['%' as int, '2' as int, '0' as int, b], WholePath) == ['%' as int, '2' as int, '5' as int, '2' as int, '0' as int, b];
    assert Ascii("a%2520b") == [a, '%' as int, '2' as int, '5' as int, '2' as int, '0' as int, b];
  }


  function EventLogCall(p: Platform, id: Bytes, f: EventLogFilters): Call {
    Call(Get, EventLogPath(p, id, f), NilBody, Some(SliceT(EventType)))
  }

  function EventList(v: Value): seq<Event> {
    EventsOf(ItemsOf(v))
  }

  /** `EventLog`: GET the template's log path with the filters as its query, and decode a bare array of events. */
  function EventLog(p: Platform, net: Network, c: Client, id: Bytes, f: EventLogFilters): (r: Result<seq<Event>, Error>)
    ensures Settles(p, Answer(p, net, c, EventLogCall(p, id, f)), SliceT(EventType), EventList, Ascii("error fetching event log"), r)
  {
    Typed(p, net, c, EventLogCall(p, id, f), EventList, "error fetching event log")
  }

  function EventLogCallAsWritten(p: Platform, id: Bytes, f: EventLogFilters): Call {
    Call(Get, EventLogPathAsWritten(p, id, f), NilBody, Some(SliceT(EventType)))
  }

  /** `EventLog` exactly as written: the request goes to the twice-escaped path. */
  function EventLogAsWritten(p: Platform, net: Network, c: Client, id: Bytes, f: EventLogFilters): (r: Result<seq<Event>, Error>)
    ensures Settles(p, Answer(p, net, c, EventLogCallAsWritten(p, id, f)), SliceT(EventType), EventList, Ascii("error fetching event log"), r)
  {
    Typed(p, net, c, EventLogCallAsWritten(p, id, f), EventList, "error fetching event log")
  }

  /**
   * The as-written and the corrected `EventLog` send the same request, and so
   * end the same way, exactly when the id needs no path escaping.
   */
  lemma EventLogAsWrittenAgrees(p: Platform, net: Network, c: Client, id: Bytes, f: EventLogFilters)
    ensures EventLogCallAsWritten(p, id, f) == EventLogCall(p, id, f) <==> Safe(id, PathSegment)
    ensures Safe(id, PathSegment) ==> EventLogAsWritten(p, net, c, id, f) == EventLog(p, net, c, id, f)
  {
    EventLogEscapesTwice(p, id, f);
  }

  /**
   * A fetched array yields one event per item: this holds of any outcome
   * `EventLog` settles on, whatever the filters made of the path.
   */
  lemma EventLogCount(p: Platform, resp: Response, items: seq<Json>, r: Result<seq<Event>, Error>)
    requires Settles(p, Some(Received(resp)), SliceT(EventType), EventList, Ascii("error fetching event log"), r)
    requires resp.status < 400 && Codec.ParseJson(p, resp.body) == Some(JArray(items))
    requires r.Success?
    ensures |r.value| == |items|
  {
    assert |resp.body| > 0;
    var v := DecodeNew(p, SliceT(EventType), JArray(items));
    assert v.Some? && r == Success(EventList(v.value));
  }
}
