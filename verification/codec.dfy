/**
 * encoding/json at the client's boundary: `json.Unmarshal`'s first stage (the
 * syntax check, which rejects an empty text outright) and `json.Marshal` of a
 * JSON value, written compactly with members in order.
 */
module Codec {
  import opened Wrappers
  import opened GoStrings
  import opened Json
  import opened Platform

  /**
   * The syntax stage of `json.Unmarshal`. Zero bytes are never a JSON text
   * ("unexpected end of JSON input"); everything else is left to the platform.
   */
  function ParseJson(p: Platform, text: Bytes): (r: Option<Json>)
    ensures |text| == 0 ==> r == None
    ensures |text| > 0 ==> r == p.parseJson(text)
  {
    if |text| == 0 then None else p.parseJson(text)
  }

  /** `json.Marshal`: compact output, object members in the order given, strings quoted by the platform. */
  function Marshal(p: Platform, j: Json): (r: Bytes)
    ensures j.JObject? ==> |r| >= 2 && r[0] == '{' as int && r[|r| - 1] == '}' as int
    ensures j.JArray? ==> |r| >= 2 && r[0] == '[' as int && r[|r| - 1] == ']' as int
    decreases j
  {
    match j
    case JNull => Ascii("null")
    case JBool(b) => if b then Ascii("true") else Ascii("false")
    case JNumber(lexeme) => lexeme
    case JString(text) => p.quoteJson(text)
    case JArray(items) => ['[' as int] + MarshalItems(p, items) + [']' as int]
    case JObject(members) => ['{' as int] + MarshalMembers(p, members) + ['}' as int]
  }

  /** Array elements separated by commas. */
  function MarshalItems(p: Platform, items: seq<Json>): Bytes
    decreases items
  {
    if |items| == 0 then []
    else if |items| == 1 then Marshal(p, items[0])
    else Marshal(p, items[0]) + [',' as int] + MarshalItems(p, items[1..])
  }

  /** Object members separated by commas. */
  function MarshalMembers(p: Platform, members: seq<Member>): Bytes
    decreases members
  {
    if |members| == 0 then []
    else if |members| == 1 then MarshalMember(p, members[0])
    else MarshalMember(p, members[0]) + [',' as int] + MarshalMembers(p, members[1..])
  }

  function MarshalMember(p: Platform, m: Member): Bytes
    decreases m
  {
    p.quoteJson(m.key) + [':' as int] + Marshal(p, m.value)
  }

  /** The two fixed bodies the client sends: an empty object is `{}` and a nil pointer is `null`. */
  lemma MarshalFixedBodies(p: Platform)
    ensures Marshal(p, JObject([])) == Ascii("{}")
    ensures Marshal(p, JNull) == Ascii("null")
  {
    assert Ascii("{}") == ['{' as int, '}' as int];
  }
}
