/**
 * An abstract JSON value: what Go's encoding/json sees after its syntax check.
 * Strings are held as their decoded bytes; numbers as their literal text, since
 * the client only ever reads them into Go `int` fields. Object members keep
 * their order and may repeat a key, as JSON text can.
 */
module Json {
  import opened GoStrings

  datatype Json =
    | JNull
    | JBool(b: bool)
    | JNumber(lexeme: Bytes)
    | JString(text: Bytes)
    | JArray(items: seq<Json>)
    | JObject(members: seq<Member>)

  datatype Member = Member(key: Bytes, value: Json)
}
