/**
 * encoding/json's second stage: storing a parsed JSON value into a Go
 * variable of a given type, starting from the variable's current value.
 * The rules modelled are the ones the client's targets exercise:
 *   - an object fills a struct: each member goes to the first field whose
 *     name equals its key up to ASCII case, unknown keys are skipped, and a
 *     repeated key is stored again over the earlier value;
 *   - `null` leaves strings, ints, times and structs untouched, makes a slice
 *     nil, and is stored verbatim in a `json.RawMessage`;
 *   - an array fills a slice, one zero-valued element per item;
 *   - a JSON string fills a string or, through RFC 3339, a `time.Time`;
 *   - a number fills an `int` when `strconv.ParseInt` accepts it;
 *   - any other pairing is an error, and so is the whole call.
 */
module GoDecode {
  import opened Wrappers
  import opened GoStrings
  import opened Json
  import opened Platform

  /** The shapes of the Go types the client decodes into. */
  datatype GoType =
    | StringT
    | IntT
    | TimeT
    | RawT
    | StructT(fields: seq<Field>)
    | SliceT(elem: GoType)

  /** A struct field and the JSON name from its tag. */
  datatype Field = Field(name: Bytes, t: GoType)

  /** A Go value of one of those types; `VSlice(None)` is a nil slice, `VRaw(None)` an empty RawMessage. */
  datatype Value =
    | VString(s: Bytes)
    | VInt(i: int)
    | VTime(time: Time)
    | VRaw(raw: Option<Json>)
    | VStruct(fields: seq<Value>)
    | VSlice(items: Option<seq<Value>>)

  /** `v` is a value of type `t`. */
  predicate HasType(v: Value, t: GoType)
    decreases t, 0
  {
    match t
    case StringT => v.VString?
    case IntT => v.VInt? && MinInt64 <= v.i <= MaxInt64
    case TimeT => v.VTime?
    case RawT => v.VRaw?
    case StructT(fs) => v.VStruct? && FieldsHaveTypes(v.fields, fs)
    case SliceT(e) => v.VSlice? && (v.items.Some? ==> ItemsHaveType(v.items.value, e))
  }

  predicate FieldsHaveTypes(vs: seq<Value>, fs: seq<Field>)
    decreases fs
  {
    |vs| == |fs| && forall i :: 0 <= i < |fs| ==> FieldHasType(vs[i], fs[i])
  }

  predicate FieldHasType(v: Value, f: Field)
    decreases f
  {
    HasType(v, f.t)
  }

  predicate ItemsHaveType(vs: seq<Value>, t: GoType)
    decreases t, 1
  {
    forall i :: 0 <= i < |vs| ==> HasType(vs[i], t)
  }

  /** Go's zero value of a type. */
  function Zero(t: GoType): (v: Value)
    ensures HasType(v, t)
    decreases t
  {
    match t
    case StringT => VString([])
    case IntT => VInt(0)
    case TimeT => VTime(ZeroTime)
    case RawT => VRaw(None)
    case StructT(fs) => VStruct(ZeroFields(fs))
    case SliceT(_) => VSlice(None)
  }

  function ZeroFields(fs: seq<Field>): (vs: seq<Value>)
    ensures FieldsHaveTypes(vs, fs)
    decreases fs
  {
    if |fs| == 0 then [] else [ZeroField(fs[0])] + ZeroFields(fs[1..])
  }

  function ZeroField(f: Field): (v: Value)
    ensures FieldHasType(v, f)
    decreases f
  {
    Zero(f.t)
  }

  /** The field a JSON key is stored into: the first whose name equals the key up to ASCII case. */
  function FieldIndex(fs: seq<Field>, key: Bytes): (r: Option<nat>)
    ensures r.Some? ==> r.value < |fs| && FoldEq(fs[r.value].name, key)
    ensures r.Some? ==> forall i :: 0 <= i < r.value ==> !FoldEq(fs[i].name, key)
    ensures r.None? ==> forall i :: 0 <= i < |fs| ==> !FoldEq(fs[i].name, key)
  {
    if |fs| == 0 then None
    else if FoldEq(fs[0].name, key) then Some(0)
    else match FieldIndex(fs[1..], key)
      case None => None
      case Some(i) => Some(i + 1)
  }

  /** Stores `j` into a variable of type `t` that currently holds `cur`; `None` is a decode error. */
  function Decode(p: Platform, t: GoType, j: Json, cur: Value): (r: Option<Value>)
    requires HasType(cur, t)
    ensures r.Some? ==> HasType(r.value, t)
    decreases j
  {
    if t.RawT? then Some(VRaw(Some(j)))
    else
      match j
      case JNull => Some(if t.SliceT? then VSlice(None) else cur)
      case JBool(_) => None
      case JNumber(lexeme) =>
        if t.IntT? then
          match ParseInt64(lexeme)
          case Some(n) => Some(VInt(n))
          case None => None
        else None
      case JString(text) =>
        if t.StringT? then Some(VString(text))
        else if t.TimeT? then
          match p.parseRfc3339(text)
          case Some(tm) => Some(VTime(tm))
          case None => None
        else None
      case JArray(items) =>
        if t.SliceT? then
          match DecodeItems(p, t.elem, items)
          case Some(vs) => Some(VSlice(Some(vs)))
          case None => None
        else None
      case JObject(members) =>
        if t.StructT? then
          match DecodeMembers(p, t.fields, members, cur.fields)
          case Some(vs) => Some(VStruct(vs))
          case None => None
        else None
  }

  /** Array items, each stored into a fresh zero value of the element type. */
  function DecodeItems(p: Platform, t: GoType, items: seq<Json>): (r: Option<seq<Value>>)
    ensures r.Some? ==> |r.value| == |items| && ItemsHaveType(r.value, t)
    decreases items
  {
    if |items| == 0 then Some([])
    else
      match (Decode(p, t, items[0], Zero(t)), DecodeItems(p, t, items[1..]))
      case (Some(v), Some(vs)) => Some([v] + vs)
      case _ => None
  }

  /** Object members stored one after the other into the struct's fields. */
  function DecodeMembers(p: Platform, fs: seq<Field>, members: seq<Member>, cur: seq<Value>): (r: Option<seq<Value>>)
    requires FieldsHaveTypes(cur, fs)
    ensures r.Some? ==> FieldsHaveTypes(r.value, fs)
    decreases members
  {
    if |members| == 0 then Some(cur)
    else
      match DecodeMember(p, fs, members[0], cur)
      case None => None
      case Some(next) => DecodeMembers(p, fs, members[1..], next)
  }

  function DecodeMember(p: Platform, fs: seq<Field>, m: Member, cur: seq<Value>): (r: Option<seq<Value>>)
    requires FieldsHaveTypes(cur, fs)
    ensures r.Some? ==> FieldsHaveTypes(r.value, fs)
    decreases m
  {
    match FieldIndex(fs, m.key)
    case None => Some(cur)
    case Some(i) =>
      assert FieldHasType(cur[i], fs[i]);
      match Decode(p, fs[i].t, m.value, cur[i])
      case None => None
      case Some(v) =>
        assert FieldHasType(v, fs[i]);
        Some(cur[i := v])
  }

  /** `json.Unmarshal` of a whole JSON value into a fresh variable, which starts as the zero value. */
  function DecodeNew(p: Platform, t: GoType, j: Json): (r: Option<Value>)
    ensures r.Some? ==> HasType(r.value, t)
  {
    Decode(p, t, j, Zero(t))
  }

  function StringField(name: string): Field { Field(Ascii(name), StringT) }
  function IntField(name: string): Field { Field(Ascii(name), IntT) }
  function TimeField(name: string): Field { Field(Ascii(name), TimeT) }

  // Reading fields out of a decoded struct; a value of the wrong shape reads as the zero value.

  function StrAt(vs: seq<Value>, i: nat): Bytes {
    if i < |vs| && vs[i].VString? then vs[i].s else []
  }

  function IntAt(vs: seq<Value>, i: nat): int {
    if i < |vs| && vs[i].VInt? then vs[i].i else 0
  }

  function TimeAt(vs: seq<Value>, i: nat): Time {
    if i < |vs| && vs[i].VTime? then vs[i].time else ZeroTime
  }

  function FieldsOf(v: Value): seq<Value> {
    if v.VStruct? then v.fields else []
  }

  /** The elements of a slice value; a nil slice has none. */
  function ItemsOf(v: Value): (r: seq<Value>)
    ensures |r| == SliceLength(v)
  {
    if v.VSlice? && v.items.Some? then v.items.value else []
  }

  // ---------------------------------------------------------------------
  // What a struct field ends up holding, stated over the JSON members
  // directly: the last member whose key names the field decides.
  // ---------------------------------------------------------------------

  /** The value of the last member whose key equals `name` up to ASCII case. */
  function LastNamed(ms: seq<Member>, name: Bytes): Option<Json>
    decreases |ms|
  {
    if |ms| == 0 then None
    else
      match LastNamed(ms[1..], name)
      case Some(v) => Some(v)
      case None => if FoldEq(name, ms[0].key) then Some(ms[0].value) else None
  }

  /** The text of the last member named `name` that holds a JSON string (`null` members are skipped). */
  function LastStringNamed(ms: seq<Member>, name: Bytes): Option<Bytes>
    decreases |ms|
  {
    if |ms| == 0 then None
    else
      match LastStringNamed(ms[1..], name)
      case Some(s) => Some(s)
      case None => if FoldEq(name, ms[0].key) && ms[0].value.JString? then Some(ms[0].value.text) else None
  }

  /** Every member named `name` holds an array or `null`. */
  predicate NamedAreArraysOrNull(ms: seq<Member>, name: Bytes) {
    forall k :: 0 <= k < |ms| && FoldEq(name, ms[k].key) ==> ms[k].value.JNull? || ms[k].value.JArray?
  }

  /** Every member named `name` holds a string or `null`. */
  predicate NamedAreStringsOrNull(ms: seq<Member>, name: Bytes) {
    forall k :: 0 <= k < |ms| && FoldEq(name, ms[k].key) ==> ms[k].value.JNull? || ms[k].value.JString?
  }

  /** `len` of a Go slice value (a nil slice has length 0). */
  function SliceLength(v: Value): nat {
    if v.VSlice? && v.items.Some? then |v.items.value| else 0
  }

  /** The number of items of a JSON array; `null` counts as none. */
  function ArrayLength(j: Json): nat {
    if j.JArray? then |j.items| else 0
  }

  /** Every JSON value can be held in a `json.RawMessage`, so an array always fills a `[]json.RawMessage`. */
  lemma {:induction false} RawItemsAlwaysDecode(p: Platform, items: seq<Json>)
    ensures DecodeItems(p, RawT, items).Some?
    decreases |items|
  {
    if |items| > 0 {
      RawItemsAlwaysDecode(p, items[1..]);
    }
  }

  /**
   * A struct whose only field `name` is a slice: decoding succeeds only when
   * every member named `name` is an array or `null`, and then the slice is
   * as long as the last such member (or unchanged when there is none). For a
   * slice of raw messages that condition is also sufficient.
   */
  lemma {:induction false} SliceFieldLength(p: Platform, name: Bytes, e: GoType, ms: seq<Member>, cur: seq<Value>)
    requires FieldsHaveTypes(cur, [Field(name, SliceT(e))])
    ensures var r := DecodeMembers(p, [Field(name, SliceT(e))], ms, cur);
      && (r.Some? ==> NamedAreArraysOrNull(ms, name))
      && (r.Some? ==> SliceLength(r.value[0]) == match LastNamed(ms, name) case None => SliceLength(cur[0]) case Some(j) => ArrayLength(j))
      && (e == RawT ==> (r.Some? <==> NamedAreArraysOrNull(ms, name)))
    decreases |ms|
  {
    var fs := [Field(name, SliceT(e))];
    if |ms| > 0 {
      var m := ms[0];
      var step := DecodeMember(p, fs, m, cur);
      if FoldEq(name, m.key) {
        assert FieldIndex(fs, m.key) == Some(0);
        var d := Decode(p, SliceT(e), m.value, cur[0]);
        assert step == (match d case None => None case Some(v) => Some(cur[0 := v]));
        match m.value
        case JNull =>
          assert d == Some(VSlice(None));
        case JArray(items) =>
          if e == RawT {
            RawItemsAlwaysDecode(p, items);
          }
          assert d == (match DecodeItems(p, e, items) case Some(vs) => Some(VSlice(Some(vs))) case None => None);
        case _ =>
          assert d == None;
      } else {
        assert FieldIndex(fs, m.key) == None;
        assert step == Some(cur);
      }
      if step.Some? {
        SliceFieldLength(p, name, e, ms[1..], step.value);
        assert forall k :: 1 <= k < |ms| ==> ms[k] == ms[1..][k - 1];
      } else if e == RawT {
        assert FoldEq(name, ms[0].key) && !(ms[0].value.JNull? || ms[0].value.JArray?);
      }
    }
  }

  /** No two field names are equal up to ASCII case, so a key names at most one field. */
  predicate DistinctNames(fs: seq<Field>) {
    forall i, j :: 0 <= i < j < |fs| ==> !FoldEq(fs[i].name, fs[j].name)
  }

  predicate AllStrings(fs: seq<Field>) {
    forall i :: 0 <= i < |fs| ==> fs[i].t == StringT
  }

  /** The zero value of a struct of strings holds empty strings. */
  lemma {:induction false} ZeroStrings(fs: seq<Field>)
    requires AllStrings(fs)
    ensures forall i :: 0 <= i < |fs| ==> ZeroFields(fs)[i] == VString([])
    decreases |fs|
  {
    if |fs| > 0 {
      assert fs[0].t == StringT;
      assert ZeroField(fs[0]) == VString([]);
      assert ZeroFields(fs) == [ZeroField(fs[0])] + ZeroFields(fs[1..]);
      ZeroStrings(fs[1..]);
    }
  }

  /** With distinct names, the field a key is stored into is exactly the one it names. */
  lemma FieldIndexNames(fs: seq<Field>, key: Bytes, i: nat)
    requires DistinctNames(fs) && i < |fs|
    ensures FieldIndex(fs, key) == Some(i) <==> FoldEq(fs[i].name, key)
  {
    var r := FieldIndex(fs, key);
    if FoldEq(fs[i].name, key) {
      var k := r.value;
      FoldEqEquivalence(fs[i].name, fs[k].name, key);
      FoldEqEquivalence(fs[k].name, fs[i].name, key);
    }
  }

  /** A struct of string fields: each field holds the last string member naming it, or keeps its value. */
  predicate StringFieldsFilled(fs: seq<Field>, ms: seq<Member>, cur: seq<Value>, out: seq<Value>)
    requires |cur| == |fs| && |out| == |fs|
  {
    forall i :: 0 <= i < |fs| ==>
      out[i] == match LastStringNamed(ms, fs[i].name) case Some(s) => VString(s) case None => cur[i]
  }

  /**
   * A struct of string fields with distinct names: decoding succeeds exactly
   * when every member naming a field is a string or `null`, and then each
   * field holds the last string member naming it, or keeps its value.
   */
  lemma {:induction false} StringFields(p: Platform, fs: seq<Field>, ms: seq<Member>, cur: seq<Value>)
    requires AllStrings(fs) && DistinctNames(fs) && FieldsHaveTypes(cur, fs)
    ensures var r := DecodeMembers(p, fs, ms, cur);
      && (r.Some? <==> forall i :: 0 <= i < |fs| ==> NamedAreStringsOrNull(ms, fs[i].name))
      && (r.Some? ==> StringFieldsFilled(fs, ms, cur, r.value))
    decreases |ms|
  {
    if |ms| > 0 {
      var m := ms[0];
      var rest := ms[1..];
      assert forall k :: 1 <= k < |ms| ==> ms[k] == rest[k - 1];
      var step := DecodeMember(p, fs, m, cur);
      match FieldIndex(fs, m.key)
      case None =>
        assert step == Some(cur);
        StringFields(p, fs, rest, cur);
        forall i | 0 <= i < |fs|
          ensures NamedAreStringsOrNull(ms, fs[i].name) <==> NamedAreStringsOrNull(rest, fs[i].name)
          ensures LastStringNamed(ms, fs[i].name) == LastStringNamed(rest, fs[i].name)
        {
          assert !FoldEq(fs[i].name, m.key);
        }
      case Some(i0) =>
        assert FoldEq(fs[i0].name, m.key);
        assert fs[i0].t == StringT;
        var d := Decode(p, StringT, m.value, cur[i0]);
        assert step == (match d case None => None case Some(v) => Some(cur[i0 := v]));
        if m.value.JString? || m.value.JNull? {
          assert d == Some(if m.value.JString? then VString(m.value.text) else cur[i0]);
          var next := step.value;
          StringFields(p, fs, rest, next);
          forall i | 0 <= i < |fs|
            ensures NamedAreStringsOrNull(ms, fs[i].name) <==> NamedAreStringsOrNull(rest, fs[i].name)
            ensures i != i0 ==> LastStringNamed(ms, fs[i].name) == LastStringNamed(rest, fs[i].name)
          {
            FieldIndexNames(fs, m.key, i);
          }
        } else {
          assert d == None;
          assert !NamedAreStringsOrNull(ms, fs[i0].name);
        }
    }
  }
}
