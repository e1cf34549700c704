/**
 * The parts of Go's net/url that shape the request paths: percent-encoding of
 * a path segment (`url.PathEscape`), of a whole path (`url.URL.EscapedPath`,
 * used by `url.URL.String`), the matching decoder (`url.PathUnescape`), and
 * `url.Values`, the multimap a query is built in. Escaping works byte by byte
 * and writes `%` and two upper-case hex digits (section 2.1 of RFC 3986).
 */
module Url {
  import opened Wrappers
  import opened GoStrings

  /** Which component is being escaped: one path segment, or a whole path. */
  datatype Mode = PathSegment | WholePath

  /** Letters, digits and `-`, `_`, `.`, `~`: never escaped. */
  predicate IsUnreserved(c: byte) {
    || 'a' as int <= c <= 'z' as int
    || 'A' as int <= c <= 'Z' as int
    || '0' as int <= c <= '9' as int
    || c == '-' as int || c == '_' as int || c == '.' as int || c == '~' as int
  }

  /** The reserved characters `$&+,/:;=?@`, which each mode treats differently. */
  predicate IsReserved(c: byte) {
    || c == '$' as int || c == '&' as int || c == '+' as int || c == ',' as int || c == '/' as int
    || c == ':' as int || c == ';' as int || c == '=' as int || c == '?' as int || c == '@' as int
  }

  /**
   * Go's `shouldEscape`: a segment keeps `$&+:=@` but escapes `/`, `;`, `,`
   * and `?`; a whole path keeps every reserved character except `?`. Every
   * other byte (`%`, space, non-ASCII bytes, ...) is always escaped.
   */
  predicate ShouldEscape(c: byte, mode: Mode) {
    if IsUnreserved(c) then false
    else if IsReserved(c) then
      match mode
      case WholePath => c == '?' as int
      case PathSegment => c == '/' as int || c == ';' as int || c == ',' as int || c == '?' as int
    else true
  }

  type nibble = x: int | 0 <= x < 16

  function UpperHexDigit(n: nibble): byte {
    if n < 10 then '0' as int + n else 'A' as int + (n - 10)
  }

  /** The value of a hex digit of either case, as `url.unhex` reads it. */
  function HexValue(c: byte): Option<nibble> {
    if '0' as int <= c <= '9' as int then Some(c - '0' as int)
    else if 'a' as int <= c <= 'f' as int then Some(c - 'a' as int + 10)
    else if 'A' as int <= c <= 'F' as int then Some(c - 'A' as int + 10)
    else None
  }

  function EscapeByte(c: byte, mode: Mode): Bytes {
    if ShouldEscape(c, mode) then ['%' as int, UpperHexDigit(c / 16), UpperHexDigit(c % 16)] else [c]
  }

  /** Go's `escape(s, mode)` for the two path modes. */
  function Escape(s: Bytes, mode: Mode): (r: Bytes)
    ensures |r| >= |s|
    ensures forall i :: 0 <= i < |r| ==> !ShouldEscape(r[i], mode) || r[i] == '%' as int
  {
    if |s| == 0 then [] else EscapeByte(s[0], mode) + Escape(s[1..], mode)
  }

  /** `url.PathEscape`: the escaped text never contains `/` or `?`, so it stays one path segment. */
  function PathEscape(s: Bytes): (r: Bytes)
    ensures forall i :: 0 <= i < |r| ==> r[i] != '/' as int && r[i] != '?' as int
  {
    Escape(s, PathSegment)
  }

  /** `url.URL.EscapedPath` for a URL whose `RawPath` is empty and whose path is not `*`. */
  function EscapedPath(path: Bytes): Bytes {
    Escape(path, WholePath)
  }

  /** `url.PathUnescape`: `%` must be followed by two hex digits; every other byte stands for itself. */
  function PathUnescape(s: Bytes): Option<Bytes>
    decreases |s|
  {
    if |s| == 0 then Some([])
    else if s[0] != '%' as int then
      match PathUnescape(s[1..])
      case None => None
      case Some(rest) => Some([s[0]] + rest)
    else if |s| < 3 then None
    else
      match (HexValue(s[1]), HexValue(s[2]), PathUnescape(s[3..]))
      case (Some(hi), Some(lo), Some(rest)) => Some([(hi as int) * 16 + lo as int] + rest)
      case _ => None
  }

  /** Escaping distributes over concatenation. */
  lemma {:induction false} EscapeAppend(a: Bytes, b: Bytes, mode: Mode)
    ensures Escape(a + b, mode) == Escape(a, mode) + Escape(b, mode)
    decreases |a|
  {
    if |a| > 0 {
      assert (a + b)[0] == a[0];
      assert (a + b)[1..] == a[1..] + b;
      EscapeAppend(a[1..], b, mode);
    } else {
      assert a + b == b;
    }
  }

  /** Round trip: unescaping undoes escaping in either mode, so an escaped identifier is recovered exactly. */
  lemma {:induction false} UnescapeEscape(s: Bytes, mode: Mode)
    ensures PathUnescape(Escape(s, mode)) == Some(s)
    decreases |s|
  {
    if |s| > 0 {
      var e := Escape(s, mode);
      var c := s[0];
      UnescapeEscape(s[1..], mode);
      if ShouldEscape(c, mode) {
        assert HexValue(UpperHexDigit(c / 16)) == Some(c / 16);
        assert HexValue(UpperHexDigit(c % 16)) == Some(c % 16);
        assert e[3..] == Escape(s[1..], mode);
      } else {
        assert e[1..] == Escape(s[1..], mode);
      }
      assert s == [c] + s[1..];
    }
  }

  /** Every byte of `s` passes through `Escape` in `mode` unchanged. */
  predicate Safe(s: Bytes, mode: Mode) {
    forall i :: 0 <= i < |s| ==> !ShouldEscape(s[i], mode)
  }

  /** `Escape` changes nothing exactly when no byte needs escaping; otherwise it lengthens the text by at least two. */
  lemma {:induction false} EscapeIdentity(s: Bytes, mode: Mode)
    ensures Safe(s, mode) ==> Escape(s, mode) == s
    ensures !Safe(s, mode) ==> |Escape(s, mode)| >= |s| + 2
    ensures Escape(s, mode) == s <==> Safe(s, mode)
    decreases |s|
  {
    if |s| > 0 {
      EscapeIdentity(s[1..], mode);
      assert s == [s[0]] + s[1..];
      if !ShouldEscape(s[0], mode) && !Safe(s, mode) {
        var i :| 0 <= i < |s| && ShouldEscape(s[i], mode);
        assert ShouldEscape(s[1..][i - 1], mode);
      }
    }
  }

  /** A byte that needs escaping leaves a `%` in the escaped text. */
  lemma {:induction false} EscapeLeavesPercent(s: Bytes, mode: Mode)
    requires !Safe(s, mode)
    ensures exists k :: 0 <= k < |Escape(s, mode)| && Escape(s, mode)[k] == '%' as int
    decreases |s|
  {
    if ShouldEscape(s[0], mode) {
      assert Escape(s, mode)[0] == '%' as int;
    } else {
      var i :| 0 <= i < |s| && ShouldEscape(s[i], mode);
      assert ShouldEscape(s[1..][i - 1], mode);
      EscapeLeavesPercent(s[1..], mode);
      var k :| 0 <= k < |Escape(s[1..], mode)| && Escape(s[1..], mode)[k] == '%' as int;
      assert Escape(s, mode)[k + 1] == '%' as int;
    }
  }

  lemma SafeAppend(a: Bytes, b: Bytes, mode: Mode)
    ensures Safe(a + b, mode) <==> Safe(a, mode) && Safe(b, mode)
  {
    if Safe(a, mode) && Safe(b, mode) {
      forall i | 0 <= i < |a + b|
        ensures !ShouldEscape((a + b)[i], mode)
      {
        if i >= |a| {
          assert (a + b)[i] == b[i - |a|];
        }
      }
    }
    if Safe(a + b, mode) {
      forall i | 0 <= i < |a|
        ensures !ShouldEscape(a[i], mode)
      {
        assert (a + b)[i] == a[i];
      }
      forall i | 0 <= i < |b|
        ensures !ShouldEscape(b[i], mode)
      {
        assert (a + b)[|a| + i] == b[i];
      }
    }
  }

  /**
   * A path-escaped segment passes through whole-path escaping unchanged
   * exactly when the original needed no escaping at all: otherwise it holds a
   * `%`, which whole-path escaping escapes again.
   */
  lemma SegmentSurvivesPathEscaping(s: Bytes)
    ensures Safe(PathEscape(s), WholePath) <==> Safe(s, PathSegment)
  {
    EscapeIdentity(s, PathSegment);
    if !Safe(s, PathSegment) {
      EscapeLeavesPercent(s, PathSegment);
      var k :| 0 <= k < |PathEscape(s)| && PathEscape(s)[k] == '%' as int;
      assert ShouldEscape(PathEscape(s)[k], WholePath);
    }
  }

  /** The segments of a path: the pieces between its `/` bytes (`strings.Split(path, "/")`). */
  function Segments(s: Bytes): (r: seq<Bytes>)
    ensures |r| >= 1
    decreases |s|
  {
    if |s| == 0 then [[]]
    else
      var rest := Segments(s[1..]);
      if s[0] == '/' as int then [[]] + rest else [[s[0]] + rest[0]] + rest[1..]
  }

  /** The inverse of `Segments`: the pieces joined with `/`. */
  function Join(segs: seq<Bytes>): Bytes
    decreases |segs|
  {
    if |segs| == 0 then []
    else if |segs| == 1 then segs[0]
    else segs[0] + ['/' as int] + Join(segs[1..])
  }

  predicate NoSlash(s: Bytes) {
    forall i :: 0 <= i < |s| ==> s[i] != '/' as int
  }

  lemma {:induction false} SegmentsOfNoSlash(s: Bytes)
    requires NoSlash(s)
    ensures Segments(s) == [s]
    decreases |s|
  {
    if |s| > 0 {
      SegmentsOfNoSlash(s[1..]);
      assert s == [s[0]] + s[1..];
    }
  }

  lemma {:induction false} SegmentsAround(a: Bytes, b: Bytes)
    ensures Segments(a + ['/' as int] + b) == Segments(a) + Segments(b)
    decreases |a|
  {
    var s := a + ['/' as int] + b;
    if |a| == 0 {
      assert s[1..] == b;
    } else {
      assert s[0] == a[0];
      assert s[1..] == a[1..] + ['/' as int] + b;
      SegmentsAround(a[1..], b);
    }
  }

  /** Round trip: a path joined from slash-free pieces splits back into exactly those pieces. */
  lemma {:induction false} SegmentsOfJoin(segs: seq<Bytes>)
    requires |segs| >= 1
    requires forall i :: 0 <= i < |segs| ==> NoSlash(segs[i])
    ensures Segments(Join(segs)) == segs
    decreases |segs|
  {
    if |segs| == 1 {
      SegmentsOfNoSlash(segs[0]);
    } else {
      SegmentsOfNoSlash(segs[0]);
      SegmentsOfJoin(segs[1..]);
      SegmentsAround(segs[0], Join(segs[1..]));
      assert segs == [segs[0]] + segs[1..];
    }
  }

  /** `url.Values`: each key maps to the list of values added under it. */
  type Values = map<Bytes, seq<Bytes>>

  /** `url.Values.Add`: appends a value under a key, creating the key if needed. */
  function Add(v: Values, key: Bytes, value: Bytes): (r: Values)
    ensures r.Keys == v.Keys + {key}
    ensures r[key] == (if key in v then v[key] else []) + [value]
    ensures forall k :: k in v && k != key ==> r[k] == v[k]
  {
    v[key := (if key in v then v[key] else []) + [value]]
  }
}
