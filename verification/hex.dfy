/**
 * Lower-case hexadecimal rendering of a byte string, as Go's `fmt.Sprintf("%x", b)`
 * writes a `[]byte`: two characters per byte, high nibble first.
 */
module Hex {
  import opened Wrappers
  import opened GoStrings

  type nibble = x: int | 0 <= x < 16

  predicate IsLowerHexDigit(c: byte) {
    '0' as int <= c <= '9' as int || 'a' as int <= c <= 'f' as int
  }

  function HexDigit(n: nibble): (c: byte)
    ensures IsLowerHexDigit(c)
  {
    if n < 10 then '0' as int + n else 'a' as int + (n - 10)
  }

  /** The value of a lower-case hex digit; upper-case letters and everything else have none. */
  function DigitValue(c: byte): (r: Option<nibble>)
    ensures r.Some? <==> IsLowerHexDigit(c)
  {
    if '0' as int <= c <= '9' as int then Some(c - '0' as int)
    else if 'a' as int <= c <= 'f' as int then Some(c - 'a' as int + 10)
    else None
  }

  /** `%x` of a byte slice. */
  function LowerHex(s: Bytes): (r: Bytes)
    ensures |r| == 2 * |s|
    ensures forall i :: 0 <= i < |r| ==> IsLowerHexDigit(r[i])
  {
    if |s| == 0 then [] else [HexDigit(s[0] / 16), HexDigit(s[0] % 16)] + LowerHex(s[1..])
  }

  /** The inverse of `LowerHex`: pairs of lower-case digits back to bytes. */
  function DecodeHex(s: Bytes): (r: Option<Bytes>)
    ensures r.Some? ==> 2 * |r.value| == |s|
    decreases |s|
  {
    if |s| == 0 then Some([])
    else if |s| == 1 then None
    else
      match (DigitValue(s[0]), DigitValue(s[1]), DecodeHex(s[2..]))
      case (Some(hi), Some(lo), Some(rest)) => Some([(hi as int) * 16 + lo as int] + rest)
      case _ => None
  }

  /** Round trip: the hex text of a byte string decodes back to it. */
  lemma {:induction false} DecodeLowerHex(s: Bytes)
    ensures DecodeHex(LowerHex(s)) == Some(s)
  {
    if |s| > 0 {
      var h := LowerHex(s);
      assert DigitValue(HexDigit(s[0] / 16)) == Some(s[0] / 16);
      assert DigitValue(HexDigit(s[0] % 16)) == Some(s[0] % 16);
      assert h[2..] == LowerHex(s[1..]);
      DecodeLowerHex(s[1..]);
      assert s == [s[0]] + s[1..];
    }
  }
}
