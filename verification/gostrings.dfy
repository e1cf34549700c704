/**
 * Go strings are immutable byte sequences, and so are this model's: every
 * string of the client (identifiers, header values, paths, JSON text) is a
 * `Bytes`. Literals in the model are written as ASCII and converted with
 * `Ascii`. The module also holds the two decimal conversions the client
 * relies on: `%d` formatting and `strconv.ParseInt(s, 10, 64)`.
 */
module GoStrings {
  import opened Wrappers

  type byte = x: int | 0 <= x < 256
  type Bytes = seq<byte>

  const MinInt64: int := -0x8000_0000_0000_0000
  const MaxInt64: int := 0x7FFF_FFFF_FFFF_FFFF

  /** The bytes of an ASCII literal (one byte per character). */
  function Ascii(s: string): (r: Bytes)
    ensures |r| == |s|
    ensures forall i :: 0 <= i < |s| && s[i] < 128 as char ==> r[i] == s[i] as int
  {
    seq(|s|, i requires 0 <= i < |s| => (s[i] as int) % 256)
  }

  /** ASCII lower-casing of one byte; every other byte is left alone. */
  function AsciiLower(b: byte): byte {
    if 'A' as int <= b <= 'Z' as int then b + 32 else b
  }

  /** Equality up to ASCII case, the rule encoding/json uses to match object keys to struct fields. */
  predicate FoldEq(a: Bytes, b: Bytes) {
    |a| == |b| && forall i :: 0 <= i < |a| ==> AsciiLower(a[i]) == AsciiLower(b[i])
  }

  /** `FoldEq` is an equivalence: two names equal to a third up to case are equal to each other. */
  lemma FoldEqEquivalence(a: Bytes, b: Bytes, c: Bytes)
    ensures FoldEq(a, a)
    ensures FoldEq(a, b) ==> FoldEq(b, a)
    ensures FoldEq(a, c) && FoldEq(b, c) ==> FoldEq(a, b)
  {
  }

  /** The bytes of `s` before the first `c` (all of `s` when there is none). */
  function TakeUntil(s: Bytes, c: byte): (r: Bytes)
    ensures |r| <= |s| && r == s[..|r|]
  {
    if |s| == 0 || s[0] == c then [] else [s[0]] + TakeUntil(s[1..], c)
  }

  /** Cutting at the first `c` of `a + b` gives `a` when `a` has no `c` and `b` is empty or starts with one. */
  lemma {:induction false} TakeUntilPrefix(a: Bytes, b: Bytes, c: byte)
    requires forall i :: 0 <= i < |a| ==> a[i] != c
    requires |b| == 0 || b[0] == c
    ensures TakeUntil(a + b, c) == a
    decreases |a|
  {
    if |a| == 0 {
      assert a + b == b;
    } else {
      assert (a + b)[1..] == a[1..] + b;
      TakeUntilPrefix(a[1..], b, c);
    }
  }

  predicate IsDigit(b: byte) {
    '0' as int <= b <= '9' as int
  }

  predicate AllDigits(s: Bytes) {
    forall i :: 0 <= i < |s| ==> IsDigit(s[i])
  }

  /** The decimal digits of `n`, most significant first, without leading zeros. */
  function DecimalDigits(n: nat): (r: Bytes)
    ensures |r| > 0 && AllDigits(r)
    ensures |r| > 1 ==> r[0] != '0' as int
    decreases n
  {
    if n < 10 then [48 + n] else DecimalDigits(n / 10) + [48 + n % 10]
  }

  /** The number a non-empty run of decimal digits denotes. */
  function DigitsValue(s: Bytes): nat
    requires AllDigits(s)
    decreases |s|
  {
    if |s| == 0 then 0 else DigitsValue(s[..|s| - 1]) * 10 + (s[|s| - 1] - 48)
  }

  lemma {:induction false} DigitsValueOfDecimalDigits(n: nat)
    ensures DigitsValue(DecimalDigits(n)) == n
    decreases n
  {
    if n >= 10 {
      var d := DecimalDigits(n / 10) + [48 + n % 10];
      assert d[..|d| - 1] == DecimalDigits(n / 10);
      DigitsValueOfDecimalDigits(n / 10);
    }
  }

  /** Go's `%d` (and `strconv.Itoa`) rendering of an integer. */
  function FormatInt(n: int): (r: Bytes)
    ensures |r| > 0
    ensures n < 0 <==> r[0] == '-' as int
    ensures n >= 0 ==> AllDigits(r)
  {
    if n < 0 then [45] + DecimalDigits(-n) else DecimalDigits(n)
  }

  /**
   * `strconv.ParseInt(s, 10, 64)`: an optional sign, then at least one
   * decimal digit and nothing else; values outside the 64-bit range are
   * errors.
   */
  function ParseInt64(s: Bytes): (r: Option<int>)
    ensures r.Some? ==> MinInt64 <= r.value <= MaxInt64
    ensures r.Some? ==> exists i :: 0 <= i < |s| && IsDigit(s[i])
  {
    var signed := |s| > 0 && (s[0] == '+' as int || s[0] == '-' as int);
    var digits := if signed then s[1..] else s;
    if |digits| == 0 || !AllDigits(digits) then None
    else
      assert IsDigit(s[|s| - 1]);
      var magnitude: int := DigitsValue(digits);
      var v: int := if signed && s[0] == '-' as int then -magnitude else magnitude;
      if MinInt64 <= v <= MaxInt64 then Some(v) else None
  }

  /** `%d` and `ParseInt` are inverse on the 64-bit range. */
  lemma ParseFormatRoundTrip(n: int)
    requires MinInt64 <= n <= MaxInt64
    ensures ParseInt64(FormatInt(n)) == Some(n)
  {
    var r := FormatInt(n);
    if n < 0 {
      assert r[1..] == DecimalDigits(-n);
      DigitsValueOfDecimalDigits(-n);
    } else {
      DigitsValueOfDecimalDigits(n);
    }
  }
}
