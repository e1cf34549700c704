/**
 * Base64 with the standard alphabet and `=` padding (section 4 of RFC 4648),
 * as produced by Go's `base64.StdEncoding.EncodeToString`. The request signer
 * MACs this text rather than the JSON body itself.
 */
module Base64 {
  import opened Wrappers
  import opened GoStrings

  type sextet = x: int | 0 <= x < 64

  const Pad: byte := '=' as int

  /** The 64 characters of the standard alphabet: `A`-`Z`, `a`-`z`, `0`-`9`, `+`, `/`. */
  predicate IsAlphabetChar(c: byte) {
    || 'A' as int <= c <= 'Z' as int
    || 'a' as int <= c <= 'z' as int
    || '0' as int <= c <= '9' as int
    || c == '+' as int
    || c == '/' as int
  }

  /** The alphabet character that stands for a 6-bit value. */
  function EncodeSextet(x: sextet): (c: byte)
    ensures IsAlphabetChar(c)
  {
    if x < 26 then 'A' as int + x
    else if x < 52 then 'a' as int + (x - 26)
    else if x < 62 then '0' as int + (x - 52)
    else if x == 62 then '+' as int
    else '/' as int
  }

  /** The 6-bit value of an alphabet character; anything else (padding included) has none. */
  function DecodeChar(c: byte): (r: Option<sextet>)
    ensures r.Some? <==> IsAlphabetChar(c)
  {
    if 'A' as int <= c <= 'Z' as int then Some(c - 'A' as int)
    else if 'a' as int <= c <= 'z' as int then Some(c - 'a' as int + 26)
    else if '0' as int <= c <= '9' as int then Some(c - '0' as int + 52)
    else if c == '+' as int then Some(62)
    else if c == '/' as int then Some(63)
    else None
  }

  lemma DecodeEncodeSextet(x: sextet)
    ensures DecodeChar(EncodeSextet(x)) == Some(x)
  {
  }

  /** Encoding of a byte string: every 3 bytes become 4 characters; a final 1 or 2 bytes are padded to 4. */
  function Encode(s: Bytes): (r: Bytes)
    ensures |r| == 4 * ((|s| + 2) / 3)
    ensures forall i :: 0 <= i < |r| ==> IsAlphabetChar(r[i]) || r[i] == Pad
    decreases |s|
  {
    if |s| == 0 then []
    else if |s| == 1 then
      [EncodeSextet(s[0] / 4), EncodeSextet((s[0] % 4) * 16), Pad, Pad]
    else if |s| == 2 then
      [EncodeSextet(s[0] / 4), EncodeSextet((s[0] % 4) * 16 + s[1] / 16), EncodeSextet((s[1] % 16) * 4), Pad]
    else
      [ EncodeSextet(s[0] / 4), EncodeSextet((s[0] % 4) * 16 + s[1] / 16),
        EncodeSextet((s[1] % 16) * 4 + s[2] / 64), EncodeSextet(s[2] % 64) ]
      + Encode(s[3..])
  }

  /**
   * Decoding of padded standard-alphabet text (the inverse of `Encode`):
   * groups of four characters, padding only in the last group.
   */
  function Decode(s: Bytes): (r: Option<Bytes>)
    ensures r.Some? ==> |s| % 4 == 0
    decreases |s|
  {
    if |s| == 0 then Some([])
    else if |s| < 4 then None
    else
      var group := DecodeQuad(s[0], s[1], s[2], s[3], |s| == 4);
      var rest := Decode(s[4..]);
      if group.None? || rest.None? then None
      else
        LengthStep(|s|);
        Some(group.value + rest.value)
  }

  lemma LengthStep(n: int)
    requires n >= 4 && (n - 4) % 4 == 0
    ensures n % 4 == 0
  {
  }

  /** One group of four characters; only the last group may end in one or two `=`. */
  function DecodeQuad(a: byte, b: byte, c: byte, d: byte, last: bool): Option<Bytes> {
    var c0, c1, c2, c3 := DecodeChar(a), DecodeChar(b), DecodeChar(c), DecodeChar(d);
    if c0.None? || c1.None? then None
    else if last && c == Pad && d == Pad then Some([Byte0(c0.value, c1.value)])
    else if last && c2.Some? && d == Pad then Some([Byte0(c0.value, c1.value), Byte1(c1.value, c2.value)])
    else if c2.None? || c3.None? then None
    else Some([Byte0(c0.value, c1.value), Byte1(c1.value, c2.value), Byte2(c2.value, c3.value)])
  }

  /** The first byte of a group: six bits of the first character, two of the second. */
  function Byte0(x0: sextet, x1: sextet): byte {
    x0 * 4 + x1 / 16
  }

  /** The second byte of a group: four bits of the second character, four of the third. */
  function Byte1(x1: sextet, x2: sextet): byte {
    (x1 % 16) * 16 + x2 / 4
  }

  /** The third byte of a group: two bits of the third character, six of the fourth. */
  function Byte2(x2: sextet, x3: sextet): byte {
    (x2 % 4) * 64 + x3
  }

  /** The three bytes of a full group come back from its four characters. */
  lemma DecodeGroup(a: byte, b: byte, c: byte)
    ensures ((a / 4) * 4 + ((a % 4) * 16 + b / 16) / 16) == a
    ensures ((((a % 4) * 16 + b / 16) % 16) * 16 + ((b % 16) * 4 + c / 64) / 4) == b
    ensures ((((b % 16) * 4 + c / 64) % 4) * 64 + c % 64) == c
  {
  }

  /** A final single byte comes back from its padded group. */
  lemma DecodeLastOne(a: byte)
    ensures Decode(Encode([a])) == Some([a])
  {
    var e := Encode([a]);
    DecodeEncodeSextet(a / 4);
    DecodeEncodeSextet((a % 4) * 16);
    assert Byte0(a / 4, (a % 4) * 16) == a;
    assert e[4..] == [];
    assert DecodeQuad(e[0], e[1], e[2], e[3], true) == Some([a]);
    assert Decode(e[4..]) == Some([]);
    assert [a] + [] == [a];
  }

  /** A final pair of bytes comes back from its padded group. */
  lemma DecodeLastTwo(a: byte, b: byte)
    ensures Decode(Encode([a, b])) == Some([a, b])
  {
    var e := Encode([a, b]);
    var x0, x1, x2 := a / 4, (a % 4) * 16 + b / 16, (b % 16) * 4;
    DecodeEncodeSextet(x0);
    DecodeEncodeSextet(x1);
    DecodeEncodeSextet(x2);
    DecodeGroup(a, b, 0);
    assert e == [EncodeSextet(x0), EncodeSextet(x1), EncodeSextet(x2), Pad];
    assert e[2] != Pad;
    assert Byte0(x0, x1) == a && Byte1(x1, x2) == b;
    assert e[4..] == [];
    assert DecodeQuad(e[0], e[1], e[2], e[3], true) == Some([a, b]);
    assert Decode(e[4..]) == Some([]);
    assert [a, b] + [] == [a, b];
  }

  /** Decoding a text that starts with four alphabet characters peels off one full group. */
  lemma DecodeUnfoldGroup(s: Bytes)
    requires |s| >= 4
    requires IsAlphabetChar(s[0]) && IsAlphabetChar(s[1]) && IsAlphabetChar(s[2]) && IsAlphabetChar(s[3])
    ensures Decode(s) == (
      var x0, x1, x2, x3 := DecodeChar(s[0]).value, DecodeChar(s[1]).value, DecodeChar(s[2]).value, DecodeChar(s[3]).value;
      match Decode(s[4..])
      case None => None
      case Some(r) => Some([Byte0(x0, x1), Byte1(x1, x2), Byte2(x2, x3)] + r))
  {
  }

  /** A full group decodes to its three bytes followed by whatever the rest decodes to. */
  lemma DecodeFullGroup(a: byte, b: byte, c: byte, rest: Bytes)
    ensures Decode(Encode([a, b, c]) + rest) == (match Decode(rest) case None => None case Some(r) => Some([a, b, c] + r))
  {
    var x0, x1, x2, x3 := a / 4, (a % 4) * 16 + b / 16, (b % 16) * 4 + c / 64, c % 64;
    DecodeEncodeSextet(x0);
    DecodeEncodeSextet(x1);
    DecodeEncodeSextet(x2);
    DecodeEncodeSextet(x3);
    DecodeGroup(a, b, c);
    var g := [EncodeSextet(x0), EncodeSextet(x1), EncodeSextet(x2), EncodeSextet(x3)];
    assert Encode([a, b, c]) == g + Encode([]);
    var s := g + rest;
    assert s[4..] == rest;
    DecodeUnfoldGroup(s);
    assert Byte0(x0, x1) == a;
    assert Byte1(x1, x2) == b;
    assert Byte2(x2, x3) == c;
  }

  /** Round trip: decoding what `Encode` produced gives back the original bytes. */
  lemma {:induction false} DecodeEncode(s: Bytes)
    ensures Decode(Encode(s)) == Some(s)
    decreases |s|
  {
    if |s| == 1 {
      assert s == [s[0]];
      DecodeLastOne(s[0]);
    } else if |s| == 2 {
      assert s == [s[0], s[1]];
      DecodeLastTwo(s[0], s[1]);
    } else if |s| >= 3 {
      var head := [s[0], s[1], s[2]];
      assert s == head + s[3..];
      assert Encode(s) == Encode(head) + Encode(s[3..]) by {
        assert head[3..] == [];
      }
      DecodeEncode(s[3..]);
      DecodeFullGroup(s[0], s[1], s[2], Encode(s[3..]));
    }
  }

  /**
   * The padding bits of a padded last group are zero, as `Encode` leaves
   * them: before `==` the last character carries only 2 data bits, so its
   * value is a multiple of 16; before a single `=` it carries 4, so its
   * value is a multiple of 4. Decoding ignores these bits, so without this
   * condition several texts decode to the same bytes.
   */
  predicate CanonicalPad(s: Bytes) {
    |s| >= 4 && s[|s| - 1] == Pad ==>
      if s[|s| - 2] == Pad then LowBitsZero(s[|s| - 3], 16) else LowBitsZero(s[|s| - 2], 4)
  }

  /** The character's value, if it has one, is a multiple of `k`. */
  predicate LowBitsZero(c: byte, k: nat)
    requires k > 0
  {
    DecodeChar(c).Some? ==> DecodeChar(c).value % k == 0
  }

  lemma EncodeDecodeChar(c: byte)
    requires IsAlphabetChar(c)
    ensures EncodeSextet(DecodeChar(c).value) == c
  {
  }

  /** `Encode` leaves the padding bits zero. */
  lemma {:induction false} EncodeCanonical(s: Bytes)
    ensures CanonicalPad(Encode(s))
    decreases |s|
  {
    var e := Encode(s);
    if |s| == 1 {
      DecodeEncodeSextet((s[0] % 4) * 16);
    } else if |s| == 2 {
      DecodeEncodeSextet((s[1] % 16) * 4);
    } else if |s| == 3 {
      assert e[3] == EncodeSextet(s[2] % 64);
    } else if |s| > 3 {
      var rest := Encode(s[3..]);
      EncodeCanonical(s[3..]);
      assert |rest| >= 4;
      assert e[|e| - 1] == rest[|rest| - 1];
      assert e[|e| - 2] == rest[|rest| - 2];
      assert e[|e| - 3] == rest[|rest| - 3];
    }
  }

  /** A full group of three bytes encodes as the four characters of its sextets. */
  lemma EncodeFullGroup(x0: sextet, x1: sextet, x2: sextet, x3: sextet, rest: Bytes)
    ensures Encode([Byte0(x0, x1), Byte1(x1, x2), Byte2(x2, x3)] + rest)
         == [EncodeSextet(x0), EncodeSextet(x1), EncodeSextet(x2), EncodeSextet(x3)] + Encode(rest)
  {
    var a, b, c := Byte0(x0, x1), Byte1(x1, x2), Byte2(x2, x3);
    var s := [a, b, c] + rest;
    assert s[3..] == rest;
    assert a / 4 == x0 && (a % 4) * 16 + b / 16 == x1;
    assert (b % 16) * 4 + c / 64 == x2 && c % 64 == x3;
  }

  /** A last group with `==` and canonical padding is what `Encode` makes of its one byte. */
  lemma EncodeOneByteGroup(x0: sextet, x1: sextet)
    requires x1 % 16 == 0
    ensures Encode([Byte0(x0, x1)]) == [EncodeSextet(x0), EncodeSextet(x1), Pad, Pad]
  {
    var a := Byte0(x0, x1);
    assert a / 4 == x0 && (a % 4) * 16 == x1;
  }

  /** A last group with one `=` and canonical padding is what `Encode` makes of its two bytes. */
  lemma EncodeTwoByteGroup(x0: sextet, x1: sextet, x2: sextet)
    requires x2 % 4 == 0
    ensures Encode([Byte0(x0, x1), Byte1(x1, x2)]) == [EncodeSextet(x0), EncodeSextet(x1), EncodeSextet(x2), Pad]
  {
    var a, b := Byte0(x0, x1), Byte1(x1, x2);
    assert a / 4 == x0 && (a % 4) * 16 + b / 16 == x1;
    assert (b % 16) * 4 == x2;
  }

  /** The last group: a canonical text of four characters is the encoding of what it decodes to. */
  lemma EncodeLastGroup(m: Bytes)
    requires |m| == 4 && CanonicalPad(m)
    requires DecodeQuad(m[0], m[1], m[2], m[3], true).Some?
    ensures Encode(DecodeQuad(m[0], m[1], m[2], m[3], true).value) == m
  {
    if m[2] == Pad && m[3] == Pad {
      LastGroupOneByte(m);
    } else if m[3] == Pad {
      LastGroupTwoBytes(m);
    } else {
      LastGroupThreeBytes(m);
    }
  }

  lemma LastGroupOneByte(m: Bytes)
    requires |m| == 4 && m[2] == Pad && m[3] == Pad && LowBitsZero(m[1], 16)
    requires DecodeQuad(m[0], m[1], m[2], m[3], true).Some?
    ensures Encode(DecodeQuad(m[0], m[1], m[2], m[3], true).value) == m
  {
    var c0, c1 := DecodeChar(m[0]), DecodeChar(m[1]);
    EncodeDecodeChar(m[0]);
    EncodeDecodeChar(m[1]);
    assert DecodeQuad(m[0], m[1], m[2], m[3], true).value == [Byte0(c0.value, c1.value)];
    EncodeOneByteGroup(c0.value, c1.value);
  }

  lemma LastGroupTwoBytes(m: Bytes)
    requires |m| == 4 && m[2] != Pad && m[3] == Pad && LowBitsZero(m[2], 4)
    requires DecodeQuad(m[0], m[1], m[2], m[3], true).Some?
    ensures Encode(DecodeQuad(m[0], m[1], m[2], m[3], true).value) == m
  {
    var c0, c1, c2 := DecodeChar(m[0]), DecodeChar(m[1]), DecodeChar(m[2]);
    EncodeDecodeChar(m[0]);
    EncodeDecodeChar(m[1]);
    EncodeDecodeChar(m[2]);
    assert DecodeQuad(m[0], m[1], m[2], m[3], true).value == [Byte0(c0.value, c1.value), Byte1(c1.value, c2.value)];
    EncodeTwoByteGroup(c0.value, c1.value, c2.value);
  }

  lemma LastGroupThreeBytes(m: Bytes)
    requires |m| == 4 && m[3] != Pad
    requires DecodeQuad(m[0], m[1], m[2], m[3], true).Some?
    ensures Encode(DecodeQuad(m[0], m[1], m[2], m[3], true).value) == m
  {
    var c0, c1, c2, c3 := DecodeChar(m[0]), DecodeChar(m[1]), DecodeChar(m[2]), DecodeChar(m[3]);
    EncodeDecodeChar(m[0]);
    EncodeDecodeChar(m[1]);
    EncodeDecodeChar(m[2]);
    EncodeDecodeChar(m[3]);
    assert DecodeQuad(m[0], m[1], m[2], m[3], true).value
        == [Byte0(c0.value, c1.value), Byte1(c1.value, c2.value), Byte2(c2.value, c3.value)];
    EncodeFullGroup(c0.value, c1.value, c2.value, c3.value, []);
    assert [EncodeSextet(c0.value), EncodeSextet(c1.value), EncodeSextet(c2.value), EncodeSextet(c3.value)] + [] == m;
  }

  /** A text longer than one group decodes its first group in full and the rest on its own. */
  lemma DecodeFirstGroup(m: Bytes)
    requires |m| > 4 && Decode(m).Some?
    ensures IsAlphabetChar(m[0]) && IsAlphabetChar(m[1]) && IsAlphabetChar(m[2]) && IsAlphabetChar(m[3])
    ensures Decode(m[4..]).Some?
    ensures Decode(m).value
         == [ Byte0(DecodeChar(m[0]).value, DecodeChar(m[1]).value),
              Byte1(DecodeChar(m[1]).value, DecodeChar(m[2]).value),
              Byte2(DecodeChar(m[2]).value, DecodeChar(m[3]).value) ] + Decode(m[4..]).value
  {
  }

  /** Dropping a first group keeps the padding condition, which is about the last group only. */
  lemma CanonicalPadTail(m: Bytes)
    requires |m| >= 8 && CanonicalPad(m)
    ensures CanonicalPad(m[4..])
  {
    var rest := m[4..];
    assert rest[|rest| - 1] == m[|m| - 1] && rest[|rest| - 2] == m[|m| - 2] && rest[|rest| - 3] == m[|m| - 3];
  }

  /**
   * Round trip the other way: a text that decodes and has canonical padding
   * is exactly the encoding of what it decodes to. So `Encode` is the only
   * canonical text for a byte string.
   */
  lemma {:induction false} EncodeDecode(m: Bytes)
    requires CanonicalPad(m) && Decode(m).Some?
    ensures Encode(Decode(m).value) == m
    decreases |m|
  {
    if |m| == 4 {
      EncodeDecodeLastGroup(m);
    } else if |m| > 4 {
      DecodeFirstGroup(m);
      CanonicalPadTail(m);
      EncodeDecode(m[4..]);
      EncodeDecodeStep(m);
    }
  }

  lemma EncodeDecodeLastGroup(m: Bytes)
    requires |m| == 4 && CanonicalPad(m) && Decode(m).Some?
    ensures Encode(Decode(m).value) == m
  {
    DecodeOneGroup(m);
    EncodeLastGroup(m);
  }

  /** A text of one group decodes as that group, the last one. */
  lemma DecodeOneGroup(m: Bytes)
    requires |m| == 4
    ensures Decode(m) == DecodeQuad(m[0], m[1], m[2], m[3], true)
  {
    assert m[4..] == [];
    var g := DecodeQuad(m[0], m[1], m[2], m[3], true);
    if g.Some? {
      assert g.value + [] == g.value;
    }
  }

  /** One group more: if the rest re-encodes to itself, so does the whole text. */
  lemma EncodeDecodeStep(m: Bytes)
    requires |m| > 4 && Decode(m).Some? && Decode(m[4..]).Some?
    requires Encode(Decode(m[4..]).value) == m[4..]
    ensures Encode(Decode(m).value) == m
  {
    var r := Decode(m[4..]).value;
    DecodeFirstGroup(m);
    var x0, x1, x2, x3 := DecodeChar(m[0]).value, DecodeChar(m[1]).value, DecodeChar(m[2]).value, DecodeChar(m[3]).value;
    GroupOfChars(m[0], m[1], m[2], m[3]);
    EncodeFullGroup(x0, x1, x2, x3, r);
    SplitGroup(m);
  }

  lemma SplitGroup(m: Bytes)
    requires |m| >= 4
    ensures m == [m[0], m[1], m[2], m[3]] + m[4..]
  {
  }

  lemma GroupOfChars(a: byte, b: byte, c: byte, d: byte)
    requires IsAlphabetChar(a) && IsAlphabetChar(b) && IsAlphabetChar(c) && IsAlphabetChar(d)
    ensures [EncodeSextet(DecodeChar(a).value), EncodeSextet(DecodeChar(b).value),
             EncodeSextet(DecodeChar(c).value), EncodeSextet(DecodeChar(d).value)] == [a, b, c, d]
  {
    EncodeDecodeChar(a);
    EncodeDecodeChar(b);
    EncodeDecodeChar(c);
    EncodeDecodeChar(d);
  }
}
