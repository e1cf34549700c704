/**
 * Request signing: the payload (or `{}` when the request has no body) is
 * Base64-encoded, the encoded text is MACed with HMAC-SHA256 under the
 * account's secret key, and the digest is sent as lower-case hex in the
 * `X-PAYLOAD-SIG` header.
 */
module Signer {
  import opened Wrappers
  import opened GoStrings
  import opened Json
  import opened Platform
  import Base64
  import Hex
  import Codec

  /** The text that is signed: the body bytes, or `{}` for a nil body. */
  function SignedPayload(body: Option<Bytes>): Bytes {
    match body
    case None => Ascii("{}")
    case Some(b) => b
  }

  /** The MAC's message: the signed payload in padded standard Base64, which decodes back to the payload. */
  function MacMessage(body: Option<Bytes>): (m: Bytes)
    ensures |m| == 4 * ((|SignedPayload(body)| + 2) / 3)
    ensures forall i :: 0 <= i < |m| ==> Base64.IsAlphabetChar(m[i]) || m[i] == Base64.Pad
    ensures Base64.Decode(m) == Some(SignedPayload(body))
    ensures Base64.CanonicalPad(m)
  {
    Base64.DecodeEncode(SignedPayload(body));
    Base64.EncodeCanonical(SignedPayload(body));
    Base64.Encode(SignedPayload(body))
  }

  /**
   * The MAC's message is pinned down: it is the only text with canonical
   * padding that decodes to the signed payload.
   */
  lemma MacMessageExact(body: Option<Bytes>, m: Bytes)
    requires Base64.CanonicalPad(m) && Base64.Decode(m) == Some(SignedPayload(body))
    ensures m == MacMessage(body)
  {
    Base64.EncodeDecode(m);
  }

  /**
   * `signRequest`: 64 lower-case hex characters, which read back as the
   * HMAC-SHA256 digest of the MAC message under the secret key.
   */
  function Sign(p: Platform, secret: Bytes, body: Option<Bytes>): (sig: Bytes)
    ensures |sig| == 64
    ensures forall i :: 0 <= i < |sig| ==> Hex.IsLowerHexDigit(sig[i])
    ensures Hex.DecodeHex(sig) == Some(p.hmacSha256(secret, MacMessage(body)))
  {
    var digest := p.hmacSha256(secret, MacMessage(body));
    Hex.DecodeLowerHex(digest);
    Hex.LowerHex(digest)
  }

  /**
   * A request without a body carries the same signature as one whose body is
   * an empty JSON object, which is what the card state changes send.
   */
  lemma NilBodySignedAsEmptyObject(p: Platform, secret: Bytes)
    ensures Sign(p, secret, None) == Sign(p, secret, Some(Codec.Marshal(p, JObject([]))))
  {
    Codec.MarshalFixedBodies(p);
  }
}
