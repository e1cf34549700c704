/**
 * The library code the client calls but that is not part of this model,
 * gathered as a record of functions. Every operation of the model takes a
 * `Platform`, so each property holds whatever these functions compute.
 */
module Platform {
  import opened Wrappers
  import opened GoStrings
  import opened Json
  import Url

  /** A SHA-256 sized digest. */
  type Digest = s: Bytes | |s| == 32 witness seq(32, _ => 0)

  /**
   * A Go `time.Time`. Only its identity matters here; the zero value
   * (`time.Time{}`) is `ZeroTime`.
   */
  datatype Time = Time(seconds: int, nanos: int, offset: int)

  const ZeroTime: Time := Time(0, 0, 0)

  datatype Platform = Platform(
    /** HMAC-SHA256 (RFC 2104 over FIPS 180-4 SHA-256): key, then message. */
    hmacSha256: (Bytes, Bytes) -> Digest,
    /** encoding/json's syntax check and parse of a non-empty text; `None` for a syntax error. */
    parseJson: Bytes -> Option<Json>,
    /** encoding/json's quoting of a string value, quotes included. */
    quoteJson: Bytes -> Bytes,
    /** `time.Time.UnmarshalJSON` on the text of a JSON string (RFC 3339). */
    parseRfc3339: Bytes -> Option<Time>,
    /** `time.Time.Format(time.RFC3339)`. */
    formatRfc3339: Time -> Bytes,
    /** `url.Values.Encode`: keys sorted, keys and values query-escaped, joined with `&`. */
    encodeQuery: Url.Values -> Bytes,
    /** Whether `http.NewRequestWithContext` accepts the URL (`url.Parse` succeeds). */
    parsesAsUrl: Bytes -> bool
  )
}
