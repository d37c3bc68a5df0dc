/**
 * The sentinel codec of the routing headers: a name that cannot stand in a header travels as "=?base64?" + base64 +
 * "?=", with the base64 of section 4 of RFC 4648. `utf8` is the UTF-8 test, any predicate here.
 */
module HeaderCodec {
  import opened Base64
  import opened Text

  type Utf8 = Bytes -> bool

  /** "=?base64?" and "?=" */
  const PREFIX: Bytes := [0x3D, 0x3F, 0x62, 0x61, 0x73, 0x65, 0x36, 0x34, 0x3F]
  const SUFFIX: Bytes := [0x3F, 0x3D]
  const MAX_ROUTING_VALUE_BYTES := 4096

  // ---- The header value ----

  predicate PrintableAscii(v: Bytes) {
    forall i :: 0 <= i < |v| ==> 0x20 <= v[i] <= 0x7E
  }

  predicate SentinelShaped(v: Bytes) {
    |v| >= |PREFIX| + |SUFFIX| && v[..|PREFIX|] == PREFIX && v[|v| - |SUFFIX|..] == SUFFIX
  }

  predicate HeaderSafe(v: Bytes) {
    v != [] && PrintableAscii(v) && v[0] != SPACE && v[|v| - 1] != SPACE && !SentinelShaped(v)
  }

  function EncodeHeaderValue(v: Bytes): Bytes {
    if HeaderSafe(v) then v else PREFIX + Encode64(v) + SUFFIX
  }

  function DecodeHeaderValue(utf8: Utf8, v: Bytes): Option<Bytes> {
    if !SentinelShaped(v) then Some(v)
    else
      var decoded := Decode64(v[|PREFIX|..|v| - |SUFFIX|]);
      if decoded == None || |decoded.value| > MAX_ROUTING_VALUE_BYTES || !utf8(decoded.value) then None else decoded
  }

  lemma WrappedIsSentinel(b: Bytes)
    ensures var w := PREFIX + b + SUFFIX; SentinelShaped(w) && w[|PREFIX|..|w| - |SUFFIX|] == b
  {
    var w := PREFIX + b + SUFFIX;
    assert w[..|PREFIX|] == PREFIX;
    assert w[|w| - |SUFFIX|..] == SUFFIX;
  }

  /**
   * The round trip, for every byte string: a value comes back exactly when it stands in the clear, or is UTF-8 of at
   * most the bound. Sentinel-looking and empty names are among those that come back.
   */
  lemma HeaderRoundTrip(utf8: Utf8, v: Bytes)
    ensures DecodeHeaderValue(utf8, EncodeHeaderValue(v)) == Some(v)
         <==> HeaderSafe(v) || (|v| <= MAX_ROUTING_VALUE_BYTES && utf8(v))
    ensures DecodeHeaderValue(utf8, EncodeHeaderValue(v)) in {Some(v), None}
  {
    hide Encode64, Decode64, SentinelShaped, PrintableAscii;
    if !HeaderSafe(v) {
      WrappedIsSentinel(Encode64(v));
      Base64RoundTrip(v);
    }
  }

  /** No two names share a header value, whatever their bytes. */
  lemma EncodingIsInjective(a: Bytes, b: Bytes)
    requires EncodeHeaderValue(a) == EncodeHeaderValue(b)
    ensures a == b
  {
    hide Encode64, Decode64, SentinelShaped, PrintableAscii;
    WrappedIsSentinel(Encode64(a));
    WrappedIsSentinel(Encode64(b));
    Base64RoundTrip(a);
    Base64RoundTrip(b);
  }

  /** What is written is always non-empty printable ASCII with no space at either end. */
  lemma EncodedStandsInAHeader(v: Bytes)
    ensures var e := EncodeHeaderValue(v); e != [] && PrintableAscii(e) && e[0] != SPACE && e[|e| - 1] != SPACE
  {
    Base64IsVisible(v);
    hide Encode64;
    var w := PREFIX + Encode64(v) + SUFFIX;
    assert forall i :: 0 <= i < |w| ==>
      w[i] == if i < |PREFIX| then PREFIX[i] else if i < |w| - |SUFFIX| then Encode64(v)[i - |PREFIX|] else SUFFIX[i - (|w| - |SUFFIX|)];
  }

  /** The decoder accepts other spellings of a name (line breaks, loose bits under the padding), but only of that name. */
  lemma ASpellingNamesOneValue(utf8: Utf8, v: Bytes, h: Bytes)
    requires DecodeHeaderValue(utf8, h) == Some(v) && SentinelShaped(h)
    ensures |v| <= MAX_ROUTING_VALUE_BYTES && utf8(v) && DecodeHeaderValue(utf8, EncodeHeaderValue(v)) == Some(v)
  {
    hide Encode64, Decode64;
    HeaderRoundTrip(utf8, v);
  }
}
