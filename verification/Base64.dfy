/** Standard base64, section 4 of RFC 4648, as Go's decoder reads it. */
module Base64 {
  import opened Text

  const PAD: byte := 0x3D

  type sextet = x: int | 0 <= x < 64

  function Letter(x: sextet): byte {
    if x < 26 then 0x41 + x else if x < 52 then 0x61 + (x - 26) else if x < 62 then 0x30 + (x - 52)
    else if x == 62 then 0x2B else 0x2F
  }

  function Sextet(c: byte): Option<sextet> {
    if 0x41 <= c <= 0x5A then Some(c - 0x41)
    else if 0x61 <= c <= 0x7A then Some(c - 0x61 + 26)
    else if 0x30 <= c <= 0x39 then Some(c - 0x30 + 52)
    else if c == 0x2B then Some(62) else if c == 0x2F then Some(63)
    else None
  }

  function Encode64(v: Bytes): Bytes
    decreases |v|
  {
    if v == [] then []
    else if |v| == 1 then [Letter(v[0] / 4), Letter(v[0] % 4 * 16), PAD, PAD]
    else if |v| == 2 then [Letter(v[0] / 4), Letter(v[0] % 4 * 16 + v[1] / 16), Letter(v[1] % 16 * 4), PAD]
    else [Letter(v[0] / 4), Letter(v[0] % 4 * 16 + v[1] / 16), Letter(v[1] % 16 * 4 + v[2] / 64), Letter(v[2] % 64)]
         + Encode64(v[3..])
  }

  /** The decoder skips line breaks wherever they stand. */
  function SkipBreaks(s: Bytes): Bytes {
    if s == [] then []
    else SkipBreaks(s[..|s| - 1]) + if s[|s| - 1] == CR || s[|s| - 1] == LF then [] else [s[|s| - 1]]
  }

  /** The three bytes of a quad. */
  function First(a: sextet, b: sextet): byte {
    a * 4 + b / 16
  }

  function Second(b: sextet, c: sextet): byte {
    b % 16 * 16 + c / 4
  }

  function Third(c: sextet, d: sextet): byte {
    c % 4 * 64 + d
  }

  /** Quads of letters; padding only in the last one, and the bits under it are not looked at. */
  function DecodeQuads(s: Bytes): Option<Bytes>
    decreases |s|
  {
    if s == [] then Some([])
    else if |s| < 4 then None
    else
      var a, b, c, d := Sextet(s[0]), Sextet(s[1]), Sextet(s[2]), Sextet(s[3]);
      if a == None || b == None then None
      else if s[2] == PAD then
        if s[3] == PAD && |s| == 4 then Some([First(a.value, b.value)]) else None
      else if c == None then None
      else if s[3] == PAD then
        if |s| == 4 then Some([First(a.value, b.value), Second(b.value, c.value)]) else None
      else if d == None then None
      else
        var rest := DecodeQuads(s[4..]);
        if rest == None then None
        else Some([First(a.value, b.value), Second(b.value, c.value), Third(c.value, d.value)] + rest.value)
  }

  function Decode64(s: Bytes): Option<Bytes> {
    DecodeQuads(SkipBreaks(s))
  }

  lemma LetterReads(x: sextet)
    ensures Sextet(Letter(x)) == Some(x) && Letter(x) != PAD && 0x21 <= Letter(x) <= 0x7E
  {
  }

  lemma GroupReads(x: byte, y: byte, z: byte)
    ensures First(x / 4, x % 4 * 16 + y / 16) == x
    ensures Second(x % 4 * 16 + y / 16, y % 16 * 4 + z / 64) == y
    ensures Third(y % 16 * 4 + z / 64, z % 64) == z
  {
  }

  lemma OneByteReads(x: byte)
    ensures DecodeQuads([Letter(x / 4), Letter(x % 4 * 16), PAD, PAD]) == Some([x])
  {
    GroupReads(x, 0, 0);
    LetterReads(x / 4);
    LetterReads(x % 4 * 16);
    hide Letter, Sextet, First, Second, Third;
  }

  lemma TwoBytesRead(x: byte, y: byte)
    ensures DecodeQuads([Letter(x / 4), Letter(x % 4 * 16 + y / 16), Letter(y % 16 * 4), PAD]) == Some([x, y])
  {
    GroupReads(x, y, 0);
    LetterReads(x / 4);
    LetterReads(x % 4 * 16 + y / 16);
    LetterReads(y % 16 * 4);
    hide Letter, Sextet, First, Second, Third;
  }

  lemma ThreeBytesRead(x: byte, y: byte, z: byte, rest: Bytes)
    requires DecodeQuads(rest).Some?
    ensures DecodeQuads([Letter(x / 4), Letter(x % 4 * 16 + y / 16), Letter(y % 16 * 4 + z / 64), Letter(z % 64)] + rest)
         == Some([x, y, z] + DecodeQuads(rest).value)
  {
    var s0: sextet, s1: sextet, s2: sextet, s3: sextet := x / 4, x % 4 * 16 + y / 16, y % 16 * 4 + z / 64, z % 64;
    GroupReads(x, y, z);
    hide Letter, Sextet, First, Second, Third;
    QuadReads(s0, s1, s2, s3, rest);
  }

  lemma QuadReads(a: sextet, b: sextet, c: sextet, d: sextet, rest: Bytes)
    requires DecodeQuads(rest).Some?
    ensures DecodeQuads([Letter(a), Letter(b), Letter(c), Letter(d)] + rest)
         == Some([First(a, b), Second(b, c), Third(c, d)] + DecodeQuads(rest).value)
  {
    LetterReads(a);
    LetterReads(b);
    LetterReads(c);
    LetterReads(d);
    hide Letter, Sextet, First, Second, Third;
    var s := [Letter(a), Letter(b), Letter(c), Letter(d)] + rest;
    assert s[0] == Letter(a) && s[1] == Letter(b) && s[2] == Letter(c) && s[3] == Letter(d) && s[4..] == rest;
  }

  lemma {:induction false} QuadsRoundTrip(v: Bytes)
    ensures DecodeQuads(Encode64(v)) == Some(v)
    decreases |v|
  {
    hide DecodeQuads, Letter;
    if v == [] {
      assert DecodeQuads([]) == Some([]) by { NoQuads(); }
    } else if |v| == 1 {
      OneByteReads(v[0]);
      assert v == [v[0]];
    } else if |v| == 2 {
      TwoBytesRead(v[0], v[1]);
      assert v == [v[0], v[1]];
    } else {
      QuadsRoundTrip(v[3..]);
      ThreeBytesRead(v[0], v[1], v[2], Encode64(v[3..]));
      assert v == [v[0], v[1], v[2]] + v[3..];
    }
  }

  lemma NoQuads()
    ensures DecodeQuads([]) == Some([])
  {
  }

  predicate Visible(s: Bytes) {
    forall i :: 0 <= i < |s| ==> 0x21 <= s[i] <= 0x7E
  }

  lemma {:induction false} Base64IsVisible(v: Bytes)
    ensures Visible(Encode64(v))
    decreases |v|
  {
    hide Letter;
    forall x: sextet ensures 0x21 <= Letter(x) <= 0x7E { LetterReads(x); }
    if |v| > 2 { Base64IsVisible(v[3..]); }
  }

  lemma {:induction false} NoBreaksToSkip(s: Bytes)
    requires Visible(s)
    ensures SkipBreaks(s) == s
  {
    if s != [] {
      NoBreaksToSkip(s[..|s| - 1]);
      assert s == s[..|s| - 1] + [s[|s| - 1]];
    }
  }

  lemma Base64RoundTrip(v: Bytes)
    ensures Decode64(Encode64(v)) == Some(v)
  {
    Base64IsVisible(v);
    NoBreaksToSkip(Encode64(v));
    QuadsRoundTrip(v);
  }
}
