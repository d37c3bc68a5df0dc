/** The base64 and the header values of the routing headers, said of bytes: the standard's alphabet and vectors, and what is read. */
module StandardForms {
  import opened Text
  import opened Base64
  import opened HeaderCodec

  // ---- The standard's alphabet and vectors ----

  /** Table 1 of section 4 of RFC 4648: A to Z, a to z, 0 to 9, plus and slash. */
  lemma LettersAreTheStandards()
    ensures Letter(0) == 65 && Letter(1) == 66 && Letter(2) == 67 && Letter(3) == 68 && Letter(4) == 69 && Letter(5) == 70 && Letter(6) == 71 && Letter(7) == 72
    ensures Letter(8) == 73 && Letter(9) == 74 && Letter(10) == 75 && Letter(11) == 76 && Letter(12) == 77 && Letter(13) == 78 && Letter(14) == 79 && Letter(15) == 80
    ensures Letter(16) == 81 && Letter(17) == 82 && Letter(18) == 83 && Letter(19) == 84 && Letter(20) == 85 && Letter(21) == 86 && Letter(22) == 87 && Letter(23) == 88
    ensures Letter(24) == 89 && Letter(25) == 90 && Letter(26) == 97 && Letter(27) == 98 && Letter(28) == 99 && Letter(29) == 100 && Letter(30) == 101 && Letter(31) == 102
    ensures Letter(32) == 103 && Letter(33) == 104 && Letter(34) == 105 && Letter(35) == 106 && Letter(36) == 107 && Letter(37) == 108 && Letter(38) == 109 && Letter(39) == 110
    ensures Letter(40) == 111 && Letter(41) == 112 && Letter(42) == 113 && Letter(43) == 114 && Letter(44) == 115 && Letter(45) == 116 && Letter(46) == 117 && Letter(47) == 118
    ensures Letter(48) == 119 && Letter(49) == 120 && Letter(50) == 121 && Letter(51) == 122 && Letter(52) == 48 && Letter(53) == 49 && Letter(54) == 50 && Letter(55) == 51
    ensures Letter(56) == 52 && Letter(57) == 53 && Letter(58) == 54 && Letter(59) == 55 && Letter(60) == 56 && Letter(61) == 57 && Letter(62) == 43 && Letter(63) == 47
  {
  }

  /** The test vectors of section 10 of RFC 4648: the prefixes of "foobar". */
  lemma StandardVectors()
    ensures Encode64([]) == [] && Encode64([102]) == [90, 103, 61, 61] && Encode64([102, 111]) == [90, 109, 56, 61]
    ensures Encode64([102, 111, 111]) == [90, 109, 57, 118]
    ensures Encode64([102, 111, 111, 98]) == [90, 109, 57, 118, 89, 103, 61, 61]
    ensures Encode64([102, 111, 111, 98, 97, 114]) == [90, 109, 57, 118, 89, 109, 70, 121]
  {
    var a: Bytes := [102, 111, 111];
    assert (a + [])[3..] == [] && (a + [98])[3..] == [98] && (a + [98, 97, 114])[3..] == [98, 97, 114];
    assert [98, 97, 114][3..] == [];
    assert a + [98] == [102, 111, 111, 98] && a + [98, 97, 114] == [102, 111, 111, 98, 97, 114] && a + [] == [102, 111, 111];
  }

  // ---- What the decoder takes ----

  lemma {:induction false} SkipAppends(a: Bytes, b: Bytes)
    ensures SkipBreaks(a + b) == SkipBreaks(a) + SkipBreaks(b)
    decreases |b|
  {
    if b == [] {
      assert a + b == a;
    } else {
      var n := |b| - 1;
      assert (a + b)[..|a| + n] == a + b[..n] && (a + b)[|a| + n] == b[n];
      SkipAppends(a, b[..n]);
    }
  }

  /** Line breaks make no difference, wherever they stand. */
  lemma BreaksAreSkipped(a: Bytes, b: Bytes)
    ensures Decode64(a + [10] + b) == Decode64(a + b) == Decode64(a + [13] + b)
  {
    SkipAppends(a, b);
    SkipAppends(a, [10]);
    SkipAppends(a, [13]);
    SkipAppends(a + [10], b);
    SkipAppends(a + [13], b);
    assert [10][..0] == [] && [13][..0] == [];
    assert SkipBreaks(a) + [] == SkipBreaks(a);
  }

  /** `s` spells `v`: the encoding of `v`, but for the letter whose low bits the padding leaves unused. */
  predicate Spells(s: Bytes, v: Bytes) {
    var e := Encode64(v);
    && |s| == |e|
    && (forall i :: 0 <= i < |s| && i != |s| - (if |v| % 3 == 1 then 3 else if |v| % 3 == 2 then 2 else 0) ==> s[i] == e[i])
  }

  lemma SextetReads(x: byte)
    ensures Sextet(x).Some? ==> Letter(Sextet(x).value) == x
  {
  }

  lemma OneSpells(s: Bytes, a: sextet, b: sextet)
    requires |s| == 4 && s[0] == Letter(a) && s[1] == Letter(b) && s[2] == PAD && s[3] == PAD
    ensures Spells(s, [First(a, b)])
  {
    assert First(a, b) / 4 == a;
    hide Letter;
  }

  lemma TwoSpell(s: Bytes, a: sextet, b: sextet, c: sextet)
    requires |s| == 4 && s[0] == Letter(a) && s[1] == Letter(b) && s[2] == Letter(c) && s[3] == PAD
    ensures Spells(s, [First(a, b), Second(b, c)])
  {
    var x, y := First(a, b), Second(b, c);
    assert x / 4 == a && x % 4 * 16 + y / 16 == b;
    hide Letter;
  }

  lemma ThreeSplit(a: sextet, b: sextet, c: sextet, d: sextet)
    ensures var x, y, z := First(a, b), Second(b, c), Third(c, d);
            x / 4 == a && x % 4 * 16 + y / 16 == b && y % 16 * 4 + z / 64 == c && z % 64 == d
  {
  }

  lemma QuadSpells(s: Bytes, a: sextet, b: sextet, c: sextet, d: sextet, rest: Bytes)
    requires |s| >= 4 && s[0] == Letter(a) && s[1] == Letter(b) && s[2] == Letter(c) && s[3] == Letter(d)
    requires Spells(s[4..], rest)
    ensures Spells(s, [First(a, b), Second(b, c), Third(c, d)] + rest)
  {
    var v, t := [First(a, b), Second(b, c), Third(c, d)] + rest, s[4..];
    ThreeSplit(a, b, c, d);
    assert v[3..] == rest;
    assert Encode64(v) == [s[0], s[1], s[2], s[3]] + Encode64(rest);
    hide Letter, Encode64, First, Second, Third;
    var e, loose := Encode64(v), if |v| % 3 == 1 then 3 else if |v| % 3 == 2 then 2 else 0;
    assert |v| % 3 == |rest| % 3;
    forall i | 0 <= i < |s| && i != |s| - loose ensures s[i] == e[i] {
      if i >= 4 { assert s[i] == t[i - 4] && e[i] == Encode64(rest)[i - 4]; }
    }
  }

  /** Without line breaks nothing decodes but a spelling, so a decoded value has at most its own spellings. */
  lemma {:induction false} DecodedIsSpelled(s: Bytes)
    requires DecodeQuads(s).Some?
    ensures Spells(s, DecodeQuads(s).value)
    decreases |s|
  {
    hide Sextet, Letter, Spells, First, Second, Third;
    if s == [] {
      NothingSpells();
    } else {
      SextetReads(s[0]);
      SextetReads(s[1]);
      SextetReads(s[2]);
      SextetReads(s[3]);
      var a, b, c, d := Sextet(s[0]), Sextet(s[1]), Sextet(s[2]), Sextet(s[3]);
      if s[2] == PAD {
        OneSpells(s, a.value, b.value);
      } else if s[3] == PAD {
        TwoSpell(s, a.value, b.value, c.value);
      } else {
        DecodedIsSpelled(s[4..]);
        QuadSpells(s, a.value, b.value, c.value, d.value, DecodeQuads(s[4..]).value);
      }
    }
  }

  lemma NothingSpells()
    ensures Spells([], [])
  {
  }

  // ---- Header values ----

  /** Visible ASCII and inner spaces: a text that opens and ends with neither a space nor the two halves of the sentinel. */
  predicate Plain(v: Bytes) {
    && v != [] && (forall i :: 0 <= i < |v| ==> 32 <= v[i] <= 126) && v[0] != 32 && v[|v| - 1] != 32
    && !(|v| >= 11 && v[..9] == [61, 63, 98, 97, 115, 101, 54, 52, 63] && v[|v| - 2..] == [63, 61])
  }

  /** Such a text travels as it is and any other as "=?base64?", its base64 and "?="; and what is no sentinel is read as it is. */
  lemma TravelsPlainExactly(utf8: Utf8, v: Bytes)
    ensures EncodeHeaderValue(v) == if Plain(v) then v else [61, 63, 98, 97, 115, 101, 54, 52, 63] + Encode64(v) + [63, 61]
    ensures Plain(v) ==> DecodeHeaderValue(utf8, v) == Some(v)
  {
    hide Encode64, Decode64;
  }

  /** A sentinel is read as what its middle decodes to, up to 4096 bytes of UTF-8, and is refused otherwise. */
  lemma SentinelsAreDecoded(utf8: Utf8, middle: Bytes)
    ensures var d := Decode64(middle);
            DecodeHeaderValue(utf8, [61, 63, 98, 97, 115, 101, 54, 52, 63] + middle + [63, 61]) ==
              if d.Some? && |d.value| <= 4096 && utf8(d.value) then d else None
  {
    WrappedIsSentinel(middle);
    hide Encode64, Decode64, SentinelShaped;
  }
}
