/**
 * What the stream door does with single lines, said of their bytes: which lines leave as they come, which are held until
 * they have been rewritten, and that text without a data: line is one document.
 */
module DoorBytes {
  import opened Text
  import opened Lines
  import opened HolderSpec
  import opened HolderTheorems
  import opened EveryCut
  import opened CutsReach

  /** "data:" */
  predicate OpensWithData(line: Bytes) {
    |line| >= 5 && line[0] == 100 && line[1] == 97 && line[2] == 116 && line[3] == 97 && line[4] == 58
  }

  predicate OpensWithLetter(line: Bytes) {
    line != [] && (65 <= line[0] <= 90 || 97 <= line[0] <= 122)
  }

  predicate OpensWithColon(line: Bytes) {
    line != [] && line[0] == 58
  }

  lemma DataIs(line: Bytes)
    ensures IsData(line) <==> OpensWithData(line)
  {
    if |line| >= 5 { assert line[..5] == [line[0], line[1], line[2], line[3], line[4]]; }
  }

  // ---- White space ----

  /** The UTF-8 encodings of the Unicode white space. */
  predicate SpaceRune(s: Bytes) {
    || (|s| == 1 && (9 <= s[0] <= 13 || s[0] == 0x20))
    || s == [0xC2, 0x85] || s == [0xC2, 0xA0] || s == [0xE1, 0x9A, 0x80]
    || (|s| == 3 && s[0] == 0xE2 && s[1] == 0x80 && 0x80 <= s[2] <= 0x8A)
    || s == [0xE2, 0x80, 0xA8] || s == [0xE2, 0x80, 0xA9] || s == [0xE2, 0x80, 0xAF] || s == [0xE2, 0x81, 0x9F]
    || s == [0xE3, 0x80, 0x80]
  }

  lemma SpaceAhead(s: Bytes)
    ensures SpaceWidth(s) > 0 ==> SpaceRune(s[..SpaceWidth(s)])
  {
  }

  lemma RuneAhead(p: Bytes, rest: Bytes)
    requires SpaceRune(p)
    ensures SpaceWidth(p + rest) == |p| > 0 && (p + rest)[|p|..] == rest
  {
  }

  ghost predicate AllSpace(runes: seq<Bytes>) {
    forall p :: p in runes ==> SpaceRune(p)
  }

  lemma {:induction false} SpacesAreBlank(runes: seq<Bytes>)
    requires AllSpace(runes)
    ensures Blank(Concat(runes))
  {
    if runes != [] {
      assert runes[0] in runes && forall p :: p in runes[1..] ==> p in runes;
      SpacesAreBlank(runes[1..]);
      RuneAhead(runes[0], Concat(runes[1..]));
      hide SpaceWidth, SpaceRune;
    }
  }

  lemma {:induction false} BlankIsSpaces(s: Bytes) returns (runes: seq<Bytes>)
    requires Blank(s)
    ensures AllSpace(runes) && Concat(runes) == s
    decreases |s|
  {
    if s == [] {
      runes := [];
    } else {
      SpaceAhead(s);
      var w := SpaceWidth(s);
      var rest := BlankIsSpaces(s[w..]);
      hide SpaceWidth, SpaceRune;
      runes := [s[..w]] + rest;
      assert runes[1..] == rest;
    }
  }

  /** A line is blank exactly when it is made of white space runes. */
  lemma BlankExactly(s: Bytes)
    ensures Blank(s) <==> exists runes: seq<Bytes> :: AllSpace(runes) && Concat(runes) == s
  {
    if Blank(s) { var runes := BlankIsSpaces(s); }
    forall runes: seq<Bytes> | AllSpace(runes) && Concat(runes) == s ensures Blank(s) { SpacesAreBlank(runes); }
  }

  // ---- One line between units ----

  /** A comment, a field line that is not data, or a blank line is returned by the read that brings it. */
  lemma FramingLineGoesOut(r: Rules, h: Holder, l: Line)
    requires Between(h) && Unowed(h, Whole(l)) && NoTerm(l.text) && Terminator(l.term, [])
    requires Blank(l.text) || OpensWithColon(l.text) || (OpensWithLetter(l.text) && !OpensWithData(l.text))
    ensures var n := Feed(r, h, Whole(l)); !n.failed && n.mode == Holding && n.Held() == [] && n.out == h.out + Whole(l)
  {
    DataIs(l.text);
    assert Outside(l) && Whole(l) != [];
    BetweenHolds(h);
    OutsideLine(r, h, l);
    var n := Run(r, h, Whole(l));
    BetweenHolds(n);
    hide Run, Blank, FieldLine, Sound, Between;
    NothingPasses(r);
    hide MayPass;
  }

  lemma NothingPasses(r: Rules)
    ensures !MayPass(r, [])
  {
    NoDataInNothing();
  }

  /** Any other line is held, whole, and nothing is returned with it. */
  lemma OtherLineIsHeld(r: Rules, h: Holder, l: Line)
    requires Between(h) && Unowed(h, Whole(l)) && NoTerm(l.text) && Terminator(l.term, [])
    requires !Blank(l.text) && !OpensWithColon(l.text) && (OpensWithLetter(l.text) ==> OpensWithData(l.text))
    requires |Whole(l)| <= r.maxHeld && (OpensWithData(l.text) ==> |Whole(l)| < r.holdBytes)
    ensures var n := Feed(r, h, Whole(l)); !n.failed && n.mode == Holding && n.Held() == Whole(l) && n.out == h.out
  {
    DataIs(l.text);
    OpeningLine(r, h, l);
    assert Whole(l) + [] == Whole(l);
    if !IsData(l.text) { NoDataLineAlone(l); }
    hide Run, Blank, FieldLine, HasDataLine, Sound;
  }

  lemma NoDataLineAlone(l: Line)
    requires NoTerm(l.text) && Terminator(l.term, []) && !IsData(l.text)
    ensures !HasDataLine(Whole(l))
  {
    assert Whole(l) + [] == Whole(l);
    OneMore(l.text, l.term, []);
    LinesCons([]);
    hide LinesOf;
  }

  // ---- Text with no data: line ----

  lemma DataLineCons(s: Bytes)
    ensures HasDataLine(s) <==> s != [] && (IsData(FirstLine(s).text) || HasDataLine(AfterFirstLine(s)))
  {
    LinesCons(s);
    hide LinesOf, FirstLine, IsData, AfterFirstLine;
    if s != [] {
      var l, rest := FirstLine(s), AfterFirstLine(s);
      assert l in LinesOf(s) && forall d :: d in LinesOf(s) <==> d == l || d in LinesOf(rest);
    }
  }

  /** What a prefix shows of data: lines the whole has. */
  lemma {:induction false} PrefixData(s: Bytes, k: nat)
    requires k <= |s| && HasDataLine(s[..k])
    ensures HasDataLine(s)
    decreases |s|
  {
    var p := s[..k];
    DataLineCons(p);
    DataLineCons(s);
    PrefixLine(s, k);
    if IsData(FirstLine(p).text) {
      hide HasDataLine, FirstLine, AfterFirstLine;
    } else {
      var rest, all := AfterFirstLine(p), AfterFirstLine(s);
      hide HasDataLine, FirstLine, AfterFirstLine, IsData;
      assert rest == all[..|rest|];
      PrefixData(all, |rest|);
    }
  }

  lemma PrefixLine(s: Bytes, k: nat)
    requires 0 < k <= |s|
    ensures var p := s[..k];
            && FirstLine(p).text <= FirstLine(s).text
            && AfterFirstLine(p) <= AfterFirstLine(s)
            && |AfterFirstLine(s)| < |s|
  {
    var p, n := s[..k], FirstTerm(s);
    if n < k {
      FirstTermIs(p, n);
      assert p[..n] == s[..n];
    } else {
      FirstTermIs(p, k);
      assert p[..k] == p && p <= s[..n];
    }
  }

  lemma NoDataNoRelay(r: Rules, s: Bytes)
    requires !HasDataLine(s)
    ensures !RawAllowed(r, s)
  {
    forall k: nat | k <= |s| ensures !MayPass(r, s[..k]) {
      if HasDataLine(s[..k]) { PrefixData(s, k); }
      hide HasDataLine;
    }
    hide MayPass;
  }

  /** A unit that meets no data: line never ends and is never relayed. */
  lemma {:induction false} NeverEnds(r: Rules, unit: Bytes, ls: seq<Line>, out: Option<Bytes>)
    requires PossibleUnit(r, unit, ls, false, out) && (forall l :: l in ls ==> !IsData(l.text))
    requires !RawAllowed(r, unit + Unlines(ls)) && |unit + Unlines(ls)| <= r.maxHeld
    ensures out == r.redact(unit + Unlines(ls))
    decreases |ls|
  {
    hide RawAllowed, KeptAllowed, IsData, Blank;
    if ls == [] {
      assert unit + [] == unit;
    } else {
      assert ls[0] in ls && forall l :: l in ls[1..] ==> l in ls;
      assert unit + Whole(ls[0]) + Unlines(ls[1..]) == unit + Unlines(ls);
      NeverEnds(r, unit + Whole(ls[0]), ls[1..], out);
    }
  }

  /**
   * A document by itself: text with no data: line whose first line is not blank and opens with neither a colon nor a
   * letter, a bare JSON error among it, is rewritten whole, however the reads fall.
   */
  lemma BareTextIsRewritten(r: Rules, chunks: seq<Bytes>)
    requires forall c :: c in chunks ==> c != []
    requires var s := Concat(chunks);
             && s != [] && |s| <= r.maxHeld && (forall l :: l in LinesOf(s) ==> !OpensWithData(l.text))
             && !Blank(FirstLine(s).text) && !OpensWithColon(FirstLine(s).text) && !OpensWithLetter(FirstLine(s).text)
    ensures Relayed(r, chunks) == r.redact(Concat(chunks))
  {
    var s := Concat(chunks);
    EveryCutIsPossible(r, chunks);
    NoDataNoRelay(r, s) by { NoneIsData(s); }
    NoneIsData(s);
    CutLine(s);
    LinesLossless(s);
    var l, ls := FirstLine(s), LinesOf(s);
    assert forall d :: d in ls[1..] ==> d in ls;
    assert !Outside(l) && !IsData(l.text);
    hide LinesOf, FirstLine, AfterFirstLine, Blank, HasDataLine, RawAllowed, FieldLine, IsData, PossibleUnit;
    assert Unlines(ls) == Whole(l) + Unlines(ls[1..]);
    NeverEnds(r, Whole(l), ls[1..], Relayed(r, chunks));
  }

  lemma NoneIsData(s: Bytes)
    requires forall l :: l in LinesOf(s) ==> !OpensWithData(l.text)
    ensures !HasDataLine(s) && forall l :: l in LinesOf(s) ==> !IsData(l.text)
  {
    forall l | l in LinesOf(s) ensures !IsData(l.text) { DataIs(l.text); }
    hide IsData, OpensWithData;
  }

  // ---- The first unit of any stream ----

  /** `out` opens with `u` rewritten, or with `u` where the key walk proves one of its prefixes. */
  ghost predicate OpensWithUnit(r: Rules, u: Bytes, out: Bytes) {
    || (r.redact(u).Some? && r.redact(u).value <= out)
    || (u <= out && exists more :: RawAllowed(r, u + more))
  }

  lemma {:induction false} UnitComesFirst(r: Rules, unit: Bytes, ls: seq<Line>, hasData: bool, out: Bytes) returns (u: Bytes)
    requires PossibleUnit(r, unit, ls, hasData, Some(out))
    ensures unit <= u <= unit + Unlines(ls) && OpensWithUnit(r, u, out)
    decreases |ls|
  {
    hide RawAllowed, KeptAllowed, IsData, Blank, Possible;
    u := unit;
    if ls == [] {
      assert unit + [] == unit;
    } else if hasData && Ends(ls[0]) {
      var rest :| Possible(r, ls[1..], rest) && (
        || Some(out) == Then(r.redact(unit), Before(Whole(ls[0]), rest))
        || (RawAllowed(r, unit + ls[0].text) && Some(out) == Before(unit + Whole(ls[0]), rest)));
    } else {
      u := UnitComesFirst(r, unit + Whole(ls[0]), ls[1..], hasData || IsData(ls[0].text), out);
      assert unit + Whole(ls[0]) + Unlines(ls[1..]) == unit + Unlines(ls);
    }
  }

  /**
   * Nothing of a unit leaves before it has been judged: what is returned of a stream whose first line opens a unit begins
   * with a unit that holds that line, rewritten, or raw where the key walk proves part of it.
   */
  lemma FirstUnitIsJudged(r: Rules, chunks: seq<Bytes>) returns (u: Bytes)
    requires forall c :: c in chunks ==> c != []
    requires Concat(chunks) != [] && Relayed(r, chunks).Some?
    requires var t := FirstLine(Concat(chunks)).text;
             !Blank(t) && !OpensWithColon(t) && (OpensWithLetter(t) ==> OpensWithData(t))
    ensures Whole(FirstLine(Concat(chunks))) <= u <= Concat(chunks) && OpensWithUnit(r, u, Relayed(r, chunks).value)
  {
    var s := Concat(chunks);
    EveryCutIsPossible(r, chunks);
    CutLine(s);
    LinesLossless(s);
    var l, ls := FirstLine(s), LinesOf(s);
    DataIs(l.text);
    assert !Outside(l);
    hide LinesOf, FirstLine, AfterFirstLine, Blank, FieldLine, IsData, PossibleUnit, OpensWithUnit;
    assert Unlines(ls) == Whole(l) + Unlines(ls[1..]);
    u := UnitComesFirst(r, Whole(l), ls[1..], IsData(l.text), Relayed(r, chunks).value);
  }
}
