/** The raw relay of a large unit: its byte-by-byte watch sees the blank line that TrimSpace would. */
module RawRelay {
  import opened Text
  import opened Lines
  import opened HolderSpec

  lemma {:induction false} RawStuck(w: RawLine, s: Bytes)
    requires !w.blank
    ensures RawBytes(w, s) == w
    decreases |s|
  {
    if s != [] { RawStuck(w, s[1..]); }
  }

  lemma {:induction false} RawBytesAppend(w: RawLine, a: Bytes, b: Bytes)
    ensures RawBytes(w, a + b) == RawBytes(RawBytes(w, a), b)
    decreases |a|
  {
    hide RawByte;
    if a == [] {
      assert a + b == b;
    } else {
      assert (a + b)[1..] == a[1..] + b;
      RawBytesAppend(RawByte(w, a[0]), a[1..], b);
    }
  }

  /** What the watch makes of a line's first rune: white space takes it back to the start, anything else ends hope. */
  lemma FirstRune(s: Bytes)
    requires s != []
    ensures var w := SpaceWidth(s);
            if w > 0 then RawBytes(RawStart, s) == RawBytes(RawStart, s[w..]) else !EndsRaw(RawBytes(RawStart, s))
  {
    var a := RawByte(RawStart, s[0]);
    if s[0] >= 0x80 { assert [] + [s[0]] == [s[0]]; }
    if !a.blank {
      RawStuck(a, s[1..]);
    } else if a.rune != [] {
      assert RuneSize(s[0]) > 1;
      if |s| > 1 { SecondRuneByte(s); }
    }
  }

  lemma SecondRuneByte(s: Bytes)
    requires |s| > 1 && s[0] >= 0x80 && RuneSize(s[0]) > 1
    ensures var w := SpaceWidth(s); var end := RawBytes(RawLine(true, [s[0]]), s[1..]);
            if w > 0 then end == RawBytes(RawStart, s[w..]) else !EndsRaw(end)
  {
    var b := RawByte(RawLine(true, [s[0]]), s[1]);
    assert [s[0]] + [s[1]] == [s[0], s[1]];
    assert s[1..][1..] == s[2..];
    if !b.blank {
      RawStuck(b, s[2..]);
    } else if b.rune != [] {
      assert RuneSize(s[0]) > 2;
      if |s| > 2 { ThirdRuneByte(s); }
    }
  }

  lemma ThirdRuneByte(s: Bytes)
    requires |s| > 2 && s[0] >= 0x80 && RuneSize(s[0]) > 2 && SecondByte(s[0], s[1])
    ensures var w := SpaceWidth(s); var end := RawBytes(RawLine(true, [s[0], s[1]]), s[2..]);
            if w > 0 then end == RawBytes(RawStart, s[w..]) else !EndsRaw(end)
  {
    var c := RawByte(RawLine(true, [s[0], s[1]]), s[2]);
    assert [s[0], s[1]] + [s[2]] == [s[0], s[1], s[2]];
    assert s[2..][1..] == s[3..];
    if !c.blank {
      RawStuck(c, s[3..]);
    } else if c.rune != [] && |s| > 3 {
      var d := RawByte(c, s[3]);
      assert c.rune + [s[3]] == [s[0], s[1], s[2], s[3]];
      assert s[3..][1..] == s[4..];
      RawStuck(d, s[4..]);
    }
  }

  /** Fed byte by byte from its start, a line ends the relay exactly when bytes.TrimSpace would empty it. */
  lemma {:induction false} RawAgrees(line: Bytes)
    ensures EndsRaw(RawBytes(RawStart, line)) <==> Blank(line)
    decreases |line|
  {
    hide RawByte;
    if line != [] {
      FirstRune(line);
      if SpaceWidth(line) > 0 { RawAgrees(line[SpaceWidth(line)..]); }
    }
  }

  lemma {:induction false} RelayText(r: Rules, h: Holder, s: Bytes)
    requires !h.failed && !h.lfOwed && h.mode == Passthrough && NoTerm(s)
    ensures Run(r, h, s) == h.(out := h.out + s, raw := RawBytes(h.raw, s))
    decreases |s|
  {
    hide RawByte;
    if s == [] {
      assert h.out + s == h.out;
    } else {
      assert h.out + s == h.out + [s[0]] + s[1..];
      RelayText(r, Step(r, h, s[0]), s[1..]);
    }
  }

  /**
   * A relayed line goes out as it came, and the holder is back to holding after it exactly when the whole line,
   * the part held when the relay opened included, is blank: both states end a unit at the same line.
   */
  lemma RelayEndsAtBlankLine(r: Rules, h: Holder, seen: Bytes, text: Bytes, t: byte)
    requires !h.failed && !h.lfOwed && h.mode == Passthrough && h.raw == RawBytes(RawStart, seen)
    requires NoTerm(text) && IsTerm(t)
    ensures var n := Run(r, h, text + [t]);
            && n.out == h.out + text + [t] && n.Held() == h.Held() && !n.failed
            && (n.mode == Holding <==> Blank(seen + text))
            && (n.mode == Passthrough ==> n.raw == RawStart)
            && (n.mode == Holding ==> !n.inEvent && !n.decided)
  {
    RawBytesAppend(RawStart, seen, text);
    RawAgrees(seen + text);
    RelayText(r, h, text);
    RunAppend(r, h, text, [t]);
    hide RawByte, RawBytes, Blank;
    var g := Run(r, h, text);
    assert Run(r, g, [t]) == Step(r, g, t);
  }
}
