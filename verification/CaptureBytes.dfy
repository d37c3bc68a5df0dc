/** What the stream capture keeps of a stream given as its events, said of their bytes and their lines. */
module CaptureBytes {
  import opened Text
  import opened Lines
  import opened StreamCapture

  /** An event: its one blank line ends it. */
  ghost predicate Event(ev: Bytes) {
    exists j: nat :: FirstBlankLine(ev, 0, j, |ev|)
  }

  ghost predicate NoBlankLine(b: Bytes) {
    forall j: nat :: !BlankLine(b, j)
  }

  /** A keep-alive: every line that is not empty opens with a colon, and the first is not empty. */
  ghost predicate KeepAlive(ev: Bytes) {
    ev != [] && ev[0] == 58 && forall l :: l in LinesOf(ev) ==> l.text == [] || l.text[0] == 58
  }

  /** The last event that is not a keep-alive, unless it is over the cap. */
  ghost function Last(cap: nat, evs: seq<Bytes>, found: Found): Found {
    if evs == [] then found
    else Last(cap, evs[1..], if KeepAlive(evs[0]) then found else if |evs[0]| <= cap then Kept(evs[0]) else TooBig)
  }

  lemma BlankLineLater(b: Bytes, j: nat)
    requires b != []
    ensures BlankLine(b[1..], j) <==> BlankLine(b, j + 1)
  {
  }

  /** Where the first event ends, said of bytes. */
  lemma {:induction false} FirstEndIs(b: Bytes)
    ensures FirstEnd(b) == 0 <==> NoBlankLine(b)
    ensures FirstEnd(b) > 0 ==> exists j: nat :: FirstBlankLine(b, 0, j, FirstEnd(b))
    decreases |b|
  {
    if b != [] {
      FirstEndIs(b[1..]);
      forall j: nat ensures BlankLine(b[1..], j) <==> BlankLine(b, j + 1) { BlankLineLater(b, j); }
      assert BlankLine(b, 0) <==> BoundaryAt(b, 0) > 0;
      if BlankLine(b, 0) {
        assert FirstBlankLine(b, 0, 0, FirstEnd(b));
      } else {
        NotAtTheStart(b);
      }
    }
  }

  lemma NotAtTheStart(b: Bytes)
    requires b != [] && !BlankLine(b, 0) && BoundaryAt(b, 0) == 0
    requires FirstEnd(b[1..]) == 0 <==> NoBlankLine(b[1..])
    requires FirstEnd(b[1..]) > 0 ==> exists j: nat :: FirstBlankLine(b[1..], 0, j, FirstEnd(b[1..]))
    requires forall j: nat :: BlankLine(b[1..], j) <==> BlankLine(b, j + 1)
    ensures FirstEnd(b) == 0 <==> NoBlankLine(b)
    ensures FirstEnd(b) > 0 ==> exists j: nat :: FirstBlankLine(b, 0, j, FirstEnd(b))
  {
    hide BlankLine;
    forall j: nat | j > 0 ensures BlankLine(b, j) <==> BlankLine(b[1..], j - 1) {
      assert BlankLine(b[1..], j - 1) <==> BlankLine(b, j - 1 + 1);
    }
    if NoBlankLine(b) {
      forall j: nat ensures !BlankLine(b[1..], j) { assert !BlankLine(b, j + 1); }
    }
    if FirstEnd(b) > 0 {
      var j: nat :| FirstBlankLine(b[1..], 0, j, FirstEnd(b[1..]));
      assert BlankLine(b[1..], j) && BlankLine(b, j + 1);
      BlankLineFits(b, j + 1);
      assert b[1..][j + 1] == b[j + 2];
      forall i: nat | i < j + 1 ensures !BlankLine(b, i) {
        if i > 0 { assert !BlankLine(b[1..], i - 1); }
      }
      assert FirstBlankLine(b, 0, j + 1, FirstEnd(b));
    }
  }

  lemma BlankLineFits(b: Bytes, j: nat)
    requires BlankLine(b, j)
    ensures j + 1 < |b|
  {
  }

  lemma OnlyOneFirst(b: Bytes, j: nat, k: nat, d: int, e: int)
    requires FirstBlankLine(b, 0, j, d) && FirstBlankLine(b, 0, k, e)
    ensures j == k && d == e
  {
  }

  lemma EventEnds(ev: Bytes, more: Bytes)
    requires Event(ev)
    ensures FirstEnd(ev + more) == |ev| > 0
  {
    FirstEndIs(ev);
    var j: nat :| FirstBlankLine(ev, 0, j, |ev|);
    hide FirstEnd;
    assert BlankLine(ev, j);
    var k: nat :| FirstBlankLine(ev, 0, k, FirstEnd(ev));
    OnlyOneFirst(ev, j, k, |ev|, FirstEnd(ev));
    FirstEndPrefix(ev, more);
  }

  // ---- Keep-alives, line by line ----

  /** The rule of the scan for a text that starts a line. */
  predicate Quiet(s: Bytes) {
    && (s != [] ==> s[0] == COLON || IsBreak(s[0]))
    && forall i :: 0 < i < |s| && IsBreak(s[i - 1]) ==> s[i] == COLON || IsBreak(s[i])
  }

  lemma QuietParts(text: Bytes, term: Bytes, rest: Bytes)
    requires NoTerm(text) && (Terminator(term, rest) || (term == [] && rest == []))
    ensures Quiet(text + term + rest) <==> (text == [] || text[0] == COLON) && Quiet(rest)
  {
    var s, n := text + term + rest, |text + term|;
    assert forall i :: 0 <= i < |text| ==> s[i] == text[i] && !IsBreak(s[i]);
    assert forall i :: 0 <= i < |term| ==> s[|text| + i] == term[i] && IsBreak(term[i]);
    assert forall i :: 0 <= i < |rest| ==> s[n + i] == rest[i];
    if Quiet(s) && rest != [] {
      assert s[n] == rest[0] && IsBreak(s[n - 1]);
      forall i | 0 < i < |rest| && IsBreak(rest[i - 1]) ensures rest[i] == COLON || IsBreak(rest[i]) {
        assert s[n + i - 1] == rest[i - 1] && s[n + i] == rest[i];
      }
    }
  }

  lemma {:induction false} QuietLines(s: Bytes)
    ensures Quiet(s) <==> forall l :: l in LinesOf(s) ==> l.text == [] || l.text[0] == 58
    decreases |s|
  {
    LinesCons(s);
    if s != [] {
      var l, rest := FirstLine(s), AfterFirstLine(s);
      SplitFirst(s);
      FirstLineTerminates(s);
      QuietParts(l.text, l.term, rest);
      QuietLines(rest);
      assert l in LinesOf(s);
      hide LinesOf, FirstLine, AfterFirstLine, Quiet;
      assert forall k :: k in LinesOf(s) <==> k == l || k in LinesOf(rest);
    }
  }

  /** The scan's rule, of bytes and breaks, is the rule of lines. */
  lemma CommentIsKeepAlive(ev: Bytes)
    ensures CommentOnly(ev) <==> KeepAlive(ev)
  {
    QuietLines(ev);
    assert CommentOnly(ev) <==> ev != [] && ev[0] == COLON && Quiet(ev);
    hide LinesOf;
  }

  // ---- Streams ----

  lemma {:induction false} EventsAre(cap: nat, evs: seq<Bytes>, rest: Bytes, found: Found)
    requires (forall ev :: ev in evs ==> Event(ev)) && NoBlankLine(rest)
    ensures Events(cap, Concat(evs) + rest, false, found) == Split(Last(cap, evs, found), rest)
    decreases |evs|
  {
    hide FirstEnd, CommentOnly, Event, KeepAlive, NoBlankLine;
    if evs == [] {
      FirstEndIs(rest);
      assert Concat(evs) + rest == rest;
    } else {
      var ev, more := evs[0], Concat(evs[1..]) + rest;
      assert Event(ev) && forall e :: e in evs[1..] ==> e in evs;
      EventEnds(ev, more);
      CommentIsKeepAlive(ev);
      var b := Concat(evs) + rest;
      assert b == ev + more && b[..|ev|] == ev && b[|ev|..] == more;
      EventsAre(cap, evs[1..], rest, if KeepAlive(ev) then found else if |ev| <= cap then Kept(ev) else TooBig);
    }
  }

  /**
   * What is kept of a stream, from its events: the first bytes of the whole, the last event that is not a keep-alive or
   * the word that it was over the cap, and the unended event, or its last three bytes and that it was over.
   */
  lemma KeptOfEvents(c: Caps, evs: seq<Bytes>, rest: Bytes)
    requires (forall ev :: ev in evs ==> Event(ev)) && NoBlankLine(rest)
    ensures var s := Concat(evs) + rest; var k := Summary(c, s);
            && k.found == Last(c.tailBytes, evs, Nothing)
            && k.overflow == (|rest| > c.tailBytes)
            && k.pending == (if |rest| <= c.tailBytes || |rest| <= 3 then rest else rest[|rest| - 3..])
            && k.head == (if |s| <= c.headBytes then s else s[..c.headBytes])
  {
    EventsAre(c.tailBytes, evs, rest, Nothing);
    hide Events, NoBlankLine, Event, Last;
  }

  lemma EventOf(text: Bytes, end: Bytes)
    requires (forall j: nat :: !BlankLine(text + end, j) || j >= |text|) && (end == [10, 10] || end == [13, 10, 13, 10])
    ensures Event(text + end)
  {
    var ev, j := text + end, |text| + if end == [10, 10] then 0 else 1;
    assert ev[|text|..] == end;
    assert forall i :: 0 <= i < |end| ==> ev[|text| + i] == end[i];
    assert FirstBlankLine(ev, 0, j, |ev|);
  }

  /** One event with LF or CRLF framing, whose text has no blank line and does not run into one: it is kept. */
  lemma OneEventIsKept(c: Caps, text: Bytes, end: Bytes)
    requires (end == [10, 10] || end == [13, 10, 13, 10]) && (forall j: nat :: !BlankLine(text + end, j) || j >= |text|)
    requires text != [] && text[0] != 58 && |text + end| <= c.tailBytes
    ensures Summary(c, text + end).found == Kept(text + end)
  {
    EventOf(text, end);
    var ev := text + end;
    var one: seq<Bytes> := [ev];
    assert one[1..] == [] && ev + [] + [] == ev && Concat(one) == ev;
    assert NoBlankLine([]);
    KeptOfEvents(c, one, []);
    assert !KeepAlive(ev);
    hide Summary, KeepAlive;
    assert Last(c.tailBytes, one, Nothing) == Last(c.tailBytes, [], Kept(ev));
  }
}
