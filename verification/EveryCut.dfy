/**
 * The stream door for every stream, every cut into reads and every verdict of the key walk: each unit leaves rewritten
 * or, where the walk may have proved it, raw, and where units begin and end never depends on reads or verdicts.
 */
module EveryCut {
  import opened Text
  import opened Lines
  import opened HolderSpec
  import opened HolderTheorems
  import opened RawRelay

  // ---- What may leave ----

  /** The key walk opens the raw relay on some prefix of these bytes that may be held. */
  ghost predicate RawAllowed(r: Rules, unit: Bytes) {
    exists k: nat :: r.holdBytes <= k <= |unit| && k <= r.maxHeld && MayPass(r, unit[..k])
  }

  /** Held to the end of the stream: too short to be judged, or judged once at a prefix that is not proved. */
  ghost predicate KeptAllowed(r: Rules, unit: Bytes) {
    && |unit| <= r.maxHeld
    && (|unit| < r.holdBytes || exists k: nat :: r.holdBytes <= k <= |unit| && !MayPass(r, unit[..k]))
  }

  function Whole(l: Line): Bytes {
    l.text + l.term
  }

  predicate Outside(l: Line) {
    l.term != [] && (Blank(l.text) || FieldLine(l.text))
  }

  predicate Ends(l: Line) {
    Blank(l.text) && l.term != []
  }

  /** What waits may have grown past `maxHeld` when a read ended, which ends the stream with an error. */
  predicate Overflows(r: Rules, held: Bytes, out: Option<Bytes>) {
    |held| > r.maxHeld && out == None
  }

  /** `out` is what the lines `ls` may leave as, from outside a unit. */
  ghost predicate Possible(r: Rules, ls: seq<Line>, out: Option<Bytes>)
    decreases |ls|, 1
  {
    if ls == [] then out == Some([])
    else if Outside(ls[0]) then
      || Overflows(r, ls[0].text, out)
      || (exists rest :: Possible(r, ls[1..], rest) && out == Before(Whole(ls[0]), rest))
    else PossibleUnit(r, Whole(ls[0]), ls[1..], IsData(ls[0].text), out)
  }

  /** From inside a unit of which `unit` has been read: rewritten at its end, or raw where that is allowed. */
  ghost predicate PossibleUnit(r: Rules, unit: Bytes, ls: seq<Line>, hasData: bool, out: Option<Bytes>)
    decreases |ls|, 2
  {
    if Overflows(r, unit, out) then true
    else if ls == [] then (KeptAllowed(r, unit) && out == r.redact(unit)) || (RawAllowed(r, unit) && out == Some(unit))
    else if hasData && Ends(ls[0]) then
      || Overflows(r, unit + ls[0].text, out)
      || (exists rest :: Possible(r, ls[1..], rest) && (
           || out == Then(r.redact(unit), Before(Whole(ls[0]), rest))
           || (RawAllowed(r, unit + ls[0].text) && out == Before(unit + Whole(ls[0]), rest))))
    else PossibleUnit(r, unit + Whole(ls[0]), ls[1..], hasData || IsData(ls[0].text), out)
  }

  /** From inside a unit that is being relayed raw. */
  ghost predicate PossibleRaw(r: Rules, ls: seq<Line>, out: Option<Bytes>)
    decreases |ls|
  {
    if ls == [] then out == Some([])
    else if Ends(ls[0]) then exists rest :: Possible(r, ls[1..], rest) && out == Before(Whole(ls[0]), rest)
    else exists rest :: PossibleRaw(r, ls[1..], rest) && out == Before(Whole(ls[0]), rest)
  }

  // ---- What a holder may still come to ----

  /** `h` has `t` still to come and no LF owed; in passthrough `seen` is the line so far. */
  ghost predicate Leads(r: Rules, h: Holder, seen: Bytes, t: Bytes, out: Option<Bytes>) {
    if h.failed then out == None
    else if h.mode == Passthrough then
      exists rest :: PossibleRaw(r, LinesOf(seen + t), rest) && |seen| <= |h.out| && out == Before(h.out[..|h.out| - |seen|], rest)
    else if h.inEvent then
      exists rest :: PossibleUnit(r, h.unit, LinesOf(h.partial + t), h.hasData, rest) && out == Before(h.out, rest)
    else
      exists rest :: Possible(r, LinesOf(h.partial + t), rest) && out == Before(h.out, rest)
  }

  predicate Owes(h: Holder, t: Bytes) {
    !h.failed && h.lfOwed && t != [] && t[0] == LF
  }

  ghost predicate Comes(r: Rules, h: Holder, seen: Bytes, t: Bytes, out: Option<Bytes>) {
    if Owes(h, t) then Leads(r, OwedLF(h), seen, t[1..], out) else Leads(r, h, seen, t, out)
  }

  /** What every state between bytes keeps. */
  ghost predicate Live(h: Holder, seen: Bytes) {
    !h.failed ==>
      && Sound(h)
      && (h.mode == Holding && h.inEvent ==>
            && h.unit != [] && IsTerm(h.unit[|h.unit| - 1])
            && (h.partial == [] ==> (h.lfOwed <==> h.unit[|h.unit| - 1] == CR))
            && (!h.hasData ==> !HasDataLine(h.unit)))
      && (h.mode == Passthrough ==>
            && NoTerm(seen) && h.raw == RawBytes(RawStart, seen) && (h.lfOwed ==> seen == [])
            && |seen| <= |h.out| && h.out[|h.out| - |seen|..] == seen)
  }

  function Seen(h: Holder, seen: Bytes, b: byte): Bytes {
    if h.failed || h.mode == Holding || IsTerm(b) then [] else seen + [b]
  }

  // ---- Lines of what is to come ----

  /** A complete line in front of the rest. */
  lemma OneMore(text: Bytes, term: Bytes, rest: Bytes)
    requires NoTerm(text) && Terminator(term, rest)
    ensures LinesOf(text + term + rest) == [Line(text, term)] + LinesOf(rest)
  {
    FirstLineIs(Line(text, term), rest);
    LinesCons(text + term + rest);
  }

  lemma Unended(text: Bytes)
    requires NoTerm(text)
    ensures LinesOf(text) == if text == [] then [] else [Line(text, [])]
  {
    if text != [] {
      FirstLineIs(Line(text, []), []);
      assert text + [] + [] == text;
      LinesCons(text);
      LinesCons([]);
    }
  }

  lemma ConsLine(l: Line, rest: seq<Line>)
    ensures var ls := [l] + rest; ls != [] && ls[0] == l && ls[1..] == rest
  {
  }

  // ---- One complete line ----

  /** What may come after a line step may come before it. */
  lemma LineLeads(r: Rules, h: Holder, text: Bytes, term: Bytes, rest: Bytes, ls: seq<Line>, out: Option<Bytes>)
    requires !h.failed && h.mode == Holding && (!h.inEvent ==> h.unit == []) && term != []
    requires ls == [Line(text, term)] + LinesOf(rest)
    requires Leads(r, LineStep(r, h, text, term), [], rest, out)
    ensures exists p :: (if h.inEvent then PossibleUnit(r, h.unit, ls, h.hasData, p) else Possible(r, ls, p)) && out == Before(h.out, p)
  {
    var l := Line(text, term);
    ConsLine(l, LinesOf(rest));
    var n := LineStep(r, h, text, term);
    LineStepCases(r, h, text, term);
    assert [] + rest == rest;
    hide LineStep, Blank, FieldLine, IsData, LinesOf;
    if Outside(l) && !h.inEvent {
      var p :| Possible(r, LinesOf(rest), p) && out == Before(n.out, p);
      BeforeTwice(h.out, Whole(l), p);
      assert Possible(r, ls, Before(Whole(l), p));
    } else if !h.inEvent {
      assert [] + Whole(l) == Whole(l);
      var p :| PossibleUnit(r, n.unit, LinesOf(rest), n.hasData, p) && out == Before(n.out, p);
      assert Possible(r, ls, p);
    } else if Ends(l) && h.hasData {
      if r.redact(h.unit) == None {
        var any := SomePossible(r, LinesOf(rest));
        assert PossibleUnit(r, h.unit, ls, h.hasData, None);
      } else {
        var res := r.redact(h.unit).value;
        var p :| Possible(r, LinesOf(rest), p) && out == Before(n.out, p);
        BeforeTwice(h.out, res, Before(Whole(l), p));
        BeforeTwice(h.out + res, Whole(l), p);
        assert PossibleUnit(r, h.unit, ls, h.hasData, Before(res, Before(Whole(l), p)));
      }
    } else {
      var p :| PossibleUnit(r, n.unit, LinesOf(rest), n.hasData, p) && out == Before(n.out, p);
      assert PossibleUnit(r, h.unit, ls, h.hasData, p);
    }
  }

  /** Lines can always leave in some way. */
  lemma {:induction false} SomePossible(r: Rules, ls: seq<Line>) returns (out: Option<Bytes>)
    ensures Possible(r, ls, out)
    decreases |ls|, 1
  {
    hide Blank, FieldLine, IsData;
    if ls == [] {
      out := Some([]);
    } else if Outside(ls[0]) {
      var rest := SomePossible(r, ls[1..]);
      out := Before(Whole(ls[0]), rest);
    } else {
      out := SomeUnitPossible(r, Whole(ls[0]), ls[1..], IsData(ls[0].text));
    }
  }

  lemma {:induction false} SomeUnitPossible(r: Rules, unit: Bytes, ls: seq<Line>, hasData: bool) returns (out: Option<Bytes>)
    ensures PossibleUnit(r, unit, ls, hasData, out)
    decreases |ls|, 2
  {
    hide Blank, FieldLine, IsData;
    if |unit| > r.maxHeld {
      out := None;
    } else if ls == [] {
      assert unit[..|unit|] == unit;
      hide MayPass;
      out := if KeptAllowed(r, unit) then r.redact(unit) else Some(unit);
    } else if hasData && Ends(ls[0]) {
      var rest := SomePossible(r, ls[1..]);
      out := Then(r.redact(unit), Before(Whole(ls[0]), rest));
    } else {
      out := SomeUnitPossible(r, unit + Whole(ls[0]), ls[1..], hasData || IsData(ls[0].text));
    }
  }

  /** A unit's redaction, line by line. */
  lemma UnitUnfolds(r: Rules, unit: Bytes, ls: seq<Line>, hasData: bool)
    ensures UnitRedaction(r, unit, ls, hasData) ==
            if ls == [] then r.redact(unit)
            else if hasData && Ends(ls[0]) then Then(r.redact(unit), Before(Whole(ls[0]), Redaction(r, ls[1..])))
            else UnitRedaction(r, unit + Whole(ls[0]), ls[1..], hasData || IsData(ls[0].text))
  {
    assert unit + [] == unit;
    if ls != [] {
      if hasData && Ends(ls[0]) {
        assert UnitLen(ls, hasData) == 0;
        hide Blank, IsData, Redaction, UnitLen;
        assert unit + Unlines(ls[..0]) == unit;
      } else {
        UnitGrows(r, unit, ls, hasData);
        hide UnitRedaction, Blank, IsData;
        assert unit + ls[0].text + ls[0].term == unit + Whole(ls[0]);
      }
    }
  }

  // ---- One byte ----

  lemma LeadsAlike(r: Rules, h: Holder, n: Holder, seen: Bytes, t: Bytes, out: Option<Bytes>)
    requires n == h.(lfOwed := n.lfOwed, decided := n.decided)
    ensures Leads(r, n, seen, t, out) <==> Leads(r, h, seen, t, out)
  {
    hide Possible, PossibleUnit, PossibleRaw, LinesOf;
  }

  lemma TermEnds(r: Rules, h: Holder, seen: Bytes, term: Bytes, rest: Bytes, out: Option<Bytes>)
    requires !h.failed && h.mode == Holding && Sound(h) && Terminator(term, rest)
    requires Leads(r, LineStep(r, h, h.partial, term), [], rest, out)
    ensures Leads(r, h, seen, term + rest, out)
  {
    assert NoTerm(h.partial) && (!h.inEvent ==> h.unit == []) && term != [];
    hide LineStep, Sound, LinesOf, Possible, PossibleUnit, Terminator;
    assert h.partial + (term + rest) == h.partial + term + rest;
    OneMore(h.partial, term, rest);
    LineLeads(r, h, h.partial, term, rest, LinesOf(h.partial + (term + rest)), out);
  }

  /** A CR whose LF follows ends its line as the CRLF does. */
  lemma CrlfComes(r: Rules, h: Holder, t: Bytes, out: Option<Bytes>)
    requires !h.failed && h.mode == Holding && Sound(h) && t != [] && t[0] == LF
    requires Comes(r, Step(r, h, CR), [], t, out)
    ensures Leads(r, LineStep(r, h, h.partial, [CR, LF]), [], t[1..], out)
  {
    var cr, n := LineStep(r, h, h.partial, [CR]), Step(r, h, CR);
    assert n == if cr.failed then cr else cr.(lfOwed := true);
    CrThenLf(r, h);
    hide LineStep, Step;
    if !cr.failed { LeadsAlike(r, OwedLF(cr), OwedLF(cr).(lfOwed := h.lfOwed), [], t[1..], out); }
    hide Leads;
  }

  lemma TermComes(r: Rules, h: Holder, seen: Bytes, b: byte, t: Bytes, out: Option<Bytes>)
    requires !h.failed && h.mode == Holding && Sound(h) && IsTerm(b) && !(h.lfOwed && b == LF)
    requires Comes(r, Step(r, h, b), [], t, out)
    ensures Leads(r, h, seen, [b] + t, out)
  {
    if b == CR && t != [] && t[0] == LF {
      CrlfComes(r, h, t, out);
      TermEnds(r, h, seen, [CR, LF], t[1..], out);
      assert [CR, LF] + t[1..] == [b] + t;
    } else {
      var n, l := Step(r, h, b), LineStep(r, h, h.partial, [b]);
      assert n == if l.failed then l else l.(lfOwed := b == CR);
      hide LineStep, Step;
      if !l.failed { LeadsAlike(r, l, n, [], t, out); }
      hide Leads, Sound;
      TermEnds(r, h, seen, [b], t, out);
    }
    hide *;
  }

  /** One whole line of the raw relay. */
  lemma RawLineLeads(r: Rules, o: Bytes, l: Line, n: Holder, rest: Bytes, out: Option<Bytes>)
    requires !n.failed && n.out == o + Whole(l) && n.partial == []
    requires if Ends(l) then n.mode == Holding && !n.inEvent else n.mode == Passthrough
    requires Leads(r, n, [], rest, out)
    ensures exists p :: PossibleRaw(r, [l] + LinesOf(rest), p) && out == Before(o, p)
  {
    var ls := [l] + LinesOf(rest);
    ConsLine(l, LinesOf(rest));
    assert [] + rest == rest && n.out[..|n.out|] == n.out;
    hide Blank, LinesOf, Possible, PossibleUnit;
    if Ends(l) {
      var p :| Possible(r, LinesOf(rest), p) && out == Before(n.out, p);
      BeforeTwice(o, Whole(l), p);
      assert PossibleRaw(r, ls, Before(Whole(l), p));
    } else {
      var p :| PossibleRaw(r, LinesOf(rest), p) && out == Before(n.out, p);
      BeforeTwice(o, Whole(l), p);
      assert PossibleRaw(r, ls, Before(Whole(l), p));
    }
  }

  lemma RawTermStep(r: Rules, h: Holder, seen: Bytes, b: byte)
    requires !h.failed && h.mode == Passthrough && Live(h, seen) && IsTerm(b) && !(h.lfOwed && b == LF)
    ensures var n := Step(r, h, b);
            && !n.failed && n.out == h.out + [b] && n.partial == [] && n.lfOwed == (b == CR)
            && (if Blank(seen) then n.mode == Holding && !n.inEvent else n.mode == Passthrough)
  {
    RawAgrees(seen);
    hide RawByte, RawBytes, Blank, HasDataLine;
  }

  /** The state after a terminator and the LF it may be owed. */
  function Settled(n: Holder, t: Bytes): Holder {
    if Owes(n, t) then OwedLF(n) else n
  }

  lemma RawSettled(n: Holder, o: Bytes, seen: Bytes, b: byte, t: Bytes)
    requires !n.failed && n.out == o + seen + [b] && n.partial == [] && IsTerm(b) && n.lfOwed == (b == CR)
    requires if Blank(seen) then n.mode == Holding && !n.inEvent else n.mode == Passthrough
    ensures var m, crlf := Settled(n, t), Owes(n, t);
            var term := if crlf then [CR, LF] else [b];
            && m.out == o + Whole(Line(seen, term)) && m == n.(out := m.out, lfOwed := m.lfOwed)
            && (if Ends(Line(seen, term)) then m.mode == Holding && !m.inEvent else m.mode == Passthrough)
            && Terminator(term, if crlf then t[1..] else t)
            && [b] + t == term + (if crlf then t[1..] else t)
  {
    hide Blank;
    var crlf := Owes(n, t);
    var term := if crlf then [CR, LF] else [b];
    assert Settled(n, t).out == o + seen + term;
    assert o + (seen + term) == o + seen + term;
  }

  lemma ComesSettled(r: Rules, n: Holder, t: Bytes, out: Option<Bytes>)
    requires Comes(r, n, [], t, out)
    ensures Leads(r, Settled(n, t), [], if Owes(n, t) then t[1..] else t, out)
  {
    hide Leads;
  }

  lemma RawLineEnds(r: Rules, m: Holder, o: Bytes, seen: Bytes, term: Bytes, rest: Bytes, out: Option<Bytes>)
    requires !m.failed && m.out == o + Whole(Line(seen, term)) && m.partial == []
    requires if Ends(Line(seen, term)) then m.mode == Holding && !m.inEvent else m.mode == Passthrough
    requires NoTerm(seen) && Terminator(term, rest) && Leads(r, m, [], rest, out)
    ensures exists p :: PossibleRaw(r, LinesOf(seen + (term + rest)), p) && out == Before(o, p)
  {
    hide *;
    RawLineLeads(r, o, Line(seen, term), m, rest, out);
    assert seen + (term + rest) == seen + term + rest;
    OneMore(seen, term, rest);
  }

  lemma RawLineComes(r: Rules, n: Holder, o: Bytes, seen: Bytes, b: byte, t: Bytes, out: Option<Bytes>)
    requires !n.failed && n.out == o + seen + [b] && n.partial == [] && IsTerm(b) && n.lfOwed == (b == CR)
    requires if Blank(seen) then n.mode == Holding && !n.inEvent else n.mode == Passthrough
    requires NoTerm(seen) && Comes(r, n, [], t, out)
    ensures exists p :: PossibleRaw(r, LinesOf(seen + ([b] + t)), p) && out == Before(o, p)
  {
    hide *;
    RawSettled(n, o, seen, b, t);
    ComesSettled(r, n, t, out);
    var m := Settled(n, t);
    if Owes(n, t) {
      RawLineEnds(r, m, o, seen, [CR, LF], t[1..], out);
    } else {
      RawLineEnds(r, m, o, seen, [b], t, out);
    }
  }

  lemma RawTermComes(r: Rules, h: Holder, seen: Bytes, b: byte, t: Bytes, out: Option<Bytes>)
    requires !h.failed && h.mode == Passthrough && Live(h, seen) && IsTerm(b) && !(h.lfOwed && b == LF)
    requires Comes(r, Step(r, h, b), [], t, out)
    ensures Leads(r, h, seen, [b] + t, out)
  {
    var n, o := Step(r, h, b), h.out[..|h.out| - |seen|];
    assert h.out == o + seen && NoTerm(seen);
    RawTermStep(r, h, seen, b);
    hide *;
    RawLineComes(r, n, o, seen, b, t, out);
    RawLeads(r, h, seen, [b] + t, out);
  }

  lemma RawLeads(r: Rules, h: Holder, seen: Bytes, t: Bytes, out: Option<Bytes>)
    requires !h.failed && h.mode == Passthrough && |seen| <= |h.out|
    requires exists rest :: PossibleRaw(r, LinesOf(seen + t), rest) && out == Before(h.out[..|h.out| - |seen|], rest)
    ensures Leads(r, h, seen, t, out)
  {
  }

  /** A byte of text lengthens the line it belongs to. */
  lemma TextComes(r: Rules, h: Holder, seen: Bytes, b: byte, t: Bytes, out: Option<Bytes>)
    requires !h.failed && (h.mode == Passthrough ==> |seen| <= |h.out|) && !IsTerm(b)
    requires Leads(r, Step(r, h, b), Seen(h, seen, b), t, out)
    ensures Leads(r, h, seen, [b] + t, out)
  {
    var n := Step(r, h, b);
    hide Possible, PossibleUnit, PossibleRaw, LinesOf, RawByte;
    if h.mode == Passthrough {
      assert seen + [b] + t == seen + ([b] + t);
      assert n.out[..|n.out| - |seen + [b]|] == h.out[..|h.out| - |seen|];
    } else {
      assert h.partial + [b] + t == h.partial + ([b] + t);
    }
  }

  lemma StepComes(r: Rules, h: Holder, seen: Bytes, b: byte, t: Bytes, out: Option<Bytes>)
    requires Live(h, seen) && Comes(r, Step(r, h, b), Seen(h, seen, b), t, out)
    ensures Comes(r, h, seen, [b] + t, out)
  {
    assert ([b] + t)[1..] == t;
    if h.failed || (h.lfOwed && b == LF) {
      StepOwedCases(r, h, seen, b, t, out);
    } else if IsTerm(b) {
      if h.mode == Holding { TermComes(r, h, seen, b, t, out); } else { RawTermComes(r, h, seen, b, t, out); }
    } else {
      TextComes(r, h, seen, b, t, out);
    }
    hide Leads, HasDataLine, RawBytes;
  }

  lemma StepOwedCases(r: Rules, h: Holder, seen: Bytes, b: byte, t: Bytes, out: Option<Bytes>)
    requires h.failed || (Live(h, seen) && h.lfOwed && b == LF)
    requires Comes(r, Step(r, h, b), Seen(h, seen, b), t, out)
    ensures Comes(r, h, seen, [b] + t, out)
  {
    assert ([b] + t)[1..] == t;
    hide Possible, PossibleUnit, PossibleRaw, LinesOf, HasDataLine, RawBytes;
  }

  // ---- The states stay live ----

  lemma DataLineAppend(u: Bytes, line: Bytes, b: byte)
    requires NoTerm(line) && IsTerm(b) && (u != [] ==> IsTerm(u[|u| - 1]) && !(u[|u| - 1] == CR && line == [] && b == LF))
    ensures HasDataLine(u + line + [b]) ==> HasDataLine(u) || IsData(line)
  {
    hide IsData;
    OneMore(line, [b], []);
    LinesCons([]);
    assert line + [b] + [] == line + [b] && u + line + [b] == u + (line + [b]);
    LinesAppend(u, line + [b]);
    hide LinesOf;
    if HasDataLine(u + line + [b]) {
      var l :| l in LinesOf(u + (line + [b])) && IsData(l.text);
      assert l in LinesOf(u) || l == Line(line, [b]);
    }
  }

  lemma DataLinePartial(u: Bytes, line: Bytes)
    requires NoTerm(line) && (u != [] ==> IsTerm(u[|u| - 1]))
    ensures HasDataLine(u + line) ==> HasDataLine(u) || (line != [] && IsData(line))
  {
    hide IsData;
    Unended(line);
    LinesAppend(u, line);
    hide LinesOf;
    if HasDataLine(u + line) {
      var l :| l in LinesOf(u + line) && IsData(l.text);
      assert l in LinesOf(u) || l == Line(line, []);
    }
  }

  lemma {:induction false} DataLineOwed(u: Bytes)
    requires u != [] && u[|u| - 1] == CR
    ensures HasDataLine(u + [LF]) ==> HasDataLine(u)
    decreases |u|
  {
    hide IsData;
    OwedLineFirst(u);
    LinesCons(u);
    LinesCons(u + [LF]);
    LinesCons([]);
    var rest := AfterFirstLine(u);
    if rest != [] { DataLineOwed(rest); }
    hide LinesOf, FirstLine, AfterFirstLine;
    if HasDataLine(u + [LF]) {
      var l :| l in LinesOf(u + [LF]) && IsData(l.text);
      if l == FirstLine(u + [LF]) {
        assert FirstLine(u) in LinesOf(u);
      } else {
        assert l in LinesOf(AfterFirstLine(u + [LF]));
        assert HasDataLine(rest + [LF]);
        var k :| k in LinesOf(rest) && IsData(k.text);
        assert k in LinesOf(u);
      }
    }
  }

  lemma OwedLineFirst(u: Bytes)
    requires u != [] && u[|u| - 1] == CR
    ensures FirstLine(u + [LF]).text == FirstLine(u).text
    ensures var rest := AfterFirstLine(u);
            if rest == [] then AfterFirstLine(u + [LF]) == [] else rest[|rest| - 1] == CR && AfterFirstLine(u + [LF]) == rest + [LF]
  {
    var n, v := FirstTerm(u), u + [LF];
    assert n < |u|;
    FirstTermIs(v, n);
    var w := TermWidth(u, n);
    assert v[..n] == u[..n];
    if n + w == |u| {
      assert w == 1 && TermWidth(v, n) == 2;
      assert v[n + 2..] == [];
    } else {
      assert TermWidth(v, n) == w;
      assert v[n + w..] == u[n + w..] + [LF];
    }
  }

  lemma HoldLive(r: Rules, h: Holder, seen: Bytes, b: byte)
    requires !h.failed && h.mode == Holding && Live(h, seen)
    ensures Live(Step(r, h, b), Seen(h, seen, b))
  {
    StepSound(r, h, b);
    var n := Step(r, h, b);
    if h.lfOwed && b == LF {
      if h.inEvent { DataLineOwed(h.unit); }
      hide HasDataLine, LineStep;
    } else if IsTerm(b) {
      UnitLive(r, h, b);
      LineStepCases(r, h, h.partial, [b]);
      hide HasDataLine, LineStep, Blank, FieldLine, IsData;
    } else {
      hide HasDataLine, LineStep;
    }
  }

  /** The unit a line step leaves open has no data: line that was not marked. */
  lemma UnitLive(r: Rules, h: Holder, b: byte)
    requires !h.failed && h.mode == Holding && Live(h, []) && IsTerm(b) && !(h.lfOwed && b == LF)
    ensures var n := LineStep(r, h, h.partial, [b]);
            !n.failed && n.inEvent ==>
              n.unit != [] && n.unit[|n.unit| - 1] == b && n.partial == [] && (!n.hasData ==> !HasDataLine(n.unit))
  {
    LineStepCases(r, h, h.partial, [b]);
    if h.inEvent { DataLineAppend(h.unit, h.partial, b); } else { DataLineAppend([], h.partial, b); NoDataInNothing(); }
    assert [] + h.partial + [b] == h.partial + [b] && h.unit + h.partial + [b] == h.unit + (h.partial + [b]);
    hide HasDataLine, LineStep, Blank, FieldLine, IsData, Sound;
  }

  lemma NoDataInNothing()
    ensures !HasDataLine([])
  {
    LinesCons([]);
  }

  lemma RawLive(r: Rules, h: Holder, seen: Bytes, b: byte)
    requires !h.failed && h.mode == Passthrough && Live(h, seen)
    ensures Live(Step(r, h, b), Seen(h, seen, b))
  {
    StepSound(r, h, b);
    RawStepIs(r, h, b);
    if !IsTerm(b) { RawTextLive(h.raw, h.out, seen, b); }
    var n, after := Step(r, h, b), Seen(h, seen, b);
    assert n.out[|n.out|..] == [];
    assert after == if IsTerm(b) then [] else seen + [b];
    assert NoTerm(after) && RawBytes(RawStart, []) == RawStart;
    hide Step, Seen, RawByte, RawBytes, HasDataLine, Sound, EndsRaw;
  }

  lemma RawStepIs(r: Rules, h: Holder, b: byte)
    requires !h.failed && h.mode == Passthrough && (h.lfOwed ==> h.raw == RawStart)
    ensures var n := Step(r, h, b);
            && !n.failed && n.out == h.out + [b] && n.lfOwed == (b == CR)
            && (n.mode == Holding ==> !n.inEvent)
            && (n.mode == Passthrough ==> n.raw == if IsTerm(b) then RawStart else RawByte(h.raw, b))
            && (!IsTerm(b) ==> n.mode == Passthrough)
  {
    hide RawByte, EndsRaw;
  }

  lemma RawTextLive(w: RawLine, sent: Bytes, seen: Bytes, b: byte)
    requires w == RawBytes(RawStart, seen) && |seen| <= |sent| && sent[|sent| - |seen|..] == seen
    ensures RawByte(w, b) == RawBytes(RawStart, seen + [b])
    ensures (sent + [b])[|sent| - |seen|..] == seen + [b]
  {
    hide RawByte;
    RawBytesAppend(RawStart, seen, [b]);
    var one := [b];
    assert one[1..] == [] && RawBytes(RawByte(w, b), []) == RawByte(w, b);
    assert RawBytes(w, one) == RawByte(w, b);
  }

  lemma StepLive(r: Rules, h: Holder, seen: Bytes, b: byte)
    requires Live(h, seen)
    ensures Live(Step(r, h, b), Seen(h, seen, b))
  {
    if h.failed {
    } else if h.mode == Holding {
      HoldLive(r, h, seen, b);
      hide *;
    } else {
      RawLive(r, h, seen, b);
      hide *;
    }
  }

  // ---- A whole read ----

  ghost function SeenRun(r: Rules, h: Holder, seen: Bytes, s: Bytes): Bytes
    decreases |s|
  {
    if s == [] then seen else SeenRun(r, Step(r, h, s[0]), Seen(h, seen, s[0]), s[1..])
  }

  lemma {:induction false} RunComes(r: Rules, h: Holder, seen: Bytes, s: Bytes, t: Bytes, out: Option<Bytes>)
    requires Live(h, seen)
    ensures Live(Run(r, h, s), SeenRun(r, h, seen, s))
    ensures Comes(r, Run(r, h, s), SeenRun(r, h, seen, s), t, out) ==> Comes(r, h, seen, s + t, out)
    decreases |s|
  {
    hide Step, Seen, Live, Comes;
    if s == [] {
      assert s + t == t;
    } else {
      StepLive(r, h, seen, s[0]);
      RunComes(r, Step(r, h, s[0]), Seen(h, seen, s[0]), s[1..], t, out);
      assert [s[0]] + (s[1..] + t) == s + t;
      if Comes(r, Run(r, h, s), SeenRun(r, h, seen, s), t, out) {
        StepComes(r, h, seen, s[0], s[1..] + t, out);
      }
    }
  }

  // ---- The end of a read ----

  /** The line so far, once the end of a read may have opened the raw relay. */
  function EndSeen(r: Rules, h: Holder, seen: Bytes): Bytes {
    if !h.failed && h.mode == Holding && EndRead(r, h).mode == Passthrough then h.partial else seen
  }

  lemma EndLive(r: Rules, h: Holder, seen: Bytes)
    requires Live(h, seen)
    ensures Live(EndRead(r, h), EndSeen(r, h, seen))
  {
    hide HasDataLine, RawBytes;
    var n := OpenRelay(h);
    assert n.out == h.out + h.unit + h.partial;
    assert n.out[|n.out| - |h.partial|..] == h.partial;
  }

  /** What comes next extends the line not yet ended. */
  lemma FirstText(line: Bytes, t: Bytes)
    requires NoTerm(line) && line + t != []
    ensures var ls := LinesOf(line + t); ls != [] && line <= ls[0].text
  {
    var s := line + t;
    LinesCons(s);
    hide LinesOf;
    assert forall i :: 0 <= i < |line| ==> s[i] == line[i];
    assert s[..FirstTerm(s)][..|line|] == line;
  }

  lemma OverflowLeads(r: Rules, h: Holder, seen: Bytes, t: Bytes)
    requires !h.failed && h.mode == Holding && NoTerm(h.partial) && (!h.inEvent ==> h.unit == [])
    requires |h.Held()| > r.maxHeld
    ensures Leads(r, h, seen, t, None)
  {
    if h.partial + t != [] { FirstText(h.partial, t); } else { LinesCons([]); }
    hide LinesOf, Blank, FieldLine, IsData;
    var ls := LinesOf(h.partial + t);
    if h.inEvent {
      assert PossibleUnit(r, h.unit, ls, h.hasData, None);
    } else {
      assert Possible(r, ls, None);
    }
  }

  lemma RawMore(r: Rules, u: Bytes, v: Bytes)
    requires RawAllowed(r, u) && u <= v
    ensures RawAllowed(r, v)
  {
    var k: nat :| r.holdBytes <= k <= |u| && k <= r.maxHeld && MayPass(r, u[..k]);
    assert v[..k] == u[..k];
  }

  lemma DataIsNotOutside(line: Bytes)
    requires IsData(line)
    ensures line != [] && !Blank(line) && !FieldLine(line)
  {
  }

  /** The relay's way through a unit is one of the unit's, wherever in it the key walk may have opened the relay. */
  lemma {:induction false} RawIsPossible(r: Rules, unit: Bytes, ls: seq<Line>, hasData: bool, rest: Option<Bytes>)
    requires PossibleRaw(r, ls, rest) && RawAllowed(r, unit + if ls == [] then [] else ls[0].text)
    requires hasData || (ls != [] && IsData(ls[0].text))
    ensures PossibleUnit(r, unit, ls, hasData, Before(unit, rest))
    decreases |ls|
  {
    hide Blank, IsData, FieldLine, RawAllowed;
    if ls == [] {
      assert unit + [] == unit;
    } else {
      var l := ls[0];
      if IsData(l.text) { DataIsNotOutside(l.text); }
      if Ends(l) {
        var p :| Possible(r, ls[1..], p) && rest == Before(Whole(l), p);
        BeforeTwice(unit, Whole(l), p);
      } else {
        var p :| PossibleRaw(r, ls[1..], p) && rest == Before(Whole(l), p);
        BeforeTwice(unit, Whole(l), p);
        RawMore(r, unit + l.text, unit + Whole(l) + if ls[1..] == [] then [] else ls[1].text);
        RawIsPossible(r, unit + Whole(l), ls[1..], true, p);
      }
    }
  }

  lemma OpenLeads(r: Rules, h: Holder, seen: Bytes, t: Bytes, out: Option<Bytes>)
    requires !h.failed && h.mode == Holding && NoTerm(h.partial) && (!h.inEvent ==> h.unit == [])
    requires RawAllowed(r, h.Held()) && ((h.inEvent && h.hasData) || IsData(h.partial))
    requires Leads(r, OpenRelay(h), h.partial, t, out)
    ensures Leads(r, h, seen, t, out)
  {
    var ls := LinesOf(h.partial + t);
    var n := OpenRelay(h);
    assert n.out[..|n.out| - |h.partial|] == h.out + h.unit;
    var p :| PossibleRaw(r, ls, p) && out == Before(h.out + h.unit, p);
    OpenPossible(r, h, t, p);
    hide LinesOf, Possible, PossibleUnit, PossibleRaw, IsData;
    BeforeTwice(h.out, h.unit, p);
    assert h.out + [] == h.out;
  }

  lemma OpenPossible(r: Rules, h: Holder, t: Bytes, p: Option<Bytes>)
    requires NoTerm(h.partial) && (!h.inEvent ==> h.unit == [])
    requires RawAllowed(r, h.Held()) && ((h.inEvent && h.hasData) || IsData(h.partial))
    requires PossibleRaw(r, LinesOf(h.partial + t), p)
    ensures var ls := LinesOf(h.partial + t);
            if h.inEvent then PossibleUnit(r, h.unit, ls, h.hasData, Before(h.unit, p)) else Possible(r, ls, p)
  {
    var ls := LinesOf(h.partial + t);
    var first := if ls == [] then [] else ls[0].text;
    OpenFirst(h.partial, t);
    hide *;
    if h.inEvent {
      RawMore(r, h.unit + h.partial, h.unit + first);
      RawIsPossible(r, h.unit, ls, h.hasData, p);
    } else {
      assert h.unit + h.partial == h.partial;
      RawMore(r, h.partial, first);
      OpenOutside(r, ls, p);
    }
  }

  lemma OpenFirst(line: Bytes, t: Bytes)
    requires NoTerm(line)
    ensures var ls := LinesOf(line + t); var first := if ls == [] then [] else ls[0].text;
            line <= first && (IsData(line) ==> ls != [] && IsData(first))
  {
    if line + t != [] { FirstText(line, t); } else { LinesCons([]); }
    hide LinesOf;
  }

  lemma OpenOutside(r: Rules, ls: seq<Line>, p: Option<Bytes>)
    requires ls != [] && IsData(ls[0].text) && RawAllowed(r, ls[0].text) && PossibleRaw(r, ls, p)
    ensures Possible(r, ls, p)
  {
    var l := ls[0];
    DataIsNotOutside(l.text);
    hide IsData, Blank, FieldLine, RawAllowed;
    var q :| PossibleRaw(r, ls[1..], q) && p == Before(Whole(l), q);
    RawMore(r, l.text, Whole(l) + if ls[1..] == [] then [] else ls[1].text);
    RawIsPossible(r, Whole(l), ls[1..], true, q);
  }

  /** What may come after the end of a read may come before it. */
  lemma EndComes(r: Rules, h: Holder, seen: Bytes, t: Bytes, out: Option<Bytes>)
    requires Live(h, seen) && Comes(r, EndRead(r, h), EndSeen(r, h, seen), t, out)
    ensures Comes(r, h, seen, t, out)
  {
    var n := EndRead(r, h);
    if h.failed || h.mode == Passthrough {
    } else if |h.Held()| > r.maxHeld {
      OverflowComes(r, h, seen, t);
      hide Leads, HasDataLine;
    } else if n.mode == Passthrough {
      OpenComes(r, h, seen, t, out);
      hide Leads, HasDataLine;
    } else {
      LeadsAlike(r, h, n, seen, t, out);
      LeadsAlike(r, OwedLF(h), OwedLF(n), seen, t[if t == [] then 0 else 1..], out);
      hide Leads, HasDataLine;
    }
  }

  lemma OverflowComes(r: Rules, h: Holder, seen: Bytes, t: Bytes)
    requires !h.failed && h.mode == Holding && Live(h, seen) && |h.Held()| > r.maxHeld
    ensures Comes(r, h, seen, t, None)
  {
    OverflowLeads(r, h, seen, t);
    if Owes(h, t) { OverflowLeads(r, OwedLF(h), seen, t[1..]); }
    hide Leads, HasDataLine;
  }

  lemma OpenComes(r: Rules, h: Holder, seen: Bytes, t: Bytes, out: Option<Bytes>)
    requires !h.failed && h.mode == Holding && Live(h, seen) && EndRead(r, h) == OpenRelay(h)
    requires |h.Held()| <= r.maxHeld && Comes(r, OpenRelay(h), h.partial, t, out)
    ensures Comes(r, h, seen, t, out)
  {
    OpenMeans(r, h, seen);
    var g := OwedLF(h);
    hide Leads, HasDataLine, RawAllowed, IsData, RawBytes;
    if Owes(h, t) {
      assert OwedLF(OpenRelay(h)) == OpenRelay(g) by { assert h.out + (h.unit + []) + [LF] == h.out + (h.unit + [LF] + []); }
      RawMore(r, h.Held(), g.Held());
      OpenLeads(r, g, seen, t[1..], out);
    } else {
      OpenLeads(r, h, seen, t, out);
    }
  }

  lemma OpenMeans(r: Rules, h: Holder, seen: Bytes)
    requires !h.failed && h.mode == Holding && Live(h, seen) && EndRead(r, h) == OpenRelay(h) && |h.Held()| <= r.maxHeld
    ensures RawAllowed(r, h.Held()) && ((h.inEvent && h.hasData) || IsData(h.partial))
  {
    assert h.Held()[..|h.Held()|] == h.Held();
    DataLinePartial(h.unit, h.partial);
    if !h.inEvent { NoDataInNothing(); }
    hide HasDataLine, IsData;
  }

  // ---- A unit judged once stays held ----

  /** What has been judged and is still held was judged at a prefix that is not proved. */
  ghost predicate JudgedOk(r: Rules, h: Holder) {
    !h.failed && h.mode == Holding && h.decided ==>
      exists k: nat :: r.holdBytes <= k <= |h.Held()| && !MayPass(r, h.Held()[..k])
  }

  lemma JudgedMore(r: Rules, h: Holder, n: Holder)
    requires JudgedOk(r, h) && (n.decided && !n.failed && n.mode == Holding ==> !h.failed && h.mode == Holding && h.decided && h.Held() <= n.Held())
    ensures JudgedOk(r, n)
  {
    hide MayPass;
    if n.decided && !n.failed && n.mode == Holding {
      var k: nat :| r.holdBytes <= k <= |h.Held()| && !MayPass(r, h.Held()[..k]);
      assert n.Held()[..k] == h.Held()[..k];
    }
  }

  /** A step that leaves a unit judged only adds to what is held. */
  lemma StepHolds(r: Rules, h: Holder, b: byte)
    requires !h.failed && Sound(h)
    ensures var n := Step(r, h, b);
            n.decided && !n.failed && n.mode == Holding ==> h.mode == Holding && h.decided && h.Held() <= n.Held()
  {
    if h.mode == Holding && !(h.lfOwed && b == LF) && IsTerm(b) {
      LineStepCases(r, h, h.partial, [b]);
      hide LineStep, Blank, FieldLine, IsData;
      assert h.unit + (h.partial + [b]) == h.unit + h.partial + [b];
    } else {
      hide LineStep, RawByte;
    }
  }

  lemma {:induction false} RunJudged(r: Rules, h: Holder, s: Bytes)
    requires JudgedOk(r, h) && (h.failed || Sound(h))
    ensures JudgedOk(r, Run(r, h, s))
    decreases |s|
  {
    hide Step, JudgedOk, Sound;
    if h.failed {
      RunFailed(r, h, s);
    } else if s != [] {
      StepHolds(r, h, s[0]);
      StepSound(r, h, s[0]);
      JudgedMore(r, h, Step(r, h, s[0]));
      RunJudged(r, Step(r, h, s[0]), s[1..]);
    }
  }

  /** After the end of a read, what is held may be held to the end of the stream. */
  lemma EndKept(r: Rules, h: Holder)
    requires JudgedOk(r, h)
    ensures var n := EndRead(r, h); JudgedOk(r, n) && (!n.failed && n.mode == Holding ==> KeptAllowed(r, n.Held()))
  {
    hide MayPass;
    var n, held := EndRead(r, h), h.Held();
    assert held[..|held|] == held;
    if !n.failed && n.mode == Holding {
      assert n.Held() == held && (|held| < r.holdBytes || h.decided || !MayPass(r, held[..|held|]));
    }
  }

  // ---- Whole streams ----

  lemma FinishComes(r: Rules, h: Holder, seen: Bytes)
    requires Live(h, seen) && (!h.failed && h.mode == Holding ==> KeptAllowed(r, h.Held()))
    ensures Comes(r, h, seen, [], Finish(r, h))
  {
    if !h.failed {
      assert seen + [] == seen && h.partial + [] == h.partial && h.out + [] == h.out && h.unit + [] == h.unit;
      Unended(if h.mode == Passthrough then seen else h.partial);
      hide LinesOf, IsData, HasDataLine, RawBytes, Blank, FieldLine, KeptAllowed;
      if h.mode == Passthrough {
        FinishRaw(r, h, seen);
      } else {
        FinishHolding(r, h, seen);
      }
    }
  }

  lemma FinishRaw(r: Rules, h: Holder, seen: Bytes)
    requires !h.failed && h.mode == Passthrough && |seen| <= |h.out| && h.out[|h.out| - |seen|..] == seen
    requires NoTerm(seen)
    ensures Leads(r, h, seen, [], Some(h.out))
  {
    var o := h.out[..|h.out| - |seen|];
    assert o + seen == h.out;
    RawRest(r, seen);
    hide Leads, LinesOf, PossibleRaw;
    assert Before(o, Some(seen)) == Some(h.out);
    RawLeads(r, h, seen, [], Some(h.out));
  }

  lemma RawRest(r: Rules, seen: Bytes)
    requires NoTerm(seen)
    ensures PossibleRaw(r, LinesOf(seen + []), Some(seen))
  {
    Unended(seen);
    assert seen + [] == seen;
    hide LinesOf, Blank;
    if seen != [] {
      var l := Line(seen, []);
      ConsLine(l, []);
      assert [l] + [] == [l];
      assert PossibleRaw(r, [], Some([]));
      assert Whole(l) + [] == seen;
    }
  }

  lemma FinishHolding(r: Rules, h: Holder, seen: Bytes)
    requires !h.failed && h.mode == Holding && (if h.inEvent then h.unit != [] else h.unit == [])
    requires KeptAllowed(r, h.Held())
    requires LinesOf(h.partial + []) == if h.partial == [] then [] else [Line(h.partial, [])]
    ensures Leads(r, h, seen, [], Finish(r, h))
  {
    hide LinesOf, Blank, IsData, FieldLine;
    var l := Line(h.partial, []);
    ConsLine(l, []);
    assert [l] + [] == [l] && h.partial + [] == h.partial && h.unit + [] == h.unit && [] + h.partial == h.partial;
    var p := if h.Held() == [] then Some([]) else r.redact(h.Held());
    if h.inEvent {
      assert PossibleUnit(r, h.unit, LinesOf(h.partial + []), h.hasData, p);
    } else {
      assert Possible(r, LinesOf(h.partial + []), p);
    }
    assert h.out + [] == h.out;
  }

  lemma {:induction false} FeedsCome(r: Rules, h: Holder, seen: Bytes, chunks: seq<Bytes>)
    requires Live(h, seen) && (forall c :: c in chunks ==> c != [])
    requires JudgedOk(r, h) && (!h.failed && h.mode == Holding ==> KeptAllowed(r, h.Held()))
    ensures Comes(r, h, seen, Concat(chunks), Finish(r, FeedAll(r, h, chunks)))
    decreases |chunks|
  {
    assert h.failed || Sound(h);
    hide Run, EndRead, EndSeen, Live, Finish, SeenRun, Leads, JudgedOk, KeptAllowed, Sound;
    var out := Finish(r, FeedAll(r, h, chunks));
    if h.failed {
      FailedComes(r, h, seen, Concat(chunks));
    } else if chunks == [] {
      FinishComes(r, h, seen);
    } else {
      hide Comes;
      var c, rest := chunks[0], Concat(chunks[1..]);
      assert c in chunks && forall d :: d in chunks[1..] ==> d in chunks;
      var g, gs := Run(r, h, c), SeenRun(r, h, seen, c);
      RunComes(r, h, seen, c, rest, out);
      EndLive(r, g, gs);
      RunJudged(r, h, c);
      EndKept(r, g);
      FeedsCome(r, EndRead(r, g), EndSeen(r, g, gs), chunks[1..]);
      EndComes(r, g, gs, rest, out);
    }
  }

  lemma FailedComes(r: Rules, h: Holder, seen: Bytes, t: Bytes)
    requires h.failed
    ensures Finish(r, h) == None && Comes(r, h, seen, t, None)
  {
  }

  /**
   * For every stream, every cut of it into non-empty reads and every verdict of the key walk, the bytes that leave
   * are the units of the whole stream, each rewritten or, where some prefix of `holdBytes` or more may have been
   * proved, raw, and every other line as it came; the stream fails only where rewriting does, or where what waits
   * passes `maxHeld`. So where a unit begins and ends depends neither on verdicts nor on reads.
   */
  lemma EveryCutIsPossible(r: Rules, chunks: seq<Bytes>)
    requires forall c :: c in chunks ==> c != []
    ensures Possible(r, LinesOf(Concat(chunks)), Relayed(r, chunks))
  {
    NoDataInNothing();
    assert Fresh.Held()[..0] == [];
    hide FeedAll, Possible, LinesOf, Concat, HasDataLine;
    FeedsCome(r, Fresh, [], chunks);
    var s := Concat(chunks);
    assert [] + s == s;
    var p :| Possible(r, LinesOf(s), p) && Relayed(r, chunks) == Before([], p);
    if p.Some? { assert [] + p.value == p.value; }
  }

  // ---- Where the cut cannot show ----

  /** Should the key walk prove `seen` of a unit, the relay lets out what rewriting would: the unit as it is. */
  ghost predicate Harmless(r: Rules, unit: Bytes, seen: Bytes) {
    RawAllowed(r, seen) ==> r.redact(unit) == Some(unit)
  }

  /** No unit outgrows `maxHeld`, and none that rewriting changes can be proved once it has reached `holdBytes`. */
  ghost predicate Calm(r: Rules, ls: seq<Line>)
    decreases |ls|, 1
  {
    if ls == [] then true
    else if Outside(ls[0]) then |ls[0].text| <= r.maxHeld && Calm(r, ls[1..])
    else CalmUnit(r, Whole(ls[0]), ls[1..], IsData(ls[0].text))
  }

  ghost predicate CalmUnit(r: Rules, unit: Bytes, ls: seq<Line>, hasData: bool)
    decreases |ls|, 2
  {
    && |unit| <= r.maxHeld
    && (if ls == [] then Harmless(r, unit, unit)
        else if hasData && Ends(ls[0]) then
          && |unit + ls[0].text| <= r.maxHeld
          && Harmless(r, unit, unit + ls[0].text)
          && Calm(r, ls[1..])
        else CalmUnit(r, unit + Whole(ls[0]), ls[1..], hasData || IsData(ls[0].text)))
  }

  /** Calm lines can leave in one way only. */
  lemma {:induction false} OnlyRedaction(r: Rules, ls: seq<Line>, out: Option<Bytes>)
    requires Calm(r, ls) && Possible(r, ls, out)
    ensures out == Redaction(r, ls)
    decreases |ls|, 1
  {
    hide Blank, FieldLine, IsData, RawAllowed;
    if ls != [] {
      if Outside(ls[0]) {
        var rest :| Possible(r, ls[1..], rest) && out == Before(Whole(ls[0]), rest);
        OnlyRedaction(r, ls[1..], rest);
      } else {
        OnlyUnitRedaction(r, Whole(ls[0]), ls[1..], IsData(ls[0].text), out);
      }
    }
  }

  lemma {:induction false} OnlyUnitRedaction(r: Rules, unit: Bytes, ls: seq<Line>, hasData: bool, out: Option<Bytes>)
    requires CalmUnit(r, unit, ls, hasData) && PossibleUnit(r, unit, ls, hasData, out)
    ensures out == UnitRedaction(r, unit, ls, hasData)
    decreases |ls|, 2
  {
    UnitUnfolds(r, unit, ls, hasData);
    hide Blank, FieldLine, IsData, RawAllowed, UnitRedaction;
    if ls != [] {
      if hasData && Ends(ls[0]) {
        var rest :| Possible(r, ls[1..], rest) && (
          || out == Then(r.redact(unit), Before(Whole(ls[0]), rest))
          || (RawAllowed(r, unit + ls[0].text) && out == Before(unit + Whole(ls[0]), rest)));
        BeforeTwice(unit, Whole(ls[0]), rest);
        OnlyRedaction(r, ls[1..], rest);
      } else {
        OnlyUnitRedaction(r, unit + Whole(ls[0]), ls[1..], hasData || IsData(ls[0].text), out);
      }
    }
  }

  /**
   * Chunking invariance: whatever non-empty reads bring a calm stream, CRLFs split across them included, the bytes
   * that leave are the reference redaction of the whole, and the door fails exactly when that does.
   */
  lemma ChunkingInvariance(r: Rules, chunks: seq<Bytes>)
    requires forall c :: c in chunks ==> c != []
    requires Calm(r, LinesOf(Concat(chunks)))
    ensures Relayed(r, chunks) == Redaction(r, LinesOf(Concat(chunks)))
  {
    EveryCutIsPossible(r, chunks);
    hide *;
    OnlyRedaction(r, LinesOf(Concat(chunks)), Relayed(r, chunks));
  }

  // ---- Sizes of the reference cut ----

  /** No more than `m` bytes ever wait: every unit, with the text of its ending line, and every line outside one. */
  predicate Fits(m: nat, ls: seq<Line>)
    decreases |ls|, 1
  {
    if ls == [] then true
    else if Outside(ls[0]) then |ls[0].text| <= m && Fits(m, ls[1..])
    else UnitFits(m, |Whole(ls[0])|, ls[1..], IsData(ls[0].text))
  }

  predicate UnitFits(m: nat, size: nat, ls: seq<Line>, hasData: bool)
    decreases |ls|, 2
  {
    && size <= m
    && (if ls == [] then true
        else if hasData && Ends(ls[0]) then size + |ls[0].text| <= m && Fits(m, ls[1..])
        else UnitFits(m, size + |Whole(ls[0])|, ls[1..], hasData || IsData(ls[0].text)))
  }

  /** Rewriting changes no unit that the key walk proves, at `holdBytes` or past it. */
  ghost predicate ProvedStays(r: Rules) {
    forall unit, text | Blank(text) :: Harmless(r, unit, unit + text)
  }

  /** Units shorter than holdBytes, or of any size that may be held when rewriting changes none that is proved, are calm. */
  lemma {:induction false} FittingIsCalm(r: Rules, m: nat, ls: seq<Line>)
    requires Fits(m, ls) && m <= r.maxHeld && (m < r.holdBytes || ProvedStays(r))
    ensures Calm(r, ls)
    decreases |ls|, 1
  {
    hide Blank, FieldLine, IsData;
    if ls != [] {
      if Outside(ls[0]) {
        FittingIsCalm(r, m, ls[1..]);
      } else {
        FittingUnitIsCalm(r, m, Whole(ls[0]), ls[1..], IsData(ls[0].text));
      }
    }
  }

  lemma {:induction false} FittingUnitIsCalm(r: Rules, m: nat, unit: Bytes, ls: seq<Line>, hasData: bool)
    requires UnitFits(m, |unit|, ls, hasData) && m <= r.maxHeld && (m < r.holdBytes || ProvedStays(r))
    ensures CalmUnit(r, unit, ls, hasData)
    decreases |ls|, 2
  {
    hide FieldLine, IsData, HasDataLine;
    assert unit + [] == unit && Blank([]);
    hide Blank;
    if ls != [] {
      if hasData && Ends(ls[0]) {
        assert ProvedStays(r) ==> Harmless(r, unit, unit + ls[0].text);
        FittingIsCalm(r, m, ls[1..]);
      } else {
        FittingUnitIsCalm(r, m, unit + Whole(ls[0]), ls[1..], hasData || IsData(ls[0].text));
      }
    }
  }

  lemma {:induction false} ShortFits(m: nat, ls: seq<Line>)
    requires |Unlines(ls)| <= m
    ensures Fits(m, ls)
    decreases |ls|, 1
  {
    hide Blank, FieldLine, IsData;
    if ls != [] {
      if Outside(ls[0]) {
        ShortFits(m, ls[1..]);
      } else {
        ShortUnitFits(m, |Whole(ls[0])|, ls[1..], IsData(ls[0].text));
      }
    }
  }

  lemma {:induction false} ShortUnitFits(m: nat, size: nat, ls: seq<Line>, hasData: bool)
    requires size + |Unlines(ls)| <= m
    ensures UnitFits(m, size, ls, hasData)
    decreases |ls|, 2
  {
    hide Blank, FieldLine, IsData;
    if ls != [] {
      if hasData && Ends(ls[0]) {
        ShortFits(m, ls[1..]);
      } else {
        ShortUnitFits(m, size + |Whole(ls[0])|, ls[1..], hasData || IsData(ls[0].text));
      }
    }
  }

  /** The stream door and the buffered door answer alike, for every stream shorter than holdBytes. */
  lemma StreamMatchesBuffered(r: Rules, chunks: seq<Bytes>)
    requires r.holdBytes <= r.maxHeld
    requires forall c :: c in chunks ==> c != []
    requires |Concat(chunks)| < r.holdBytes
    ensures Relayed(r, chunks) == Relayed(r, [Concat(chunks)]) == Redaction(r, LinesOf(Concat(chunks)))
  {
    var s := Concat(chunks);
    LinesLossless(s);
    ShortFits(|s|, LinesOf(s));
    FittingIsCalm(r, |s|, LinesOf(s));
    hide Calm, Fits;
    ChunkingInvariance(r, chunks);
    OneRead(r, s);
    if s != [] {
      ChunkingInvariance(r, [s]);
    } else {
      RunNothing(r, Fresh);
      hide Run;
      assert FeedAll(r, Fresh, [s]) == Feed(r, Fresh, s) == Fresh;
    }
  }

  // ---- A proved unit shows the cut ----

  lemma RelayOpens(r: Rules, line: Bytes)
    requires NoTerm(line) && r.holdBytes <= |line| <= r.maxHeld && MayPass(r, line)
    ensures Feed(r, Fresh, line) == OpenRelay(Fresh.(partial := line))
  {
    RunText(r, Fresh, line);
    NoDataInNothing();
    assert [] + line == line;
    hide HasDataLine, RawBytes, Run;
  }

  lemma RelaySends(r: Rules, h: Holder, seen: Bytes, text: Bytes)
    requires !h.failed && !h.lfOwed && h.mode == Passthrough && h.Held() == [] && h.raw == RawBytes(RawStart, seen)
    requires NoTerm(text) && !Blank(seen + text)
    ensures Finish(r, Feed(r, h, text + [LF, LF])) == Some(h.out + (text + [LF, LF]))
  {
    RawBytesAppend(RawStart, seen, text);
    RawAgrees(seen + text);
    RelayText(r, h, text);
    RunAppend(r, h, text, [LF, LF]);
    var g := Run(r, h, text);
    var n := Step(r, Step(r, g, LF), LF);
    RunTwo(r, g, LF, LF);
    hide RawByte, RawBytes, Blank, Run, HasDataLine;
    assert n.out == h.out + text + [LF] + [LF];
    assert h.out + (text + [LF, LF]) == h.out + text + [LF] + [LF];
    assert n.Held() == [] && n.mode == Holding && !n.failed;
    assert EndRead(r, n).out == n.out && EndRead(r, n).Held() == [] by { NoDataInNothing(); }
  }

  lemma RunTwo(r: Rules, h: Holder, a: byte, b: byte)
    ensures Run(r, h, [a, b]) == Step(r, Step(r, h, a), b)
  {
    hide Step;
    RunCons(r, h, a, [b]);
    RunCons(r, Step(r, h, a), b, []);
    assert [a] + [b] == [a, b] && [b] + [] == [b];
  }

  /**
   * A unit of one data: line that the key walk proves on a prefix of `holdBytes` or more: a read that ends there
   * lets the unit out raw, where in one read it leaves rewritten.
   */
  lemma ProvedUnitsDependOnCuts(r: Rules, line: Bytes, k: nat)
    requires NoTerm(line) && r.holdBytes <= k <= |line| && k <= r.maxHeld && MayPass(r, line[..k])
    ensures Relayed(r, [line[..k], line[k..] + [LF, LF]]) == Some(line + [LF, LF])
    ensures Relayed(r, [line + [LF, LF]]) == Then(r.redact(line + [LF]), Some([LF]))
  {
    ProvedLine(line[..k]);
    DataLonger(line[..k], line);
    DataIsNotOutside(line);
    hide *;
    assert line[..k] + line[k..] == line;
    assert line + [LF, LF] == line[..k] + (line[k..] + [LF, LF]);
    RawUnit(r, line[..k], line[k..]);
    OneReadOfUnit(r, line);
  }

  lemma RawUnit(r: Rules, a: Bytes, text: Bytes)
    requires NoTerm(a) && NoTerm(text) && r.holdBytes <= |a| <= r.maxHeld && MayPass(r, a) && !Blank(a + text)
    ensures Relayed(r, [a, text + [LF, LF]]) == Some(a + (text + [LF, LF]))
  {
    var h := OpenRelay(Fresh.(partial := a));
    assert h.out == a && h.Held() == [] && h.raw == RawBytes(RawStart, a);
    RelayOpens(r, a);
    hide OpenRelay, HasDataLine, RawBytes, Feed, Finish, Blank, FeedAll;
    RelaySends(r, h, a, text);
    TwoReads(r, a, text + [LF, LF]);
  }

  /** What the key walk may prove in one line is a data: line. */
  lemma ProvedLine(line: Bytes)
    requires NoTerm(line) && HasDataLine(line)
    ensures IsData(line)
  {
    Unended(line);
    hide LinesOf, IsData;
  }

  lemma DataLonger(a: Bytes, line: Bytes)
    requires IsData(a) && a <= line
    ensures IsData(line)
  {
  }

  lemma TwoReads(r: Rules, a: Bytes, b: Bytes)
    ensures !Feed(r, Fresh, a).failed ==> FeedAll(r, Fresh, [a, b]) == Feed(r, Feed(r, Fresh, a), b)
  {
    hide Feed;
    var two, one: seq<Bytes> := [a, b], [b];
    assert two[1..] == one && one[1..] == [];
    var g := Feed(r, Fresh, a);
    assert FeedAll(r, g, one) == if g.failed then g else FeedAll(r, Feed(r, g, b), []);
  }

  lemma OneReadOfUnit(r: Rules, line: Bytes)
    requires NoTerm(line) && IsData(line)
    ensures Relayed(r, [line + [LF, LF]]) == Then(r.redact(line + [LF]), Some([LF]))
  {
    DataIsNotOutside(line);
    var s := line + [LF, LF];
    OneRead(r, s);
    RunText(r, Fresh, line);
    RunAppend(r, Fresh, line, [LF, LF]);
    var g := Fresh.(partial := line);
    assert [] + line == line;
    RunTwo(r, g, LF, LF);
    BlankNothing();
    hide Run, IsData, Blank, FieldLine, HasDataLine;
    assert [] + line + [LF] == line + [LF];
    var n := Step(r, Step(r, g, LF), LF);
    match r.redact(line + [LF])
    case None => assert n.failed;
    case Some(res) =>
      assert [] + res + [] + [LF] == res + [LF];
      assert n.out == res + [LF] && n.Held() == [];
      NoDataInNothing();
  }

  lemma BlankNothing()
    ensures Blank([])
  {
  }
}
