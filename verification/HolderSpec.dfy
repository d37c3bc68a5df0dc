/**
 * What the stream door's event holder does, byte by byte. `Step` takes one byte, `Run` a stretch
 * of them, and `Feed` one read: the only places a read boundary can show are the check made at
 * the end of a read (`EndRead`) and the empty read, which forgets an owed LF.
 */
module HolderSpec {
  import opened Text
  import opened Lines

  /** The rewriting of one unit (None is its error), the verdict of the key walk, and the two caps. */
  datatype Rules = Rules(redact: Bytes -> Option<Bytes>, proved: Bytes -> bool, holdBytes: nat, maxHeld: nat)

  datatype Mode = Holding | Passthrough

  /** The blank-line watch of the raw relay: whether only white space has gone by, and a rune not yet whole. */
  datatype RawLine = RawLine(blank: bool, rune: Bytes)

  /** `unit` are the held complete lines, `partial` the line not yet ended, `out` the bytes returned. */
  datatype Holder = Holder(out: Bytes, unit: Bytes, partial: Bytes,
                           inEvent: bool, hasData: bool, lfOwed: bool, decided: bool,
                           mode: Mode, raw: RawLine, failed: bool)
  {
    function Held(): Bytes { unit + partial }
  }

  /** The stream has ended with an error; nothing more is returned. */
  const Broken := Holder([], [], [], false, false, false, false, Holding, RawLine(false, []), true)

  const Fresh := Holder([], [], [], false, false, false, false, Holding, RawLine(false, []), false)

  /** One complete line in the holding state. */
  function LineStep(r: Rules, h: Holder, line: Bytes, term: Bytes): Holder {
    var blank := Blank(line);
    if !h.inEvent && (blank || FieldLine(line)) then
      h.(out := h.out + line + term, partial := [], decided := false)
    else if !h.inEvent then
      h.(unit := h.unit + line + term, partial := [], inEvent := true, hasData := IsData(line))
    else if blank && h.hasData then
      match r.redact(h.unit)
      case None => Broken
      case Some(res) =>
        h.(out := h.out + res + line + term, unit := [], partial := [],
           inEvent := false, hasData := false, decided := false)
    else
      h.(unit := h.unit + line + term, partial := [], hasData := h.hasData || IsData(line))
  }

  /** The line step by its four cases, the line and its terminator as one stretch. */
  lemma LineStepCases(r: Rules, h: Holder, line: Bytes, term: Bytes)
    requires !h.failed
    ensures var n := LineStep(r, h, line, term);
            if !h.inEvent && (Blank(line) || FieldLine(line)) then
              n == h.(out := h.out + (line + term), partial := [], decided := false)
            else if !h.inEvent then
              n == h.(unit := h.unit + (line + term), partial := [], inEvent := true, hasData := IsData(line))
            else if Blank(line) && h.hasData then
              if r.redact(h.unit) == None then n.failed
              else n == h.(out := h.out + r.redact(h.unit).value + (line + term), unit := [], partial := [],
                           inEvent := false, hasData := false, decided := false)
            else n == h.(unit := h.unit + (line + term), partial := [], hasData := h.hasData || IsData(line))
  {
    hide Blank, FieldLine, IsData;
    assert forall a: Bytes :: a + (line + term) == a + line + term;
  }

  /** The size of the UTF-8 sequence a lead byte announces; 1 for ASCII and for an invalid lead. */
  function RuneSize(lead: byte): nat {
    if 0xC2 <= lead <= 0xDF then 2
    else if 0xE0 <= lead <= 0xEF then 3
    else if 0xF0 <= lead <= 0xF4 then 4
    else 1
  }

  predicate SecondByte(lead: byte, b: byte) {
    && (if lead == 0xE0 then 0xA0 else if lead == 0xF0 then 0x90 else 0x80) <= b
    && b <= (if lead == 0xED then 0x9F else if lead == 0xF4 then 0x8F else 0xBF)
  }

  /** utf8.FullRune: a whole rune, or bytes that can no longer become one. */
  predicate FullRune(b: Bytes) {
    b != [] && (
      || |b| >= RuneSize(b[0])
      || (|b| > 1 && !SecondByte(b[0], b[1]))
      || (|b| > 2 && !(0x80 <= b[2] <= 0xBF)))
  }

  function RawByte(w: RawLine, b: byte): RawLine {
    if !w.blank then w
    else if w.rune == [] && b < 0x80 then w.(blank := SpaceWidth([b]) > 0)
    else
      var rune := w.rune + [b];
      if FullRune(rune) || |rune| == 4 then RawLine(SpaceWidth(rune) > 0, [])
      else RawLine(true, rune)
  }

  function RawBytes(w: RawLine, s: Bytes): RawLine
    decreases |s|
  {
    if s == [] then w else RawBytes(RawByte(w, s[0]), s[1..])
  }

  const RawStart := RawLine(true, [])

  predicate EndsRaw(w: RawLine) {
    w.blank && w.rune == []
  }

  /** One byte of the raw relay; a terminator after a blank line returns the holder to holding. */
  function RawStep(h: Holder, b: byte): Holder {
    var sent := h.(out := h.out + [b]);
    if !IsTerm(b) then sent.(raw := RawByte(h.raw, b))
    else if EndsRaw(h.raw) then sent.(mode := Holding, inEvent := false, hasData := false, decided := false)
    else sent.(raw := RawStart)
  }

  /** The LF of a CRLF goes where the line it ends went. */
  function OwedLF(h: Holder): Holder {
    if h.mode == Passthrough || !h.inEvent then h.(out := h.out + [LF], lfOwed := false)
    else h.(unit := h.unit + [LF], lfOwed := false)
  }

  function ByteStep(r: Rules, h: Holder, b: byte): Holder {
    if h.mode == Passthrough then RawStep(h, b)
    else if IsTerm(b) then LineStep(r, h, h.partial, [b])
    else h.(partial := h.partial + [b])
  }

  function Step(r: Rules, h: Holder, b: byte): Holder {
    if h.failed then h
    else if h.lfOwed && b == LF then OwedLF(h)
    else
      var n := ByteStep(r, h, b);
      if n.failed then n else n.(lfOwed := b == CR)
  }

  function Run(r: Rules, h: Holder, s: Bytes): Holder
    decreases |s|
  {
    if s == [] then h else Run(r, Step(r, h, s[0]), s[1..])
  }

  /** Some line of `s`, an unended last one included, is a data: line. */
  predicate HasDataLine(s: Bytes) {
    exists l :: l in LinesOf(s) && IsData(l.text)
  }

  predicate MayPass(r: Rules, held: Bytes) {
    r.proved(held) && HasDataLine(held)
  }

  function OpenRelay(h: Holder): Holder {
    h.(out := h.out + h.Held(), unit := [], partial := [], inEvent := true, hasData := true,
       decided := true, mode := Passthrough, raw := RawBytes(RawStart, h.partial))
  }

  /** What the end of a read decides: the size limit, and once per unit the raw relay. */
  function EndRead(r: Rules, h: Holder): Holder {
    if h.failed || h.mode == Passthrough then h
    else if |h.Held()| > r.maxHeld then Broken
    else if h.decided || |h.Held()| < r.holdBytes then h
    else if MayPass(r, h.Held()) then OpenRelay(h)
    else h.(decided := true)
  }

  function Feed(r: Rules, h: Holder, p: Bytes): Holder {
    EndRead(r, Run(r, if p == [] then h.(lfOwed := false) else h, p))
  }

  function FeedAll(r: Rules, h: Holder, chunks: seq<Bytes>): Holder
    decreases |chunks|
  {
    if chunks == [] || h.failed then h else FeedAll(r, Feed(r, h, chunks[0]), chunks[1..])
  }

  /** EOF: everything returned, or None when a unit could not be rewritten or grew too large. */
  function Finish(r: Rules, h: Holder): Option<Bytes> {
    if h.failed then None
    else if h.mode == Passthrough || h.Held() == [] then Some(h.out)
    else
      match r.redact(h.Held())
      case None => None
      case Some(res) => Some(h.out + res)
  }

  /** A whole stream through the door. */
  function Relayed(r: Rules, chunks: seq<Bytes>): Option<Bytes> {
    Finish(r, FeedAll(r, Fresh, chunks))
  }

  /** What the client has by the time the reads are over or one of them fails; the failing read returns nothing. */
  function Delivered(r: Rules, h: Holder, chunks: seq<Bytes>): Bytes
    decreases |chunks|
  {
    if chunks == [] || Feed(r, h, chunks[0]).failed then h.out else Delivered(r, Feed(r, h, chunks[0]), chunks[1..])
  }

  /** What every state between reads keeps. */
  predicate Sound(h: Holder) {
    && (h.mode == Passthrough ==> h.Held() == [] && h.inEvent && h.hasData)
    && (h.mode == Holding && !h.inEvent ==> h.unit == [] && !h.hasData)
    && (h.lfOwed ==> h.partial == [])
    && (forall i :: 0 <= i < |h.partial| ==> !IsTerm(h.partial[i]))
  }

  // ---- Runs ----

  lemma {:induction false} RunAppend(r: Rules, h: Holder, a: Bytes, b: Bytes)
    ensures Run(r, h, a + b) == Run(r, Run(r, h, a), b)
    decreases |a|
  {
    if a == [] {
      assert a + b == b;
    } else {
      assert (a + b)[1..] == a[1..] + b;
      RunAppend(r, Step(r, h, a[0]), a[1..], b);
    }
  }

  lemma {:induction false} RunFailed(r: Rules, h: Holder, s: Bytes)
    requires h.failed
    ensures Run(r, h, s) == h
    decreases |s|
  {
    if s != [] { RunFailed(r, h, s[1..]); }
  }

  lemma StepSound(r: Rules, h: Holder, b: byte)
    requires Sound(h)
    ensures Step(r, h, b).failed || Sound(Step(r, h, b))
  {
    hide RawByte, EndsRaw, Blank, FieldLine, IsData;
  }

  lemma {:induction false} RunSound(r: Rules, h: Holder, s: Bytes)
    requires Sound(h)
    ensures Run(r, h, s).failed || Sound(Run(r, h, s))
    decreases |s|
  {
    hide Step, Sound;
    if h.failed {
      RunFailed(r, h, s);
    } else if s != [] {
      StepSound(r, h, s[0]);
      if Step(r, h, s[0]).failed {
        RunFailed(r, Step(r, h, s[0]), s[1..]);
      } else {
        RunSound(r, Step(r, h, s[0]), s[1..]);
      }
    }
  }

  lemma EndReadSound(r: Rules, h: Holder)
    requires h.failed || Sound(h)
    ensures EndRead(r, h).failed || Sound(EndRead(r, h))
  {
  }

  lemma FeedSound(r: Rules, h: Holder, p: Bytes)
    requires Sound(h)
    ensures Feed(r, h, p).failed || Sound(Feed(r, h, p))
  {
    var from := if p == [] then h.(lfOwed := false) else h;
    RunSound(r, from, p);
    EndReadSound(r, Run(r, from, p));
  }

  /** Text with no terminator only lengthens the partial line. */
  lemma {:induction false} RunText(r: Rules, h: Holder, s: Bytes)
    requires !h.failed && h.mode == Holding && NoTerm(s)
    ensures Run(r, h, s) == if s == [] then h else h.(partial := h.partial + s, lfOwed := false)
    decreases |s|
  {
    if s == [] {
      assert h.partial + s == h.partial;
    } else {
      assert h.partial + s == h.partial + [s[0]] + s[1..];
      RunText(r, Step(r, h, s[0]), s[1..]);
    }
  }

  lemma LineStepOwed(r: Rules, h: Holder, line: Bytes, term: Bytes, owed: bool)
    requires !h.failed
    ensures var n := LineStep(r, h, line, term);
            LineStep(r, h.(lfOwed := owed), line, term) == if n.failed then n else n.(lfOwed := owed)
  {
  }

  /** Whether an LF is still owed is invisible unless the next byte is an LF. */
  lemma StepIgnoresOwed(r: Rules, h: Holder, b: byte, owed: bool)
    requires b != LF && !h.failed
    ensures Step(r, h.(lfOwed := owed), b) == Step(r, h, b)
  {
    var g := h.(lfOwed := owed);
    if h.mode == Passthrough {
      assert RawStep(g, b).(lfOwed := b == CR) == RawStep(h, b).(lfOwed := b == CR);
    } else if IsTerm(b) {
      LineStepOwed(r, h, h.partial, [b], owed);
    }
  }

  /** A CR ends its line as CRLF does; the LF that follows lands on the same side. */
  lemma CrThenLf(r: Rules, h: Holder)
    requires !h.failed && h.mode == Holding && Sound(h)
    ensures var cr := LineStep(r, h, h.partial, [CR]);
            LineStep(r, h, h.partial, [CR, LF]) == if cr.failed then cr else OwedLF(cr).(lfOwed := h.lfOwed)
  {
    var line := h.partial;
    assert [CR] + [LF] == [CR, LF];
    assert h.out + line + [CR] + [LF] == h.out + line + [CR, LF];
    assert h.unit + line + [CR] + [LF] == h.unit + line + [CR, LF];
    match r.redact(h.unit)
    case None =>
    case Some(res) => assert h.out + res + line + [CR] + [LF] == h.out + res + line + [CR, LF];
  }

  function AfterLine(r: Rules, h: Holder, text: Bytes, term: Bytes, rest: Bytes): Holder {
    var after := LineStep(r, h, h.partial + text, term);
    if after.failed then after else after.(lfOwed := term == [CR] && rest == [])
  }

  lemma RunCons(r: Rules, h: Holder, b: byte, s: Bytes)
    ensures Run(r, h, [b] + s) == Run(r, Step(r, h, b), s)
  {
    hide Step;
    assert ([b] + s)[1..] == s;
  }

  lemma StepTerm(r: Rules, h: Holder, t: byte)
    requires !h.failed && h.mode == Holding && IsTerm(t)
    ensures Step(r, h.(lfOwed := false), t) ==
            (var n := LineStep(r, h, h.partial, [t]); if n.failed then n else n.(lfOwed := t == CR))
  {
    LineStepOwed(r, h, h.partial, [t], false);
    hide LineStep;
  }

  lemma RunTerm(r: Rules, h: Holder, term: Bytes, rest: Bytes)
    requires !h.failed && h.mode == Holding && Sound(h)
    requires Terminator(term, rest)
    ensures Run(r, h.(lfOwed := false), term + rest) == Run(r, AfterLine(r, h, [], term, rest), rest)
  {
    hide Step, LineStep, Run, Sound;
    var g := h.(lfOwed := false);
    var cr := Step(r, g, term[0]);
    assert h.partial + [] == h.partial;
    StepTerm(r, h, term[0]);
    assert term + rest == [term[0]] + (term[1..] + rest);
    RunCons(r, g, term[0], term[1..] + rest);
    if term == [CR, LF] {
      CrThenLf(r, h);
      assert term[1..] + rest == [LF] + rest;
      RunCons(r, cr, LF, rest);
      StepOwed(r, cr);
      if cr.failed { RunFailed(r, cr, rest); }
    } else {
      assert term[1..] + rest == rest;
      if rest != [] && term == [CR] && !cr.failed {
        assert rest == [rest[0]] + rest[1..];
        RunCons(r, cr, rest[0], rest[1..]);
        RunCons(r, cr.(lfOwed := false), rest[0], rest[1..]);
        StepIgnoresOwed(r, cr, rest[0], false);
      }
    }
  }

  lemma StepOwed(r: Rules, h: Holder)
    requires h.failed || h.lfOwed
    ensures Step(r, h, LF) == if h.failed then h else OwedLF(h)
  {
  }

  /** Running over one whole line is one line step; afterwards an LF is owed only at the very end. */
  lemma RunLine(r: Rules, h: Holder, text: Bytes, term: Bytes, rest: Bytes)
    requires !h.failed && !h.lfOwed && h.mode == Holding && Sound(h)
    requires NoTerm(text) && Terminator(term, rest)
    ensures Run(r, h, text + term + rest) == Run(r, AfterLine(r, h, text, term, rest), rest)
  {
    var g := h.(partial := h.partial + text);
    assert h.partial + [] == h.partial && g.partial + [] == g.partial;
    RunText(r, h, text);
    assert text + term + rest == text + (term + rest);
    RunAppend(r, h, text, term + rest);
    RunTerm(r, g, term, rest);
    hide Step, Run;
    assert g.(lfOwed := false) == g;
    AfterLinePartial(r, h, text, term, rest);
  }

  lemma AfterLinePartial(r: Rules, h: Holder, text: Bytes, term: Bytes, rest: Bytes)
    ensures AfterLine(r, h.(partial := h.partial + text), [], term, rest) == AfterLine(r, h, text, term, rest)
  {
    assert h.partial + text + [] == h.partial + text;
  }

  // ---- What has gone out never matters to what follows ----

  function Sent(h: Holder, sent: Bytes): Holder {
    if h.failed then h else h.(out := sent + h.out)
  }

  lemma LineStepOut(r: Rules, h: Holder, sent: Bytes, line: Bytes, term: Bytes)
    requires !h.failed
    ensures LineStep(r, Sent(h, sent), line, term) == Sent(LineStep(r, h, line, term), sent)
  {
    assert sent + h.out + line + term == sent + (h.out + line + term);
    match r.redact(h.unit)
    case None =>
    case Some(res) => assert sent + h.out + res + line + term == sent + (h.out + res + line + term);
  }

  lemma RawStepOut(h: Holder, sent: Bytes, b: byte)
    requires !h.failed
    ensures RawStep(Sent(h, sent), b) == Sent(RawStep(h, b), sent)
  {
    hide RawByte, EndsRaw;
    assert sent + h.out + [b] == sent + (h.out + [b]);
  }

  lemma OwedOut(h: Holder, sent: Bytes)
    requires !h.failed
    ensures OwedLF(Sent(h, sent)) == Sent(OwedLF(h), sent)
  {
    assert sent + h.out + [LF] == sent + (h.out + [LF]);
  }

  lemma ByteOut(r: Rules, h: Holder, sent: Bytes, b: byte)
    requires !h.failed
    ensures ByteStep(r, Sent(h, sent), b) == Sent(ByteStep(r, h, b), sent)
  {
    RawStepOut(h, sent, b);
    LineStepOut(r, h, sent, h.partial, [b]);
    hide LineStep, RawStep;
  }

  lemma StepOut(r: Rules, h: Holder, sent: Bytes, b: byte)
    ensures Step(r, Sent(h, sent), b) == Sent(Step(r, h, b), sent)
  {
    if !h.failed {
      OwedOut(h, sent);
      ByteOut(r, h, sent, b);
      hide OwedLF, ByteStep;
    }
  }

  lemma {:induction false} RunOut(r: Rules, h: Holder, sent: Bytes, s: Bytes)
    ensures Run(r, Sent(h, sent), s) == Sent(Run(r, h, s), sent)
    decreases |s|
  {
    hide Step;
    if s != [] {
      StepOut(r, h, sent, s[0]);
      RunOut(r, Step(r, h, s[0]), sent, s[1..]);
    }
  }

  lemma EndReadOut(r: Rules, h: Holder, sent: Bytes)
    ensures EndRead(r, Sent(h, sent)) == Sent(EndRead(r, h), sent)
  {
    hide HasDataLine, RawBytes;
    assert sent + h.out + h.Held() == sent + (h.out + h.Held());
    assert !h.failed ==> Sent(h, sent).Held() == h.Held();
  }

  lemma FeedOut(r: Rules, h: Holder, sent: Bytes, p: Bytes)
    ensures Feed(r, Sent(h, sent), p) == Sent(Feed(r, h, p), sent)
  {
    hide Run, EndRead;
    var from := if p == [] then h.(lfOwed := false) else h;
    RunOut(r, from, sent, p);
    EndReadOut(r, Run(r, from, p), sent);
  }

  lemma OneRead(r: Rules, s: Bytes)
    ensures Concat([s]) == s && FeedAll(r, Fresh, [s]) == Feed(r, Fresh, s)
  {
    hide Feed;
    var one: seq<Bytes> := [s];
    assert one[1..] == [];
    assert s + [] == s;
  }
}
