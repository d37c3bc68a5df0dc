/** The event-stream reader (mcpclient.eventData) and the in-place rewriter (walkSSE) that must agree with it. */
module WalkSse {
  import opened Text
  import opened Lines

  // ---- What the reader sees ----

  function Join(data: seq<Bytes>): Bytes {
    if data == [] then []
    else if |data| == 1 then data[0]
    else data[0] + [LF] + Join(data[1..])
  }

  /** The event a blank line or the end of the body closes, when it carried data that is not blank. */
  function Closed(data: seq<Bytes>): seq<Bytes> {
    if data == [] || Blank(Join(data)) then [] else [Join(data)]
  }

  function Payloads(ls: seq<Line>): seq<Bytes> {
    if ls == [] then []
    else if IsData(ls[0].text) then [Payload(ls[0].text)] + Payloads(ls[1..])
    else Payloads(ls[1..])
  }

  /** The data of every event of `ls`, `data` already read. */
  function Events(data: seq<Bytes>, ls: seq<Line>): seq<Bytes>
    decreases |ls|
  {
    if ls == [] then Closed(data)
    else if Blank(ls[0].text) then Closed(data) + Events([], ls[1..])
    else Events(data + Payloads(ls[..1]), ls[1..])
  }

  /** eventData: None stands for errNoEvent. */
  method EventData(body: Bytes, limit: int) returns (res: Option<seq<Bytes>>)
    ensures var es := Events([], LinesOf(body));
            res == if es == [] then None else Some(if limit > 0 && |es| > limit then es[..limit + 1] else es)
  {
    hide Events, Closed, IsData, Blank, Payload, LinesOf, FirstLine, AfterFirstLine;
    var out: seq<Bytes> := [];
    var data: seq<Bytes> := [];
    var rest := body;
    ghost var all := Events([], LinesOf(body));
    while rest != []
      invariant all == out + Events(data, LinesOf(rest))
      invariant limit > 0 ==> |out| <= limit
      decreases |rest|
    {
      EventsStep(data, rest);
      AfterShrinks(rest);
      var line, term, next := NextLine(rest);
      rest := next;
      if Blank(line) {
        ghost var after := Events([], LinesOf(rest));
        assert out + (Closed(data) + after) == out + Closed(data) + after;
        ClosedOne(data);
        out := out + Closed(data);
        data := [];
        if limit > 0 && |out| > limit {
          assert all[..limit + 1] == out;
          return Some(out);
        }
      } else if IsData(line) {
        data := data + [Payload(line)];
      }
    }
    EventsStep(data, rest);
    ClosedOne(data);
    out := out + Closed(data);
    assert |out| == limit + 1 ==> out[..|out|] == out;
    res := if out == [] then None else Some(out);
  }

  lemma ClosedOne(data: seq<Bytes>)
    ensures |Closed(data)| <= 1
  {
  }

  lemma EventsStep(data: seq<Bytes>, s: Bytes)
    ensures var line, after := FirstLine(s).text, LinesOf(AfterFirstLine(s));
            Events(data, LinesOf(s)) ==
              if s == [] then Closed(data)
              else if Blank(line) then Closed(data) + Events([], after)
              else if IsData(line) then Events(data + [Payload(line)], after)
              else Events(data, after)
  {
    if s != [] {
      var ls := LinesOf(s);
      assert ls[0] == FirstLine(s) && ls[1..] == LinesOf(AfterFirstLine(s)) && ls[..1] == [FirstLine(s)];
      OnePayload(ls[0]);
      assert data + [] == data;
    }
  }

  lemma OnePayload(l: Line)
    ensures Payloads([l]) == if IsData(l.text) then [Payload(l.text)] else []
  {
    var one: seq<Line> := [l];
    assert one[1..] == [];
  }

  // ---- What the rewriter writes ----

  datatype Answer = Keep | Change(doc: Bytes) | Fail

  type Callback = (Bytes, nat) -> Answer

  datatype Walked = Stopped | Walked(lines: seq<Line>, changed: bool, seen: nat)

  /** The walk's own join: an LF goes in only once something has been joined. */
  function WalkJoin(sofar: Bytes, data: seq<Bytes>): Bytes
    decreases |data|
  {
    if data == [] then sofar
    else WalkJoin((if sofar == [] then [] else sofar + [LF]) + data[0], data[1..])
  }

  /** A data: line's framing: the field name and the one optional space. */
  function Prefix(line: Bytes): Bytes
    requires IsData(line)
  {
    line[..|line| - |Payload(line)|]
  }

  /** A changed event: `doc` at the first data: line, the other data: lines gone, every other line as it was. */
  function Rewrite(ev: seq<Line>, doc: Bytes, first: bool): seq<Line> {
    if ev == [] then []
    else if !IsData(ev[0].text) then [ev[0]] + Rewrite(ev[1..], doc, first)
    else if first then [Line(Prefix(ev[0].text) + doc, ev[0].term)] + Rewrite(ev[1..], doc, false)
    else Rewrite(ev[1..], doc, false)
  }

  function Flush(fn: Callback, ev: seq<Line>): Walked {
    var data := Payloads(ev);
    if data == [] then Walked(ev, false, 0)
    else
      match fn(WalkJoin([], data), |data|)
      case Fail => Stopped
      case Keep => Walked(ev, false, 1)
      case Change(doc) => Walked(Rewrite(ev, doc, true), true, 1)
  }

  function Then(a: Walked, b: Walked): Walked {
    if a.Stopped? || b.Stopped? then Stopped
    else Walked(a.lines + b.lines, a.changed || b.changed, a.seen + b.seen)
  }

  /** The walk over `ls`, the lines `ev` of the current event already read. */
  function Walk(fn: Callback, ev: seq<Line>, ls: seq<Line>): Walked
    decreases |ls|
  {
    if ls == [] then Flush(fn, ev)
    else if Blank(ls[0].text) then Then(Flush(fn, ev), Then(Walked([ls[0]], false, 0), Walk(fn, [], ls[1..])))
    else Walk(fn, ev + [ls[0]], ls[1..])
  }

  // ---- The loops of walkSSE ----

  lemma PayloadsCons(s: Bytes)
    requires s != []
    ensures var l := FirstLine(s); var more := Payloads(LinesOf(AfterFirstLine(s)));
            Payloads(LinesOf(s)) == if IsData(l.text) then [Payload(l.text)] + more else more
  {
    hide FirstLine, AfterFirstLine, IsData, Payload;
    LinesCons(s);
  }

  lemma RewriteCons(s: Bytes, doc: Bytes, first: bool)
    requires s != []
    ensures var l, rest := FirstLine(s), LinesOf(AfterFirstLine(s));
            Unlines(Rewrite(LinesOf(s), doc, first)) ==
              if !IsData(l.text) then l.text + l.term + Unlines(Rewrite(rest, doc, first))
              else if first then Prefix(l.text) + doc + l.term + Unlines(Rewrite(rest, doc, false))
              else Unlines(Rewrite(rest, doc, false))
  {
    hide FirstLine, AfterFirstLine, IsData, Payload, Prefix;
    LinesCons(s);
  }

  /** The scratch join of a multi-line payload. */
  method JoinPayloads(event: Bytes) returns (join: Bytes)
    ensures join == WalkJoin([], Payloads(LinesOf(event)))
  {
    hide IsData, FirstLine, AfterFirstLine;
    join := [];
    var rest := event;
    while rest != []
      invariant WalkJoin(join, Payloads(LinesOf(rest))) == WalkJoin([], Payloads(LinesOf(event)))
      decreases |rest|
    {
      PayloadsCons(rest);
      var line, term, next := NextLine(rest);
      ghost var more := Payloads(LinesOf(next));
      if IsData(line) {
        var p := Payload(line);
        assert ([p] + more)[1..] == more;
        if join != [] { join := join + [LF]; }
        join := join + p;
      }
      assert |next| < |rest| by { AfterShrinks(rest); }
      rest := next;
    }
  }

  lemma AfterShrinks(s: Bytes)
    requires s != []
    ensures |AfterFirstLine(s)| < |s|
  {
  }

  lemma NothingToWrite(doc: Bytes)
    ensures forall first :: Unlines(Rewrite(LinesOf([]), doc, first)) == []
  {
  }

  /** A changed event's lines, written out with `doc` at the first data: line. */
  method WriteEvent(event: Bytes, doc: Bytes) returns (text: Bytes)
    ensures text == Unlines(Rewrite(LinesOf(event), doc, true))
  {
    hide IsData, FirstLine, AfterFirstLine, Rewrite, LinesOf, Prefix;
    text := [];
    var first := true;
    var rest := event;
    assert Unlines(Rewrite(LinesOf([]), doc, true)) == Unlines(Rewrite(LinesOf([]), doc, false)) == [] by { NothingToWrite(doc); }
    while rest != []
      invariant text + Unlines(Rewrite(LinesOf(rest), doc, first)) == Unlines(Rewrite(LinesOf(event), doc, true))
      decreases |rest|
    {
      RewriteCons(rest, doc, first);
      AfterShrinks(rest);
      var line, term, next := NextLine(rest);
      ghost var more := Unlines(Rewrite(LinesOf(next), doc, first));
      if IsData(line) {
        if first {
          first := false;
          more := Unlines(Rewrite(LinesOf(next), doc, false));
          assert text + (Prefix(line) + doc + term + more) == text + (Prefix(line) + doc + term) + more;
          text := text + (Prefix(line) + doc + term);
        }
      } else {
        assert text + (line + term + more) == text + (line + term) + more;
        text := text + (line + term);
      }
      rest := next;
    }
  }

  /** flush: the event `event` with `count` data: lines, the first payload being `payload`. */
  method FlushEvent(fn: Callback, event: Bytes, count: nat, payload: Bytes) returns (ok: bool, changed: bool, text: Bytes)
    requires count == |Payloads(LinesOf(event))|
    requires count > 0 ==> payload == Payloads(LinesOf(event))[0]
    ensures match Flush(fn, LinesOf(event))
            case Stopped => !ok
            case Walked(lines, ch, seen) => ok && changed == ch && text == Unlines(lines) && (!ch ==> text == event) && seen == if count == 0 then 0 else 1
  {
    LinesLossless(event);
    if count == 0 { return true, false, event; }
    var join := payload;
    if count > 1 { join := JoinPayloads(event); }
    assert join == WalkJoin([], Payloads(LinesOf(event))) by {
      hide Payloads;
      if count == 1 { assert Payloads(LinesOf(event)) == [payload]; JoinOne(payload); }
    }
    match fn(join, count)
    case Fail => return false, false, [];
    case Keep => return true, false, event;
    case Change(doc) =>
      text := WriteEvent(event, doc);
      return true, true, text;
  }

  lemma JoinOne(p: Bytes)
    ensures WalkJoin([], [p]) == p
  {
    var one: seq<Bytes> := [p];
    assert one[1..] == [] && [] + p == p;
  }

  lemma PayloadsAppend(a: seq<Line>, b: seq<Line>)
    ensures Payloads(a + b) == Payloads(a) + Payloads(b)
  {
    if a == [] {
      assert a + b == b;
    } else {
      assert (a + b)[1..] == a[1..] + b;
      PayloadsAppend(a[1..], b);
    }
  }

  lemma {:induction false} UnlinesAppend(a: seq<Line>, b: seq<Line>)
    ensures Unlines(a + b) == Unlines(a) + Unlines(b)
  {
    if a == [] {
      assert a + b == b;
    } else {
      assert (a + b)[1..] == a[1..] + b;
      UnlinesAppend(a[1..], b);
    }
  }

  lemma WalkCons(fn: Callback, ev: seq<Line>, s: Bytes)
    requires s != []
    ensures var l, rest := FirstLine(s), LinesOf(AfterFirstLine(s));
            Walk(fn, ev, LinesOf(s)) ==
              if Blank(l.text) then Then(Flush(fn, ev), Then(Walked([l], false, 0), Walk(fn, [], rest)))
              else Walk(fn, ev + [l], rest)
  {
    hide FirstLine, AfterFirstLine, Flush;
    LinesCons(s);
  }

  lemma WalkEnd(fn: Callback, ev: seq<Line>)
    ensures Walk(fn, ev, LinesOf([])) == Flush(fn, ev)
  {
    hide Flush;
  }

  lemma ThenAssoc(a: Walked, b: Walked, c: Walked)
    ensures Then(Then(a, b), c) == Then(a, Then(b, c))
  {
    if a.Walked? && b.Walked? && c.Walked? {
      assert a.lines + b.lines + c.lines == a.lines + (b.lines + c.lines);
    }
  }

  /** What the output is so far: the buffer, and the stretch of body that follows it unchanged. */
  function SoFar(written: Option<Bytes>, body: Bytes, copied: nat, to: nat): Bytes
    requires copied <= to <= |body|
  {
    (if written.Some? then written.value else []) + body[copied..to]
  }

  /** A changed event goes to the buffer; an unchanged one stays where it is. */
  method Splice(written: Option<Bytes>, body: Bytes, copied: nat, from: nat, to: nat, changed: bool, text: Bytes)
    returns (w: Option<Bytes>, c: nat)
    requires copied <= from <= to <= |body| && (written == None ==> copied == 0)
    requires !changed ==> text == body[from..to]
    ensures c <= to && (w == None ==> c == 0) && w.Some? == (written.Some? || changed)
    ensures SoFar(w, body, c, to) == SoFar(written, body, copied, from) + text
  {
    if changed {
      w, c := Some((if written.Some? then written.value else []) + body[copied..from] + text), to;
    } else {
      w, c := written, copied;
      assert body[copied..to] == body[copied..from] + body[from..to];
    }
  }

  /** One event and its ending line, added to what is done. */
  lemma WalkTurn(done: Walked, f: Walked, l: Line, next: Walked)
    requires done.Walked? && f.Walked?
    ensures var d := Then(Then(done, f), Walked([l], false, 0));
            && d.Walked?
            && Then(done, Then(f, Then(Walked([l], false, 0), next))) == Then(d, next)
            && d.seen == done.seen + f.seen && d.changed == (done.changed || f.changed)
            && Unlines(d.lines) == Unlines(done.lines) + Unlines(f.lines) + (l.text + l.term)
  {
    ThenAssoc(done, f, Then(Walked([l], false, 0), next));
    ThenAssoc(Then(done, f), Walked([l], false, 0), next);
    UnlinesAppend(done.lines, f.lines);
    UnlinesAppend(done.lines + f.lines, [l]);
    OneLineText(l);
  }

  /**
   * walkSSE: `written` is nil (None) until an event changes, body[..copied] is in it already, and the current
   * event starts at eventStart.
   */
  method WalkSSE(body: Bytes, fn: Callback) returns (out: Bytes, changed: bool, seen: nat, ok: bool)
    ensures match Walk(fn, [], LinesOf(body))
            case Stopped => !ok
            case Walked(lines, ch, n) => ok && out == Unlines(lines) && changed == ch && seen == n
  {
    hide *;
    var written: Option<Bytes> := None;
    var copied, eventStart, count, pos := 0, 0, 0, 0;
    var firstPay: Bytes := [];
    seen := 0;
    ghost var goal := Walk(fn, [], LinesOf(body));
    ghost var done := Walked([], false, 0);
    assert body[0..0] == [] && body[0..] == body;
    CutAtStart(body);
    WalkStart(body, goal);
    while pos < |body|
      invariant 0 <= copied <= eventStart <= pos <= |body|
      invariant LineCut(body[eventStart..pos], body[pos..])
      invariant goal == Then(done, Walk(fn, LinesOf(body[eventStart..pos]), LinesOf(body[pos..])))
      invariant done.Walked? && done.seen == seen && done.changed == written.Some?
      invariant Unlines(done.lines) == SoFar(written, body, copied, eventStart)
      invariant written == None ==> copied == 0
      invariant count == |Payloads(LinesOf(body[eventStart..pos]))|
      invariant count > 0 ==> firstPay == Payloads(LinesOf(body[eventStart..pos]))[0]
    {
      LinesExtend(body, eventStart, pos);
      WalkCons(fn, LinesOf(body[eventStart..pos]), body[pos..]);
      var line, term, _ := NextLine(body[pos..]);
      ghost var ev, l := LinesOf(body[eventStart..pos]), Line(line, term);
      var lineStart := pos;
      pos := lineStart + |line| + |term|;
      if Blank(line) {
        var good, ch, text := FlushEvent(fn, body[eventStart..lineStart], count, firstPay);
        if !good {
          WalkStops(done, Then(Walked([l], false, 0), Walk(fn, [], LinesOf(body[pos..]))));
          return [], false, seen, false;
        }
        if count > 0 { seen := seen + 1; }
        WalkTurn(done, Flush(fn, ev), l, Walk(fn, [], LinesOf(body[pos..])));
        written, copied := Splice(written, body, copied, eventStart, lineStart, ch, text);
        done := Then(Then(done, Flush(fn, ev)), Walked([l], false, 0));
        SoFarExtend(written, body, copied, lineStart, pos);
        count, eventStart := 0, pos;
        CutAtStart(body[pos..]);
        assert body[eventStart..pos] == [];
      } else {
        PayloadsAppend(ev, [l]);
        OnePayload(l);
        if IsData(line) {
          count := count + 1;
          if count == 1 { firstPay := Payload(line); }
        }
      }
    }
    assert body[eventStart..pos] == body[eventStart..|body|] && body[pos..] == [];
    WalkEnd(fn, LinesOf(body[eventStart..pos]));
    var good, ch, text := FlushEvent(fn, body[eventStart..|body|], count, firstPay);
    if !good {
      WalkStops(done, Stopped);
      return [], false, seen, false;
    }
    if count > 0 { seen := seen + 1; }
    WalkLast(done, Flush(fn, LinesOf(body[eventStart..pos])));
    written, copied := Splice(written, body, copied, eventStart, |body|, ch, text);
    SoFarEnd(written, body, copied);
    if written == None { return body, false, seen, true; }
    return written.value + body[copied..], true, seen, true;
  }

  lemma WalkStart(body: Bytes, goal: Walked)
    ensures Unlines([]) == SoFar(None, body, 0, 0) && Then(Walked([], false, 0), goal) == goal && Payloads([]) == []
  {
    match goal
    case Stopped =>
    case Walked(lines, _, _) => assert [] + lines == lines;
  }

  lemma WalkStops(done: Walked, rest: Walked)
    ensures Then(done, Then(Stopped, rest)) == Stopped && Then(done, Stopped) == Stopped
  {
  }

  lemma WalkLast(done: Walked, f: Walked)
    requires done.Walked? && f.Walked?
    ensures Then(done, f) == Walked(done.lines + f.lines, done.changed || f.changed, done.seen + f.seen)
    ensures Unlines(done.lines + f.lines) == Unlines(done.lines) + Unlines(f.lines)
  {
    UnlinesAppend(done.lines, f.lines);
  }

  lemma SoFarExtend(written: Option<Bytes>, body: Bytes, copied: nat, from: nat, to: nat)
    requires copied <= from <= to <= |body|
    ensures SoFar(written, body, copied, to) == SoFar(written, body, copied, from) + body[from..to]
  {
    assert body[copied..to] == body[copied..from] + body[from..to];
  }

  lemma SoFarEnd(written: Option<Bytes>, body: Bytes, copied: nat)
    requires copied <= |body| && (written == None ==> copied == 0)
    ensures SoFar(written, body, copied, |body|) == if written == None then body else written.value + body[copied..]
  {
    assert body[copied..|body|] == body[copied..];
  }
}
