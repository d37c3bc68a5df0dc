/**
 * The reader and the walk on streams made by a writer of its own: payloads are framed byte by byte, and read back or
 * rewritten they are the payloads again.
 */
module ReadBack {
  import opened Text
  import opened Lines
  import opened WalkSse

  /** One payload line, written with the optional space after the colon or without it. */
  datatype Field = Field(spaced: bool, value: Bytes)

  /** "data:", a space or none, and the payload. */
  function Framed(f: Field): Bytes {
    [100, 97, 116, 97, 58] + (if f.spaced then [32] else []) + f.value
  }

  /** A payload is one line; without the optional space it must not open with one. */
  ghost predicate Writable(f: Field) {
    (forall i :: 0 <= i < |f.value| ==> f.value[i] != 10 && f.value[i] != 13) && (!f.spaced ==> f.value == [] || f.value[0] != 32)
  }

  ghost predicate AllWritable(events: seq<seq<Field>>) {
    forall ev :: ev in events ==> forall f :: f in ev ==> Writable(f)
  }

  /** LF, CR or CRLF. */
  predicate Ending(term: Bytes) {
    term == [10] || term == [13] || term == [13, 10]
  }

  function EventText(ev: seq<Field>, term: Bytes): Bytes {
    if ev == [] then term else Framed(ev[0]) + term + EventText(ev[1..], term)
  }

  /** The events one after the other, each ended by an empty line. */
  function Stream(events: seq<seq<Field>>, term: Bytes): Bytes {
    if events == [] then [] else EventText(events[0], term) + Stream(events[1..], term)
  }

  function Values(ev: seq<Field>): seq<Bytes> {
    if ev == [] then [] else [ev[0].value] + Values(ev[1..])
  }

  function Following(values: seq<Bytes>): Bytes {
    if values == [] then [] else [10] + values[0] + Following(values[1..])
  }

  /** The payloads of one event, an LF between each two. */
  function Together(values: seq<Bytes>): Bytes {
    if values == [] then [] else values[0] + Following(values[1..])
  }

  /** What a reader is promised: the payloads of each event, unless they are blank. */
  function Promised(events: seq<seq<Field>>): seq<Bytes> {
    if events == [] then []
    else
      var p := Together(Values(events[0]));
      (if Blank(p) then [] else [p]) + Promised(events[1..])
  }

  // ---- The lines of such a stream ----

  function EventLines(ev: seq<Field>, term: Bytes): seq<Line> {
    if ev == [] then [Line([], term)] else [Line(Framed(ev[0]), term)] + EventLines(ev[1..], term)
  }

  function StreamLines(events: seq<seq<Field>>, term: Bytes): seq<Line> {
    if events == [] then [] else EventLines(events[0], term) + StreamLines(events[1..], term)
  }

  /** Nothing that follows a bare CR makes a CRLF of it. */
  predicate Apart(term: Bytes, rest: Bytes) {
    term == [13] && rest != [] ==> rest[0] != 10
  }

  lemma OneMoreLine(l: Line, rest: seq<Line>)
    requires Ending(l.term) && NoTerm(l.text) && Recuts(rest) && Apart(l.term, Unlines(rest)) && (l.text != [] ==> l.text[0] == 100)
    ensures var ls := [l] + rest; Recuts(ls) && Unlines(ls) == l.text + l.term + Unlines(rest) && Apart(l.term, Unlines(ls))
  {
    var ls := [l] + rest;
    assert ls[0] == l && ls[1..] == rest;
    assert (l.text + l.term + Unlines(rest))[0] == if l.text == [] then l.term[0] else l.text[0];
  }

  function Head(spaced: bool): Bytes {
    [100, 97, 116, 97, 58] + if spaced then [32] else []
  }

  lemma FramedParts(f: Field)
    requires Writable(f)
    ensures var t, n := Framed(f), |Head(f.spaced)|;
            t == Head(f.spaced) + f.value && t[..n] == Head(f.spaced) && t[n..] == f.value && NoTerm(t) && t[0] == 100 && !Blank(t)
  {
    var t, head := Framed(f), Head(f.spaced);
    assert t == head + f.value;
    assert forall i :: 0 <= i < |t| ==> t[i] == if i < |head| then head[i] else f.value[i - |head|];
    assert SpaceWidth(t) == 0;
  }

  lemma FramedIsData(f: Field)
    requires Writable(f)
    ensures var t := Framed(f); NoTerm(t) && IsData(t) && t[0] == 100 && Payload(t) == f.value && !Blank(t)
    ensures Prefix(Framed(f)) == Head(f.spaced)
  {
    FramedParts(f);
    var t := Framed(f);
    hide Framed, Blank;
    assert t[..5] == DATA && |t| - |f.value| == |Head(f.spaced)|;
    if f.spaced {
      assert t[5..][0] == t[5] == 32 && t[5..][1..] == t[6..];
    } else {
      assert f.value != [] ==> t[5..][0] == f.value[0];
    }
  }

  lemma {:induction false} EventRecuts(ev: seq<Field>, term: Bytes, rest: seq<Line>)
    requires Ending(term) && (forall f :: f in ev ==> Writable(f)) && Recuts(rest) && Apart(term, Unlines(rest))
    ensures var ls := EventLines(ev, term) + rest;
            Recuts(ls) && Unlines(ls) == EventText(ev, term) + Unlines(rest) && Apart(term, Unlines(ls))
    decreases |ev|
  {
    hide Recuts, Framed, Writable, Ending, Apart, Unlines, IsData, Payload, Prefix, Blank;
    if ev == [] {
      OneMoreLine(Line([], term), rest);
      assert [] + term + Unlines(rest) == term + Unlines(rest);
    } else {
      var l, more := Line(Framed(ev[0]), term), EventLines(ev[1..], term) + rest;
      assert ev[0] in ev && forall f :: f in ev[1..] ==> f in ev;
      FramedIsData(ev[0]);
      EventRecuts(ev[1..], term, rest);
      assert l.text != [] ==> l.text[0] == 100;
      hide NoTerm;
      OneMoreLine(l, more);
      assert EventLines(ev, term) + rest == [l] + more;
      Grouped(l.text, term, EventText(ev[1..], term), Unlines(rest));
    }
  }

  lemma Grouped(a: Bytes, b: Bytes, c: Bytes, d: Bytes)
    ensures a + b + (c + d) == a + b + c + d
  {
  }

  lemma {:induction false} StreamRecuts(events: seq<seq<Field>>, term: Bytes)
    requires Ending(term) && AllWritable(events)
    ensures var ls := StreamLines(events, term); Recuts(ls) && Unlines(ls) == Stream(events, term) && Apart(term, Unlines(ls))
    decreases |events|
  {
    if events != [] {
      assert events[0] in events && forall ev :: ev in events[1..] ==> ev in events;
      StreamRecuts(events[1..], term);
      hide Recuts, Writable;
      EventRecuts(events[0], term, StreamLines(events[1..], term));
    }
  }

  /** The stream is cut into the lines it was written from. */
  lemma StreamLinesAre(events: seq<seq<Field>>, term: Bytes)
    requires Ending(term) && AllWritable(events)
    ensures LinesOf(Stream(events, term)) == StreamLines(events, term)
  {
    StreamRecuts(events, term);
    RecutsIsCut(StreamLines(events, term));
  }

  // ---- Reading back ----

  lemma {:induction false} JoinIsTogether(values: seq<Bytes>)
    ensures Join(values) == Together(values)
    decreases |values|
  {
    if |values| == 1 {
      assert Following(values[1..]) == [];
      assert values[0] + [] == values[0];
    } else if |values| > 1 {
      JoinIsTogether(values[1..]);
      assert values[1..][0] == values[1] && values[1..][1..] == values[2..];
      var rest := Following(values[2..]);
      assert Following(values[1..]) == [10] + values[1] + rest;
      assert values[0] + [LF] + (values[1] + rest) == values[0] + ([10] + values[1] + rest);
    }
  }

  lemma {:induction false} EventReads(data: seq<Bytes>, ev: seq<Field>, term: Bytes, rest: seq<Line>)
    requires forall f :: f in ev ==> Writable(f)
    ensures Events(data, EventLines(ev, term) + rest) == Closed(data + Values(ev)) + Events([], rest)
    decreases |ev|
  {
    hide Framed, Writable, Closed;
    var ls := EventLines(ev, term) + rest;
    if ev == [] {
      assert ls[0] == Line([], term) && ls[1..] == rest && data + Values(ev) == data;
    } else {
      var l, more := Line(Framed(ev[0]), term), EventLines(ev[1..], term) + rest;
      assert ev[0] in ev && forall f :: f in ev[1..] ==> f in ev;
      FramedIsData(ev[0]);
      assert ls == [l] + more && ls[0] == l && ls[1..] == more && ls[..1] == [l];
      OnePayload(l);
      hide IsData, Payload, Blank;
      EventReads(data + [ev[0].value], ev[1..], term, rest);
      assert data + [ev[0].value] + Values(ev[1..]) == data + Values(ev);
    }
  }

  lemma {:induction false} StreamReads(events: seq<seq<Field>>, term: Bytes)
    requires AllWritable(events)
    ensures Events([], StreamLines(events, term)) == Promised(events)
    decreases |events|
  {
    if events != [] {
      assert events[0] in events && forall ev :: ev in events[1..] ==> ev in events;
      hide Writable;
      var values := Values(events[0]);
      EventReads([], events[0], term, StreamLines(events[1..], term));
      StreamReads(events[1..], term);
      JoinIsTogether(values);
      assert [] + values == values;
    }
  }

  /**
   * Reading back: events written with LF, CR or CRLF, each payload line with or without the optional space, are read as
   * their payload lines joined by LFs, in order, the blank ones left out.
   */
  lemma WrittenEventsAreRead(events: seq<seq<Field>>, term: Bytes)
    requires Ending(term) && AllWritable(events)
    ensures Events([], LinesOf(Stream(events, term))) == Promised(events)
  {
    StreamLinesAre(events, term);
    StreamReads(events, term);
  }

  // ---- Rewriting ----

  function DropEmpty(values: seq<Bytes>): seq<Bytes> {
    if values != [] && values[0] == [] then DropEmpty(values[1..]) else values
  }

  /** What the callback is handed: the payloads from the first that is not empty on, an LF between each two. */
  function Given(values: seq<Bytes>): Bytes {
    Together(DropEmpty(values))
  }

  /** An event as the callback leaves it: as it was, or one payload line in the framing of its first. */
  function Answered(fn: Callback, ev: seq<Field>): Option<seq<Field>> {
    if ev == [] then Some(ev)
    else
      match fn(Given(Values(ev)), |ev|)
      case Fail => None
      case Keep => Some(ev)
      case Change(doc) => Some([Field(ev[0].spaced, doc)])
  }

  function AllAnswered(fn: Callback, events: seq<seq<Field>>): Option<seq<seq<Field>>> {
    if events == [] then Some([])
    else
      var ev, rest := Answered(fn, events[0]), AllAnswered(fn, events[1..]);
      if ev == None || rest == None then None else Some([ev.value] + rest.value)
  }

  lemma {:induction false} JoinAfter(sofar: Bytes, values: seq<Bytes>)
    requires sofar != []
    ensures WalkJoin(sofar, values) == sofar + Following(values)
    decreases |values|
  {
    if values == [] {
      assert sofar + [] == sofar;
    } else {
      JoinAfter(sofar + [LF] + values[0], values[1..]);
      assert sofar + [LF] + values[0] + Following(values[1..]) == sofar + ([10] + values[0] + Following(values[1..]));
    }
  }

  lemma {:induction false} WalkJoinIsGiven(values: seq<Bytes>)
    ensures WalkJoin([], values) == Given(values)
    decreases |values|
  {
    if values != [] {
      assert [] + values[0] == values[0];
      if values[0] == [] { WalkJoinIsGiven(values[1..]); } else { JoinAfter(values[0], values[1..]); }
    }
  }

  function FieldLines(ev: seq<Field>, term: Bytes): seq<Line> {
    if ev == [] then [] else [Line(Framed(ev[0]), term)] + FieldLines(ev[1..], term)
  }

  lemma {:induction false} FieldLinesAre(ev: seq<Field>, term: Bytes)
    requires forall f :: f in ev ==> Writable(f)
    ensures EventLines(ev, term) == FieldLines(ev, term) + [Line([], term)]
    ensures Payloads(FieldLines(ev, term)) == Values(ev) && |Values(ev)| == |ev|
    ensures forall doc :: Rewrite(FieldLines(ev, term), doc, false) == []
    decreases |ev|
  {
    hide Framed, Writable;
    if ev != [] {
      assert ev[0] in ev && forall f :: f in ev[1..] ==> f in ev;
      FramedIsData(ev[0]);
      hide IsData, Payload, Prefix;
      FieldLinesAre(ev[1..], term);
      var ls := FieldLines(ev, term);
      assert ls[1..] == FieldLines(ev[1..], term);
    }
  }

  /** The event's lines gathered, the walk flushes them. */
  lemma {:induction false} Gathers(fn: Callback, had: seq<Line>, ev: seq<Field>, term: Bytes, rest: seq<Line>)
    requires forall f :: f in ev ==> Writable(f)
    ensures Walk(fn, had, EventLines(ev, term) + rest) ==
            Then(Flush(fn, had + FieldLines(ev, term)), Then(Walked([Line([], term)], false, 0), Walk(fn, [], rest)))
    decreases |ev|
  {
    hide Framed, Writable, Flush;
    var ls := EventLines(ev, term) + rest;
    if ev == [] {
      assert ls[0] == Line([], term) && ls[1..] == rest && had + [] == had;
    } else {
      var l, more := Line(Framed(ev[0]), term), EventLines(ev[1..], term) + rest;
      assert ev[0] in ev && forall f :: f in ev[1..] ==> f in ev;
      FramedIsData(ev[0]);
      assert ls == [l] + more && ls[0] == l && ls[1..] == more;
      hide Blank;
      Gathers(fn, had + [l], ev[1..], term, rest);
      assert had + [l] + FieldLines(ev[1..], term) == had + FieldLines(ev, term);
    }
  }

  lemma FlushAnswers(fn: Callback, ev: seq<Field>, term: Bytes)
    requires forall f :: f in ev ==> Writable(f)
    ensures var w := Flush(fn, FieldLines(ev, term));
            match Answered(fn, ev)
            case None => w.Stopped?
            case Some(made) => w.Walked? && w.lines == FieldLines(made, term)
  {
    FieldLinesAre(ev, term);
    WalkJoinIsGiven(Values(ev));
    hide Given, WalkJoin, Payloads, Rewrite, FieldLines, Values, Framed, Writable;
    if ev != [] {
      forall doc: Bytes ensures Rewrite(FieldLines(ev, term), doc, true) == FieldLines([Field(ev[0].spaced, doc)], term) {
        ChangedEvent(ev, term, doc);
      }
    } else {
      assert FieldLines(ev, term) == [] && Values(ev) == [] by { NoFields(term); }
    }
  }

  lemma NoFields(term: Bytes)
    ensures FieldLines([], term) == [] && Values([]) == []
  {
  }

  lemma ChangedEvent(ev: seq<Field>, term: Bytes, doc: Bytes)
    requires ev != [] && forall f :: f in ev ==> Writable(f)
    ensures Rewrite(FieldLines(ev, term), doc, true) == FieldLines([Field(ev[0].spaced, doc)], term)
  {
    assert ev[0] in ev && forall f :: f in ev[1..] ==> f in ev;
    FramedIsData(ev[0]);
    FieldLinesAre(ev[1..], term);
    var ls := FieldLines(ev, term);
    assert ls[0] == Line(Framed(ev[0]), term) && ls[1..] == FieldLines(ev[1..], term);
    ChangedLine(ev[0], doc);
    OneField(Field(ev[0].spaced, doc), term);
    hide IsData, Payload, Prefix, Framed, Writable, FieldLines;
  }

  lemma ChangedLine(f: Field, doc: Bytes)
    requires Writable(f)
    ensures Prefix(Framed(f)) + doc == Framed(Field(f.spaced, doc))
  {
    FramedIsData(f);
  }

  lemma OneField(f: Field, term: Bytes)
    ensures FieldLines([f], term) == [Line(Framed(f), term)]
  {
    var one := [f];
    assert one[1..] == [];
  }

  /** The lines of an event whatever its payloads are, the empty line with them. */
  function AnsweredLines(events: seq<seq<Field>>, term: Bytes): seq<Line> {
    if events == [] then [] else FieldLines(events[0], term) + [Line([], term)] + AnsweredLines(events[1..], term)
  }

  lemma {:induction false} StreamAnswers(fn: Callback, events: seq<seq<Field>>, term: Bytes)
    requires AllWritable(events)
    ensures var w := Walk(fn, [], StreamLines(events, term));
            match AllAnswered(fn, events)
            case None => w.Stopped?
            case Some(made) => w.Walked? && w.lines == AnsweredLines(made, term)
    decreases |events|
  {
    if events == [] {
      hide Answered;
    } else {
      assert events[0] in events && forall ev :: ev in events[1..] ==> ev in events;
      hide Writable, Flush, Answered;
      var rest := StreamLines(events[1..], term);
      Gathers(fn, [], events[0], term, rest);
      assert [] + FieldLines(events[0], term) == FieldLines(events[0], term);
      FlushAnswers(fn, events[0], term);
      StreamAnswers(fn, events[1..], term);
      hide Walk;
      var made := AllAnswered(fn, events);
      if made.Some? {
        var e, w := Answered(fn, events[0]).value, Walk(fn, [], rest);
        assert made.value[0] == e && made.value[1..] == AllAnswered(fn, events[1..]).value;
        assert FieldLines(e, term) + ([Line([], term)] + w.lines) == FieldLines(e, term) + [Line([], term)] + w.lines;
      }
    }
  }

  /**
   * Rewriting: the callback is handed each event's payload lines joined by LFs, from the first that is not empty on, and
   * their number; a changed event goes out as one data line in the framing of its first, with its empty line; an unchanged
   * one as it was; and one refusal stops the walk.
   */
  lemma WrittenEventsAreRewritten(fn: Callback, events: seq<seq<Field>>, term: Bytes)
    requires Ending(term) && AllWritable(events)
    ensures var w := Walk(fn, [], LinesOf(Stream(events, term)));
            match AllAnswered(fn, events)
            case None => w.Stopped?
            case Some(made) => w.Walked? && w.lines == AnsweredLines(made, term)
  {
    StreamLinesAre(events, term);
    StreamAnswers(fn, events, term);
  }
}
