/**
 * redactUnit, and the two doors put together: on a body without stray lines the stream door's holder and the
 * buffered door's one walk over the whole body write the same bytes.
 */
module Doors {
  import opened Text
  import opened Lines
  import opened WalkSse
  import opened HolderSpec
  import H = HolderTheorems
  import R = RewriteTheorems
  import C = EveryCut

  /** redactErrorDoc: the rewriting of one document, uninterpreted. */
  type Rewriter = Bytes -> Answer

  function OnEvents(doc: Rewriter): Callback {
    (payload, count) => doc(payload)
  }

  function WholeDoc(doc: Rewriter, unit: Bytes): Option<Bytes> {
    match doc(unit)
    case Fail => None
    case Keep => Some(unit)
    case Change(d) => Some(d)
  }

  function UnitResult(doc: Rewriter, unit: Bytes): Option<Bytes> {
    match Walk(OnEvents(doc), [], LinesOf(unit))
    case Stopped => None
    case Walked(lines, changed, seen) => if seen > 0 || changed then Some(Unlines(lines)) else WholeDoc(doc, unit)
  }

  method RedactUnit(doc: Rewriter, unit: Bytes) returns (res: Option<Bytes>)
    ensures res == UnitResult(doc, unit)
  {
    var out, changed, seen, ok := WalkSSE(unit, OnEvents(doc));
    if !ok { return None; }
    if seen > 0 || changed { return Some(out); }
    res := WholeDoc(doc, unit);
  }

  /** No line opens with "data:". */
  ghost predicate NoDataLine(unit: Bytes) {
    forall l :: l in LinesOf(unit) ==> !(|l.text| >= 5 && l.text[..5] == [100, 97, 116, 97, 58])
  }

  lemma {:induction false} NoEvents(fn: Callback, ev: seq<Line>, ls: seq<Line>)
    requires Payloads(ev) == [] && forall l :: l in ls ==> !IsData(l.text)
    ensures Walk(fn, ev, ls) == Walked(ev + ls, false, 0)
    decreases |ls|
  {
    hide Blank, IsData;
    if ls == [] {
      assert ev + ls == ev;
    } else {
      assert ls[0] in ls && forall l :: l in ls[1..] ==> l in ls;
      OnePayload(ls[0]);
      PayloadsAppend(ev, [ls[0]]);
      NoEvents(fn, [], ls[1..]);
      NoEvents(fn, ev + [ls[0]], ls[1..]);
      assert ev + ([ls[0]] + ([] + ls[1..])) == ev + ls && ev + [ls[0]] + ls[1..] == ev + ls;
    }
  }

  /** A unit with no data: line is one document: what the rewriter makes of the whole of it. */
  lemma TextIsOneDocument(doc: Rewriter, unit: Bytes)
    requires NoDataLine(unit)
    ensures UnitResult(doc, unit) ==
            match doc(unit)
            case Fail => None
            case Keep => Some(unit)
            case Change(made) => Some(made)
  {
    NoEvents(OnEvents(doc), [], LinesOf(unit));
    hide Walk;
  }

  /** A unit with an event that carries data is rewritten event by event, and never as one document. */
  lemma EventsAreTheDocuments(doc: Rewriter, unit: Bytes)
    requires !NoDataLine(unit)
    ensures var w := Walk(OnEvents(doc), [], LinesOf(unit));
            UnitResult(doc, unit) == match w case Stopped => None case Walked(lines, _, _) => Some(Unlines(lines))
  {
    var w := Walk(OnEvents(doc), [], LinesOf(unit));
    if w.Walked? && w.seen == 0 {
      NothingSeen(OnEvents(doc), [], LinesOf(unit));
      var l :| l in LinesOf(unit) && |l.text| >= 5 && l.text[..5] == [100, 97, 116, 97, 58];
      PayloadOf(LinesOf(unit), l);
    }
    hide Walk;
  }

  lemma {:induction false} PayloadOf(ls: seq<Line>, l: Line)
    requires l in ls && IsData(l.text)
    ensures Payloads(ls) != []
  {
    hide IsData, Payload;
    if ls[0] != l { PayloadOf(ls[1..], l); }
  }

  /** The stream door's rules for one rewriter. */
  function DoorRules(doc: Rewriter, proved: Bytes -> bool, holdBytes: nat, maxHeld: nat): Rules {
    Rules(u => UnitResult(doc, u), proved, holdBytes, maxHeld)
  }

  /** A rewriter that leaves every document alone makes a door that conserves every byte. */
  lemma KeepingConserves(doc: Rewriter, proved: Bytes -> bool, holdBytes: nat, maxHeld: nat)
    requires forall d :: doc(d) == Keep
    ensures H.ChangesNothing(DoorRules(doc, proved, holdBytes, maxHeld))
  {
    forall u ensures UnitResult(doc, u) == Some(u) {
      KeepsAll(doc, [], LinesOf(u));
      R.UnchangedWalk(OnEvents(doc), [], LinesOf(u));
      assert [] + LinesOf(u) == LinesOf(u);
      LinesLossless(u);
    }
  }

  lemma {:induction false} KeepsAll(doc: Rewriter, ev: seq<Line>, ls: seq<Line>)
    requires forall d :: doc(d) == Keep
    ensures Walk(OnEvents(doc), ev, ls).Walked? && !Walk(OnEvents(doc), ev, ls).changed
    decreases |ls|
  {
    if ls != [] {
      if Blank(ls[0].text) { KeepsAll(doc, [], ls[1..]); } else { KeepsAll(doc, ev + [ls[0]], ls[1..]); }
    }
  }

  // ---- Bodies without stray lines ----

  /** A blank line or a field line: framing that carries no data. */
  predicate Framing(line: Bytes) {
    Blank(line) || FieldLine(line)
  }

  /** Neither door treats a stray line as framing; only bare JSON under the stream label has them. */
  predicate Stray(line: Bytes) {
    !Framing(line) && !IsData(line)
  }

  /** Not white space, and the first byte is neither a colon nor a letter: framing always opens with one of these. */
  predicate OddText(t: Bytes) {
    !Blank(t) && t != [] && t[0] != 58 && !(65 <= t[0] <= 90) && !(97 <= t[0] <= 122)
  }

  /** hasStrayLine. */
  method HasStrayLine(body: Bytes) returns (stray: bool)
    ensures stray <==> exists l :: l in LinesOf(body) && Stray(l.text)
    ensures stray <==> exists l :: l in LinesOf(body) && OddText(l.text)
  {
    assert forall t :: Stray(t) <==> OddText(t) by { hide Blank; }
    hide Stray, FirstLine, AfterFirstLine;
    var rest := body;
    while rest != []
      invariant (exists l :: l in LinesOf(body) && Stray(l.text)) <==> (exists l :: l in LinesOf(rest) && Stray(l.text))
      decreases |rest|
    {
      LinesCons(rest);
      AfterShrinks(rest);
      ghost var ls := LinesOf(rest);
      assert forall l :: l in ls <==> l == ls[0] || l in ls[1..];
      var line, term, next := NextLine(rest);
      assert ls[0] == Line(line, term) && ls[1..] == LinesOf(next);
      if Stray(line) {
        assert ls[0] in ls;
        return true;
      }
      rest := next;
    }
    LinesCons(rest);
    stray := false;
  }

  ghost predicate AllFraming(ls: seq<Line>) {
    forall l :: l in ls ==> Framing(l.text)
  }

  ghost predicate NoStray(ls: seq<Line>) {
    forall l :: l in ls ==> !Stray(l.text)
  }

  /** Framing alone is not a JSON object, so the rewriter leaves it as it is. */
  ghost predicate KeepsFraming(doc: Rewriter) {
    forall u :: AllFraming(LinesOf(u)) ==> doc(u) == Keep
  }

  function Written(w: Walked): Option<Bytes> {
    match w
    case Stopped => None
    case Walked(lines, _, _) => Some(Unlines(lines))
  }

  lemma WrittenThen(a: Walked, b: Walked)
    ensures Written(Then(a, b)) == H.Then(Written(a), Written(b))
  {
    if a.Walked? && b.Walked? { UnlinesAppend(a.lines, b.lines); }
  }

  lemma FramingHasNoData(ls: seq<Line>)
    requires AllFraming(ls)
    ensures Payloads(ls) == []
  {
    if ls != [] {
      assert ls[0] in ls && forall l :: l in ls[1..] ==> l in ls;
      if IsData(ls[0].text) { R.DataIsNotBlank(ls[0].text); }
      FramingHasNoData(ls[1..]);
    }
  }

  lemma {:induction false} FramingWalk(fn: Callback, ls: seq<Line>)
    requires AllFraming(ls)
    ensures Walk(fn, [], ls) == Walked(ls, false, 0)
    decreases |ls|
  {
    if ls == [] {
      hide Framing, Blank;
    } else {
      assert ls[0] in ls && forall l :: l in ls[1..] ==> l in ls;
      FramingWalk(fn, ls[1..]);
      FramingHasNoData([ls[0]]);
      hide Framing, Blank, AllFraming;
      OneMoreLine(fn, ls[0], ls[1..]);
      assert [ls[0]] + ls[1..] == ls;
    }
  }

  /** A line with no data ahead of a walk goes out in front of it. */
  lemma OneMoreLine(fn: Callback, l: Line, ls: seq<Line>)
    requires Payloads([l]) == []
    ensures Walk(fn, [], [l] + ls) == Then(Walked([l], false, 0), Walk(fn, [], ls))
  {
    var all := [l] + ls;
    assert all[1..] == ls && [] + [l] == [l] && [l] + [] == [l];
    WalkPrefix(fn, [l], [], ls);
    hide Blank, Payloads;
    if Blank(l.text) {
      assert Flush(fn, []) == Walked([], false, 0) by { FlushNone(fn); }
      hide Flush;
      ThenNothing(Then(Walked([l], false, 0), Walk(fn, [], ls)));
    }
  }

  lemma FlushNone(fn: Callback)
    ensures Flush(fn, []) == Walked([], false, 0)
  {
  }

  lemma ThenNothing(w: Walked)
    ensures Then(Walked([], false, 0), w) == w
  {
    if w.Walked? { assert [] + w.lines == w.lines; }
  }

  /** Field lines ahead of an event's data go out in front of it, whatever the event becomes. */
  lemma FlushPrefix(fn: Callback, ev: seq<Line>, unit: seq<Line>)
    requires Payloads(ev) == []
    ensures Flush(fn, ev + unit) == Then(Walked(ev, false, 0), Flush(fn, unit))
  {
    PayloadsAppend(ev, unit);
    hide Payloads, Rewrite, WalkJoin;
    assert [] + Payloads(unit) == Payloads(unit);
    match fn(WalkJoin([], Payloads(unit)), |Payloads(unit)|)
    case Change(doc) => RewritePrefix(ev, unit, doc);
    case _ =>
  }

  lemma {:induction false} RewritePrefix(ev: seq<Line>, unit: seq<Line>, doc: Bytes)
    requires Payloads(ev) == []
    ensures Rewrite(ev + unit, doc, true) == ev + Rewrite(unit, doc, true)
    decreases |ev|
  {
    hide IsData, Prefix;
    if ev == [] {
      assert ev + unit == unit;
    } else {
      assert (ev + unit)[1..] == ev[1..] + unit;
      assert !IsData(ev[0].text);
      RewritePrefix(ev[1..], unit, doc);
      assert [ev[0]] + (ev[1..] + Rewrite(unit, doc, true)) == ev + Rewrite(unit, doc, true);
    }
  }

  lemma {:induction false} WalkPrefix(fn: Callback, ev: seq<Line>, unit: seq<Line>, ls: seq<Line>)
    requires Payloads(ev) == []
    ensures Walk(fn, ev + unit, ls) == Then(Walked(ev, false, 0), Walk(fn, unit, ls))
    decreases |ls|
  {
    hide Blank, Payloads;
    FlushPrefix(fn, ev, unit);
    hide Flush;
    if ls != [] {
      if Blank(ls[0].text) {
        ThenAssoc(Walked(ev, false, 0), Flush(fn, unit), Then(Walked([ls[0]], false, 0), Walk(fn, [], ls[1..])));
      } else {
        assert ev + unit + [ls[0]] == ev + (unit + [ls[0]]);
        WalkPrefix(fn, ev, unit + [ls[0]], ls[1..]);
      }
    }
  }

  lemma {:induction false} WalkUnit(fn: Callback, ev: seq<Line>, unit: seq<Line>, rest: seq<Line>)
    requires R.NoneBlank(unit)
    ensures Walk(fn, ev, unit + rest) == Walk(fn, ev + unit, rest)
    decreases |unit|
  {
    hide Blank;
    if unit == [] {
      assert ev + unit == ev && unit + rest == rest;
    } else {
      assert (unit + rest)[1..] == unit[1..] + rest;
      assert unit[0] in unit && forall l :: l in unit[1..] ==> l in unit;
      WalkUnit(fn, ev + [unit[0]], unit[1..], rest);
      assert ev + [unit[0]] + unit[1..] == ev + unit;
    }
  }

  /** A walk that saw no event met no data: line. */
  lemma {:induction false} NothingSeen(fn: Callback, ev: seq<Line>, ls: seq<Line>)
    requires Walk(fn, ev, ls).Walked? && Walk(fn, ev, ls).seen == 0
    ensures Payloads(ev) == [] && Payloads(ls) == []
    decreases |ls|
  {
    hide Blank;
    if ls != [] {
      assert ls == [ls[0]] + ls[1..];
      PayloadsAppend([ls[0]], ls[1..]);
      if Blank(ls[0].text) {
        NothingSeen(fn, [], ls[1..]);
        OnePayload(ls[0]);
        if IsData(ls[0].text) { R.DataIsNotBlank(ls[0].text); }
      } else {
        NothingSeen(fn, ev + [ls[0]], ls[1..]);
        PayloadsAppend(ev, [ls[0]]);
      }
    }
  }

  lemma {:induction false} NoPayloadNoData(ls: seq<Line>)
    requires Payloads(ls) == [] && NoStray(ls)
    ensures AllFraming(ls)
  {
    if ls != [] {
      assert ls[0] in ls && forall l :: l in ls[1..] ==> l in ls;
      NoPayloadNoData(ls[1..]);
    }
  }

  /** One unit by itself: the fallback to one whole document never comes into it. */
  lemma UnitIsWalk(doc: Rewriter, ls: seq<Line>)
    requires Recuts(ls) && NoStray(ls) && KeepsFraming(doc)
    ensures UnitResult(doc, Unlines(ls)) == Written(Walk(OnEvents(doc), [], ls))
  {
    RecutsIsCut(ls);
    var w := Walk(OnEvents(doc), [], ls);
    if w.Walked? && w.seen == 0 {
      NothingSeen(OnEvents(doc), [], ls);
      NoPayloadNoData(ls);
      FramingWalk(OnEvents(doc), ls);
      assert doc(Unlines(ls)) == Keep;
    }
    hide Walk;
  }

  ghost predicate UnitRules(doc: Rewriter, r: Rules) {
    forall u :: r.redact(u) == UnitResult(doc, u)
  }

  lemma {:induction false} HolderIsWalk(doc: Rewriter, r: Rules, ls: seq<Line>)
    requires UnitRules(doc, r) && Recuts(ls) && NoStray(ls) && KeepsFraming(doc)
    ensures H.Redaction(r, ls) == Written(Walk(OnEvents(doc), [], ls))
    decreases |ls|
  {
    hide Blank, FieldLine, IsData, UnitResult, NoStray, KeepsFraming, Recuts;
    var fn := OnEvents(doc);
    if ls != [] {
      var l, rest := ls[0], ls[1..];
      NoStrayPart(ls, 1, |ls|);
      assert ls[1..|ls|] == rest;
      if l.term != [] && (Blank(l.text) || FieldLine(l.text)) {
        RecutsSuffix(ls, 1);
        HolderIsWalk(doc, r, rest);
        FramingFirst(fn, ls);
      } else {
        HolderIsUnit(doc, r, ls);
      }
    }
  }

  lemma NoStrayPart(ls: seq<Line>, i: nat, j: nat)
    requires NoStray(ls) && i <= j <= |ls|
    ensures NoStray(ls[i..j])
  {
  }

  lemma FramingFirst(fn: Callback, ls: seq<Line>)
    requires ls != [] && Framing(ls[0].text)
    ensures Written(Walk(fn, [], ls)) == H.Before(ls[0].text + ls[0].term, Written(Walk(fn, [], ls[1..])))
  {
    hide Blank, FieldLine, IsData;
    var l, rest := ls[0], Walk(fn, [], ls[1..]);
    FramingHasNoData([l]);
    WalkPrefix(fn, [l], [], ls[1..]);
    assert [l] + [] == [l] && [] + [l] == [l];
    var one := Walked([l], false, 0);
    WrittenThen(one, rest);
    OneLineText(l);
    if rest.Walked? { assert [] + ([l] + rest.lines) == [l] + rest.lines; }
  }

  /** The unit the line ls[0] opens, and what follows it. */
  lemma {:induction false} HolderIsUnit(doc: Rewriter, r: Rules, ls: seq<Line>)
    requires UnitRules(doc, r) && Recuts(ls) && NoStray(ls) && KeepsFraming(doc)
    requires ls != [] && (ls[0].term == [] || !Framing(ls[0].text))
    ensures H.UnitRedaction(r, ls[0].text + ls[0].term, ls[1..], IsData(ls[0].text)) == Written(Walk(OnEvents(doc), [], ls))
    decreases |ls|, 1
  {
    hide Blank, FieldLine, UnitResult, KeepsFraming, H.Redaction;
    var n := H.UnitLen(ls[1..], IsData(ls[0].text));
    assert ls[0] in ls;
    if n == |ls| - 1 {
      assert r.redact(Unlines(ls)) == UnitResult(doc, Unlines(ls));
      UnitIsWalk(doc, ls);
    } else {
      assert ls[0].term != [];
      HolderUnitEnds(doc, r, ls, n);
    }
  }

  lemma {:induction false} HolderUnitEnds(doc: Rewriter, r: Rules, ls: seq<Line>, n: nat)
    requires UnitRules(doc, r) && Recuts(ls) && NoStray(ls) && KeepsFraming(doc)
    requires ls != [] && IsData(ls[0].text) && n == H.UnitLen(ls[1..], true) && n < |ls| - 1
    ensures H.UnitRedaction(r, ls[0].text + ls[0].term, ls[1..], true) == Written(Walk(OnEvents(doc), [], ls))
    decreases |ls|, 0
  {
    hide *;
    UnitSplit(ls, n);
    RedactionEnds(r, ls, n);
    var fn, u, after := OnEvents(doc), ls[..n + 1], ls[n + 2..];
    NoStrayPart(ls, 0, n + 1);
    NoStrayPart(ls, n + 2, |ls|);
    Pieces(ls, n + 1);
    RecutsPrefix(ls, n + 1);
    RecutsSuffix(ls, n + 2);
    UnitIsWalk(doc, u);
    RulesApply(doc, r, Unlines(u));
    HolderIsWalk(doc, r, after);
    UnitThenRest(fn, u, ls[n + 1], after);
  }

  lemma Pieces(ls: seq<Line>, k: nat)
    requires k < |ls|
    ensures ls[0..k] == ls[..k] && ls[k + 1..|ls|] == ls[k + 1..] && ls == ls[..k] + ([ls[k]] + ls[k + 1..])
  {
  }

  lemma RulesApply(doc: Rewriter, r: Rules, u: Bytes)
    requires UnitRules(doc, r)
    ensures r.redact(u) == UnitResult(doc, u)
  {
  }

  lemma RedactionEnds(r: Rules, ls: seq<Line>, n: nat)
    requires ls != [] && n == H.UnitLen(ls[1..], true) && n < |ls| - 1
    ensures H.UnitRedaction(r, ls[0].text + ls[0].term, ls[1..], true) ==
            H.Then(r.redact(Unlines(ls[..n + 1])),
                   H.Before(ls[n + 1].text + ls[n + 1].term, H.Redaction(r, ls[n + 2..])))
  {
    hide H.Redaction, H.UnitLen;
    var rest := ls[1..];
    assert rest[..n] == ls[..n + 1][1..] && rest[n] == ls[n + 1] && rest[n + 1..] == ls[n + 2..];
  }

  lemma {:induction false} UnitLines(ls: seq<Line>, n: nat)
    requires Recuts(ls) && n == H.UnitLen(ls, true) && n < |ls|
    ensures R.NoneBlank(ls[..n]) && Blank(ls[n].text)
  {
    hide Blank, IsData;
    if n > 0 {
      UnitLines(ls[1..], n - 1);
      assert ls[..n][1..] == ls[1..][..n - 1];
      assert ls[0].term != [];
      assert forall l :: l in ls[..n] ==> l == ls[0] || l in ls[1..][..n - 1];
    }
  }

  lemma UnitSplit(ls: seq<Line>, n: nat)
    requires Recuts(ls) && ls != [] && IsData(ls[0].text) && n == H.UnitLen(ls[1..], true) && n < |ls| - 1
    ensures R.NoneBlank(ls[..n + 1]) && Blank(ls[n + 1].text)
  {
    R.DataIsNotBlank(ls[0].text);
    UnitLines(ls[1..], n);
    hide Blank, IsData;
    assert ls[..n + 1][1..] == ls[1..][..n];
    assert forall l :: l in ls[..n + 1] ==> l == ls[0] || l in ls[1..][..n];
  }

  lemma UnitThenRest(fn: Callback, u: seq<Line>, end: Line, rest: seq<Line>)
    requires R.NoneBlank(u) && Blank(end.text)
    ensures Written(Walk(fn, [], u + ([end] + rest))) ==
            H.Then(Written(Walk(fn, [], u)), H.Before(end.text + end.term, Written(Walk(fn, [], rest))))
  {
    hide Blank, Flush;
    WalkUnit(fn, [], u, [end] + rest);
    WalkUnit(fn, [], u, []);
    assert [] + u == u && u + [] == u && ([end] + rest)[1..] == rest;
    var tail := Walk(fn, [], rest);
    WrittenThen(Flush(fn, u), Then(Walked([end], false, 0), tail));
    WrittenThen(Walked([end], false, 0), tail);
    OneLineText(end);
  }

  /**
   * For every body without stray lines the holder's answer is the buffered door's: the units it cuts, rewritten one
   * at a time, are the events one walk over the whole body rewrites.
   */
  lemma DoorsAgree(doc: Rewriter, r: Rules, body: Bytes)
    requires UnitRules(doc, r) && KeepsFraming(doc) && NoStray(LinesOf(body))
    ensures H.Redaction(r, LinesOf(body)) == UnitResult(doc, body)
  {
    LinesRecut(body);
    HolderIsWalk(doc, r, LinesOf(body));
    UnitIsWalk(doc, LinesOf(body));
  }

  /**
   * The two doors end to end: a calm stream with no stray line, however its reads are cut, reaches the client as
   * redactUnit of the whole body would have left it; and, when the rewriter is well-behaved and no event collides,
   * what the client reads in it are the upstream's events, rewritten one by one.
   */
  lemma StreamedEventsAreRewritten(doc: Rewriter, r: Rules, chunks: seq<Bytes>)
    requires UnitRules(doc, r) && KeepsFraming(doc)
    requires (forall c :: c in chunks ==> c != []) && C.Calm(r, LinesOf(Concat(chunks)))
    requires NoStray(LinesOf(Concat(chunks)))
    ensures Relayed(r, chunks) == UnitResult(doc, Concat(chunks))
    ensures R.Wellbehaved(OnEvents(doc)) && !R.Collides(OnEvents(doc), [], LinesOf(Concat(chunks))) && Relayed(r, chunks).Some? ==>
              Events([], LinesOf(Relayed(r, chunks).value)) ==
              R.Map(d => R.Replaced(OnEvents(doc), d), R.Visible(R.Groups([], LinesOf(Concat(chunks)))))
  {
    var body := Concat(chunks);
    C.ChunkingInvariance(r, chunks);
    DoorsAgree(doc, r, body);
    LinesRecut(body);
    UnitIsWalk(doc, LinesOf(body));
    hide *;
    var w := Walk(OnEvents(doc), [], LinesOf(body));
    if w.Walked? {
      if R.Wellbehaved(OnEvents(doc)) { R.RewriteCommutesWithReading(OnEvents(doc), body); }
      WrittenWalked(w);
    } else {
      WrittenStopped(w);
    }
  }

  lemma WrittenWalked(w: Walked)
    requires w.Walked?
    ensures Written(w) == Some(Unlines(w.lines))
  {
  }

  lemma WrittenStopped(w: Walked)
    requires w.Stopped?
    ensures Written(w) == None
  {
  }
}
