/** Rewriting a body and then reading it is reading it and then rewriting the events. */
module RewriteTheorems {
  import opened Text
  import opened Lines
  import opened WalkSse

  // ---- Lines as a body has them, and what happens to them when they are put together ----

  /** A line with its terminator, whichever of the three it is. */
  ghost predicate Whole(l: Line) {
    NoTerm(l.text) && (l.term == [LF] || l.term == [CR, LF] || l.term == [CR])
  }

  ghost predicate Clean(ls: seq<Line>) {
    ls == []
    || (|ls| == 1 && NoTerm(ls[0].text) && ls[0].text != [] && ls[0].term == [])
    || (Whole(ls[0]) && Clean(ls[1..]))
  }

  /** A lone CR in front of an empty line ended by LF: written out, the two terminators are one. */
  predicate Clash(a: Line, b: Line) {
    a.term == [CR] && b == Line([], [LF])
  }

  predicate NoClash(ls: seq<Line>) {
    forall i :: 0 < i < |ls| ==> !Clash(ls[i - 1], ls[i])
  }

  lemma OpensWithLF(ls: seq<Line>)
    requires Clean(ls)
    ensures Unlines(ls) != [] && Unlines(ls)[0] == LF <==> ls != [] && ls[0] == Line([], [LF])
    ensures ls != [] ==> Unlines(ls) != []
  {
    if ls != [] {
      assert Unlines(ls) == ls[0].text + ls[0].term + Unlines(ls[1..]);
      hide Clean;
    }
  }

  lemma NoClashTail(ls: seq<Line>)
    requires ls != []
    ensures NoClash(ls) <==> (|ls| > 1 ==> !Clash(ls[0], ls[1])) && NoClash(ls[1..])
  {
    var rest := ls[1..];
    assert forall i :: 0 < i < |rest| ==> rest[i] == ls[i + 1] && rest[i - 1] == ls[i];
    if NoClash(rest) && (|ls| > 1 ==> !Clash(ls[0], ls[1])) {
      forall i | 0 < i < |ls| ensures !Clash(ls[i - 1], ls[i]) {
        if i > 1 { assert !Clash(rest[i - 2], rest[i - 1]); }
      }
    }
  }

  /** Lines cut back into themselves exactly when no two of them clash. */
  lemma {:induction false} RecutsExactly(ls: seq<Line>)
    ensures Recuts(ls) <==> Clean(ls) && NoClash(ls)
  {
    if ls != [] {
      RecutsExactly(ls[1..]);
      NoClashTail(ls);
      if Clean(ls[1..]) { OpensWithLF(ls[1..]); }
      hide NoClash;
      assert ls[1..] != [] ==> ls[1..][0] == ls[1];
      assert |ls| == 1 ==> ls[1..] == [];
    }
  }

  /** The lines a reader cuts out of lines put together: each clash makes one line of two. */
  function Fused(ls: seq<Line>): seq<Line>
    decreases |ls|
  {
    if ls == [] then []
    else if |ls| > 1 && Clash(ls[0], ls[1]) then [Line(ls[0].text, [CR, LF])] + Fused(ls[2..])
    else [ls[0]] + Fused(ls[1..])
  }

  lemma {:induction false} FusedReads(ls: seq<Line>)
    requires Clean(ls)
    ensures Recuts(Fused(ls)) && Unlines(Fused(ls)) == Unlines(ls)
    decreases |ls|
  {
    if ls != [] {
      CleanTail(ls);
      if |ls| > 1 && Clash(ls[0], ls[1]) {
        CleanTail(ls[1..]);
        assert ls[1..][1..] == ls[2..];
        FusedReads(ls[2..]);
        var text, rest := ls[0].text, Unlines(ls[2..]);
        assert text + [CR] + ([] + [LF] + rest) == text + [CR, LF] + rest;
        assert Fused(ls)[1..] == Fused(ls[2..]);
        hide Clean;
      } else {
        FusedReads(ls[1..]);
        OpensWithLF(ls[1..]);
        assert Fused(ls)[1..] == Fused(ls[1..]);
        assert |ls| > 1 ==> ls[1..][0] == ls[1];
        hide Clean;
      }
    }
  }

  /** A clash costs a line that is not a data: line. */
  lemma {:induction false} FusedOthers(ls: seq<Line>)
    ensures |Others(Fused(ls))| <= |Others(ls)| && (|Others(Fused(ls))| == |Others(ls)| <==> NoClash(ls))
    ensures NoClash(ls) ==> Fused(ls) == ls
    decreases |ls|
  {
    if ls != [] {
      NoClashTail(ls);
      if |ls| > 1 && Clash(ls[0], ls[1]) {
        FusedOthers(ls[2..]);
        assert ls[1..][1..] == ls[2..] && !IsData(ls[1].text);
        assert Fused(ls)[1..] == Fused(ls[2..]);
        hide NoClash, IsData;
      } else {
        FusedOthers(ls[1..]);
        assert Fused(ls)[1..] == Fused(ls[1..]);
        hide NoClash, IsData;
      }
    }
  }

  lemma BodyLines(body: Bytes)
    ensures Clean(LinesOf(body)) && NoClash(LinesOf(body))
  {
    LinesRecut(body);
    RecutsExactly(LinesOf(body));
  }

  lemma {:induction false} CleanSplit(a: seq<Line>, b: seq<Line>)
    requires Clean(a + b)
    ensures Clean(a) && Clean(b) && (b != [] ==> forall l :: l in a ==> Whole(l))
    decreases |a|
  {
    if a == [] {
      assert a + b == b;
    } else {
      assert (a + b)[1..] == a[1..] + b;
      if |a + b| == 1 && !Whole(a[0]) {
        assert b == [];
        assert a + b == a;
      } else {
        CleanSplit(a[1..], b);
      }
    }
  }

  lemma {:induction false} CleanJoin(a: seq<Line>, b: seq<Line>)
    requires forall l :: l in a ==> Whole(l)
    requires Clean(b)
    ensures Clean(a + b)
    decreases |a|
  {
    if a == [] {
      assert a + b == b;
    } else {
      assert (a + b)[1..] == a[1..] + b;
      assert a[0] in a && forall l :: l in a[1..] ==> l in a;
      CleanJoin(a[1..], b);
    }
  }

  // ---- The callbacks the law is about ----

  /** One non-blank line that does not open with a space, and only for a payload that is not blank. */
  ghost predicate Wellbehaved(fn: Callback) {
    forall p, n :: fn(p, n).Change? ==>
      var doc := fn(p, n).doc; NoTerm(doc) && !Blank(doc) && doc[0] != SPACE && !Blank(p)
  }

  // ---- The two joins ----

  function LeadingEmpty(data: seq<Bytes>): nat {
    if |data| <= 1 || data[0] != [] then 0 else 1 + LeadingEmpty(data[1..])
  }

  function Newlines(n: nat): Bytes {
    if n == 0 then [] else [LF] + Newlines(n - 1)
  }

  lemma {:induction false} WalkJoinAfter(sofar: Bytes, data: seq<Bytes>)
    requires sofar != [] && data != []
    ensures WalkJoin(sofar, data) == sofar + [LF] + Join(data)
    decreases |data|
  {
    if |data| > 1 {
      WalkJoinAfter(sofar + [LF] + data[0], data[1..]);
      assert sofar + [LF] + data[0] + [LF] + Join(data[1..]) == sofar + [LF] + (data[0] + [LF] + Join(data[1..]));
    }
  }

  /** The walk's join is the reader's without the newlines of the event's leading empty data: lines. */
  lemma {:induction false} WalkJoinDropsLeadingNewlines(data: seq<Bytes>)
    requires data != []
    ensures Join(data) == Newlines(LeadingEmpty(data)) + WalkJoin([], data)
    decreases |data|
  {
    assert [] + data[0] == data[0];
    if |data| > 1 {
      if data[0] == [] {
        WalkJoinDropsLeadingNewlines(data[1..]);
        var k := LeadingEmpty(data[1..]);
        assert data[0] + [LF] + Join(data[1..]) == [LF] + Newlines(k) + WalkJoin([], data[1..]);
      } else {
        WalkJoinAfter(data[0], data[1..]);
        assert [] + (data[0] + [LF] + Join(data[1..])) == data[0] + [LF] + Join(data[1..]);
      }
    } else {
      assert [] + data[0] == data[0];
    }
  }

  lemma {:induction false} NewlinesAreBlank(n: nat, s: Bytes)
    ensures Blank(Newlines(n) + s) <==> Blank(s)
  {
    if n == 0 {
      assert [] + s == s;
    } else {
      var t := Newlines(n) + s;
      assert t[0] == LF && t[1..] == Newlines(n - 1) + s;
      NewlinesAreBlank(n - 1, s);
    }
  }

  /** A payload is blank to the walk exactly when it is blank to the reader. */
  lemma JoinsBlankAlike(data: seq<Bytes>)
    requires data != []
    ensures Blank(WalkJoin([], data)) <==> Blank(Join(data))
  {
    WalkJoinDropsLeadingNewlines(data);
    NewlinesAreBlank(LeadingEmpty(data), WalkJoin([], data));
  }

  // ---- Events as groups of payloads ----

  /** The payload groups of the events of `ls`, `data` already read. */
  function Groups(data: seq<Bytes>, ls: seq<Line>): seq<seq<Bytes>>
    decreases |ls|
  {
    if ls == [] then (if data == [] then [] else [data])
    else if Blank(ls[0].text) then (if data == [] then [] else [data]) + Groups([], ls[1..])
    else Groups(data + Payloads(ls[..1]), ls[1..])
  }

  /** The groups whose event the reader keeps. */
  function Visible(groups: seq<seq<Bytes>>): seq<seq<Bytes>> {
    if groups == [] then []
    else (if Blank(Join(groups[0])) then [] else [groups[0]]) + Visible(groups[1..])
  }

  function Replaced(fn: Callback, data: seq<Bytes>): Bytes {
    match fn(WalkJoin([], data), |data|)
    case Change(doc) => doc
    case _ => Join(data)
  }

  function Map<A, B>(f: A -> B, s: seq<A>): (r: seq<B>)
    ensures |r| == |s| && forall i :: 0 <= i < |s| ==> r[i] == f(s[i])
  {
    if s == [] then [] else [f(s[0])] + Map(f, s[1..])
  }

  lemma {:induction false} VisibleAppend(a: seq<seq<Bytes>>, b: seq<seq<Bytes>>)
    ensures Visible(a + b) == Visible(a) + Visible(b)
  {
    if a == [] {
      assert a + b == b;
    } else {
      assert (a + b)[1..] == a[1..] + b;
      VisibleAppend(a[1..], b);
    }
  }

  lemma {:induction false} MapAppend<A, B>(f: A -> B, a: seq<A>, b: seq<A>)
    ensures Map(f, a + b) == Map(f, a) + Map(f, b)
  {
    if a == [] {
      assert a + b == b;
    } else {
      assert (a + b)[1..] == a[1..] + b;
      MapAppend(f, a[1..], b);
    }
  }

  lemma ClosedIsVisible(data: seq<Bytes>, f: seq<Bytes> -> Bytes)
    ensures Visible(if data == [] then [] else [data]) == if data == [] || Blank(Join(data)) then [] else [data]
    ensures Map(f, [data]) == [f(data)]
  {
    hide Blank;
    var one: seq<seq<Bytes>> := [data];
    assert one[1..] == [];
  }

  lemma {:induction false} EventsAreGroups(data: seq<Bytes>, ls: seq<Line>)
    ensures Events(data, ls) == Map(Join, Visible(Groups(data, ls)))
    decreases |ls|
  {
    hide Blank, IsData, Join, Payloads;
    ClosedIsVisible(data, Join);
    if ls != [] {
      if Blank(ls[0].text) {
        EventsAreGroups([], ls[1..]);
        var g: seq<seq<Bytes>> := if data == [] then [] else [data];
        VisibleAppend(g, Groups([], ls[1..]));
        MapAppend(Join, Visible(g), Visible(Groups([], ls[1..])));
      } else {
        EventsAreGroups(data + Payloads(ls[..1]), ls[1..]);
      }
    }
  }

  ghost predicate NoneBlank(ls: seq<Line>) {
    forall l :: l in ls ==> !Blank(l.text)
  }

  /** Lines with no blank one among them only add their payloads to the open event. */
  lemma {:induction false} EventsSkip(data: seq<Bytes>, a: seq<Line>, b: seq<Line>)
    requires NoneBlank(a)
    ensures Events(data, a + b) == Events(data + Payloads(a), b)
    decreases |a|
  {
    hide Blank, IsData;
    if a == [] {
      assert a + b == b && data + [] == data;
    } else {
      assert (a + b)[1..] == a[1..] + b && (a + b)[..1] == a[..1] && a == a[..1] + a[1..];
      assert a[0] in a && forall l :: l in a[1..] ==> l in a;
      EventsSkip(data + Payloads(a[..1]), a[1..], b);
      PayloadsAppend(a[..1], a[1..]);
      assert data + Payloads(a[..1]) + Payloads(a[1..]) == data + Payloads(a);
    }
  }

  lemma DataIsNotBlank(line: Bytes)
    requires IsData(line)
    ensures !Blank(line)
  {
    assert line[0] == DATA[0];
  }

  lemma RewrittenLine(line: Bytes, doc: Bytes)
    requires IsData(line) && doc != [] && doc[0] != SPACE
    ensures var l := Prefix(line) + doc; IsData(l) && Payload(l) == doc && !Blank(l)
    ensures NoTerm(line) && NoTerm(doc) ==> NoTerm(Prefix(line) + doc)
  {
    var l := Prefix(line) + doc;
    assert Prefix(line) == DATA || Prefix(line) == DATA + [SPACE] by {
      assert line == DATA + line[|DATA|..];
    }
    assert l[..|DATA|] == DATA;
    if Prefix(line) == DATA {
      assert l[|DATA|..] == doc;
    } else {
      assert l[|DATA|..] == [SPACE] + doc;
    }
    DataIsNotBlank(l);
  }

  lemma {:induction false} RewriteReads(ev: seq<Line>, doc: Bytes, first: bool)
    requires NoneBlank(ev) && doc != [] && doc[0] != SPACE
    ensures NoneBlank(Rewrite(ev, doc, first))
    ensures Payloads(Rewrite(ev, doc, first)) == if first && Payloads(ev) != [] then [doc] else []
    decreases |ev|
  {
    hide Blank, Payload, Prefix, IsData;
    if ev != [] {
      assert ev[0] in ev && forall l :: l in ev[1..] ==> l in ev;
      if IsData(ev[0].text) {
        RewrittenLine(ev[0].text, doc);
        RewriteReads(ev[1..], doc, false);
      } else {
        RewriteReads(ev[1..], doc, first);
      }
    }
  }

  function Others(ls: seq<Line>): seq<Line> {
    if ls == [] then [] else if IsData(ls[0].text) then Others(ls[1..]) else [ls[0]] + Others(ls[1..])
  }

  lemma {:induction false} OthersAppend(a: seq<Line>, b: seq<Line>)
    ensures Others(a + b) == Others(a) + Others(b)
  {
    hide IsData;
    if a == [] {
      assert a + b == b;
    } else {
      assert (a + b)[1..] == a[1..] + b;
      OthersAppend(a[1..], b);
    }
  }

  lemma {:induction false} RewriteKeepsOthers(ev: seq<Line>, doc: Bytes, first: bool)
    requires doc != [] && doc[0] != SPACE
    ensures Others(Rewrite(ev, doc, first)) == Others(ev)
    decreases |ev|
  {
    hide Blank, Payload, Prefix, IsData;
    if ev != [] {
      if IsData(ev[0].text) {
        RewrittenLine(ev[0].text, doc);
        RewriteKeepsOthers(ev[1..], doc, false);
      } else {
        RewriteKeepsOthers(ev[1..], doc, first);
      }
    }
  }

  lemma {:induction false} RewriteClean(ev: seq<Line>, doc: Bytes, first: bool)
    requires Clean(ev) && doc != [] && doc[0] != SPACE && NoTerm(doc)
    ensures Clean(Rewrite(ev, doc, first))
    ensures (forall l :: l in ev ==> Whole(l)) ==> forall l :: l in Rewrite(ev, doc, first) ==> Whole(l)
    decreases |ev|
  {
    hide Blank, Payload, Prefix, IsData;
    if ev != [] {
      assert ev[0] in ev && forall l :: l in ev[1..] ==> l in ev;
      CleanTail(ev);
      if IsData(ev[0].text) {
        RewrittenLine(ev[0].text, doc);
        RewriteClean(ev[1..], doc, false);
      } else {
        RewriteClean(ev[1..], doc, first);
      }
    }
  }

  lemma CleanTail(ls: seq<Line>)
    requires Clean(ls) && ls != []
    ensures Clean(ls[1..]) && NoTerm(ls[0].text)
    ensures Whole(ls[0]) || (ls[1..] == [] && ls[0].term == [])
  {
  }

  /** One event through the callback: what the reader makes of it, and what it leaves alone. */
  lemma FlushReads(fn: Callback, ev: seq<Line>)
    requires Wellbehaved(fn) && NoneBlank(ev) && Flush(fn, ev).Walked?
    ensures var out, data := Flush(fn, ev).lines, Payloads(ev);
            && NoneBlank(out)
            && Others(out) == Others(ev)
            && Closed(Payloads(out)) == Map(d => Replaced(fn, d), Visible(if data == [] then [] else [data]))
            && (Clean(ev) ==> Clean(out))
            && ((forall l :: l in ev ==> Whole(l)) ==> forall l :: l in out ==> Whole(l))
  {
    var data := Payloads(ev);
    hide Blank, IsData, Whole;
    ClosedIsVisible(data, d => Replaced(fn, d));
    if data != [] {
      JoinsBlankAlike(data);
      match fn(WalkJoin([], data), |data|)
      case Change(doc) =>
        EmptyIsBlank();
        assert NoTerm(doc) && !Blank(doc) && doc[0] != SPACE && !Blank(Join(data));
        RewriteReads(ev, doc, true);
        RewriteKeepsOthers(ev, doc, true);
        if Clean(ev) { RewriteClean(ev, doc, true); }
        if forall l :: l in ev ==> Whole(l) { WholeIsClean(ev); RewriteClean(ev, doc, true); }
        assert Join([doc]) == doc;
      case _ =>
    }
  }

  lemma {:induction false} WholeIsClean(ls: seq<Line>)
    requires forall l :: l in ls ==> Whole(l)
    ensures Clean(ls)
  {
    if ls != [] {
      assert ls[0] in ls && forall l :: l in ls[1..] ==> l in ls;
      WholeIsClean(ls[1..]);
    }
  }

  lemma EmptyIsBlank()
    ensures Blank([])
  {
  }

  lemma {:induction false} WalkReads(fn: Callback, ev: seq<Line>, ls: seq<Line>)
    requires Wellbehaved(fn) && NoneBlank(ev) && Walk(fn, ev, ls).Walked?
    ensures var out := Walk(fn, ev, ls).lines;
            && Events([], out) == Map(d => Replaced(fn, d), Visible(Groups(Payloads(ev), ls)))
            && Others(out) == Others(ev + ls)
            && (Clean(ev + ls) ==> Clean(out))
    decreases |ls|
  {
    hide Flush, Wellbehaved, Replaced, IsData, Whole, Blank, Closed;
    var data := Payloads(ev);
    if ls == [] {
      FlushReads(fn, ev);
      var out := Flush(fn, ev).lines;
      assert ev + ls == ev && out + [] == out && [] + Payloads(out) == Payloads(out);
      EventsSkip([], out, []);
    } else if Blank(ls[0].text) {
      WalkReads(fn, [], ls[1..]);
      WalkBlankLine(fn, ev, ls);
    } else {
      var next := ev + [ls[0]];
      assert ev + ls == next + ls[1..] && ls[..1] == [ls[0]];
      PayloadsAppend(ev, ls[..1]);
      WalkReads(fn, next, ls[1..]);
    }
  }

  lemma WalkBlankLine(fn: Callback, ev: seq<Line>, ls: seq<Line>)
    requires Wellbehaved(fn) && NoneBlank(ev) && ls != [] && Blank(ls[0].text)
    requires Flush(fn, ev).Walked? && Walk(fn, [], ls[1..]).Walked?
    requires var tail := Walk(fn, [], ls[1..]).lines;
             && Events([], tail) == Map(d => Replaced(fn, d), Visible(Groups([], ls[1..])))
             && Others(tail) == Others([] + ls[1..])
             && (Clean([] + ls[1..]) ==> Clean(tail))
    ensures var out := Flush(fn, ev).lines + ([ls[0]] + Walk(fn, [], ls[1..]).lines);
            && Events([], out) == Map(d => Replaced(fn, d), Visible(Groups(Payloads(ev), ls)))
            && Others(out) == Others(ev + ls)
            && (Clean(ev + ls) ==> Clean(out))
  {
    FlushReads(fn, ev);
    hide Flush, Walk, Wellbehaved, Replaced, IsData, Whole, Blank;
    var f, tail := Flush(fn, ev).lines, Walk(fn, [], ls[1..]).lines;
    assert [] + ls[1..] == ls[1..];
    BlankEvents(fn, ev, f, ls, tail);
    BlankOthers(ev, f, ls, tail);
    if Clean(ev + ls) {
      CleanSplit(ev, ls);
      CleanTail(ls);
      CleanBlank(f, ls[0], ls[1..], tail);
      assert [ls[0]] + ls[1..] == ls;
    }
    hide *;
  }

  lemma BlankEvents(fn: Callback, ev: seq<Line>, f: seq<Line>, ls: seq<Line>, tail: seq<Line>)
    requires ls != [] && Blank(ls[0].text) && NoneBlank(f)
    requires Closed(Payloads(f)) == Map(d => Replaced(fn, d), Visible(if Payloads(ev) == [] then [] else [Payloads(ev)]))
    requires Events([], tail) == Map(d => Replaced(fn, d), Visible(Groups([], ls[1..])))
    ensures Events([], f + ([ls[0]] + tail)) == Map(d => Replaced(fn, d), Visible(Groups(Payloads(ev), ls)))
  {
    hide Replaced, IsData, Blank, Closed, Payloads, Visible;
    var data, rest := Payloads(ev), [ls[0]] + tail;
    assert rest[0] == ls[0] && rest[1..] == tail && [] + Payloads(f) == Payloads(f);
    EventsSkip([], f, rest);
    var g: seq<seq<Bytes>> := if data == [] then [] else [data];
    VisibleAppend(g, Groups([], ls[1..]));
    MapAppend(d => Replaced(fn, d), Visible(g), Visible(Groups([], ls[1..])));
  }

  lemma BlankOthers(ev: seq<Line>, f: seq<Line>, ls: seq<Line>, tail: seq<Line>)
    requires ls != [] && Others(f) == Others(ev) && Others(tail) == Others(ls[1..])
    ensures Others(f + ([ls[0]] + tail)) == Others(ev + ls)
  {
    OthersAppend(f, [ls[0]] + tail);
    OthersAppend(ev, ls);
    OthersAppend([ls[0]], tail);
    OthersAppend([ls[0]], ls[1..]);
    hide Others;
    assert [ls[0]] + ls[1..] == ls;
  }

  lemma CleanBlank(f: seq<Line>, l: Line, after: seq<Line>, tail: seq<Line>)
    requires (forall x :: x in f ==> Whole(x)) && Clean([l] + after) && Clean(tail) && (after == [] ==> tail == [])
    ensures Clean(f + ([l] + tail))
  {
    hide Whole;
    var rest := [l] + tail;
    assert ([l] + after)[1..] == after && rest[1..] == tail;
    CleanTail([l] + after);
    CleanJoin(f, rest);
  }

  // ---- When a rewrite makes a clash ----

  /** The last line a rewrite keeps: the trailing data: lines go, the first one excepted. */
  function KeptEnd(ev: seq<Line>): Line
    requires ev != []
  {
    var n := |ev| - 1;
    if IsData(ev[n].text) && Payloads(ev[..n]) != [] then KeptEnd(ev[..n]) else ev[n]
  }

  predicate Changes(fn: Callback, ev: seq<Line>) {
    Payloads(ev) != [] && fn(WalkJoin([], Payloads(ev)), |Payloads(ev)|).Change?
  }

  /**
   * Some changed event keeps, of its lines, a last one that ends in a lone CR, and is itself ended by an empty line with
   * LF. In the body at least one data: line stood between the two; the rewrite drops it.
   */
  predicate Collides(fn: Callback, ev: seq<Line>, ls: seq<Line>)
    decreases |ls|
  {
    if ls == [] then false
    else if Blank(ls[0].text) then
      (Changes(fn, ev) && Clash(KeptEnd(ev), ls[0])) || Collides(fn, [], ls[1..])
    else Collides(fn, ev + [ls[0]], ls[1..])
  }

  lemma {:induction false} RewriteSnoc(ev: seq<Line>, l: Line, doc: Bytes, first: bool)
    ensures Rewrite(ev + [l], doc, first) == Rewrite(ev, doc, first) +
            if !IsData(l.text) then [l]
            else if first && Payloads(ev) == [] then [Line(Prefix(l.text) + doc, l.term)]
            else []
    decreases |ev|
  {
    hide IsData, Prefix, Payload;
    if ev == [] {
      var one := [l];
      assert ev + [l] == one && one[1..] == [];
    } else {
      assert (ev + [l])[1..] == ev[1..] + [l];
      RewriteSnoc(ev[1..], l, doc, first && !IsData(ev[0].text));
    }
  }

  lemma {:induction false} RewriteEnds(ev: seq<Line>, doc: Bytes)
    requires Payloads(ev) != []
    ensures var out := Rewrite(ev, doc, true); out != [] && ev != [] && out[|out| - 1].term == KeptEnd(ev).term
    decreases |ev|
  {
    var n := |ev| - 1;
    var init, l := ev[..n], ev[n];
    assert ev == init + [l];
    PayloadsAppend(init, [l]);
    OnePayload(l);
    RewriteSnoc(init, l, doc, true);
    if Payloads(init) != [] { RewriteEnds(init, doc); }
    hide IsData, Prefix, Payloads, Rewrite;
  }

  lemma NoneBlankNoClash(ls: seq<Line>)
    requires NoneBlank(ls)
    ensures NoClash(ls)
  {
    EmptyIsBlank();
    hide Blank;
    assert forall i :: 0 < i < |ls| ==> ls[i] in ls;
  }

  /** What a written event and its ending line make together. */
  lemma FlushClash(fn: Callback, ev: seq<Line>, end: Line, rest: seq<Line>)
    requires Wellbehaved(fn) && NoneBlank(ev) && Flush(fn, ev).Walked? && NoClash(ev + ([end] + rest))
    ensures var f := Flush(fn, ev).lines;
            f != [] && Clash(f[|f| - 1], end) <==> Changes(fn, ev) && Clash(KeptEnd(ev), end)
  {
    if Changes(fn, ev) {
      RewriteEnds(ev, fn(WalkJoin([], Payloads(ev)), |Payloads(ev)|).doc);
    } else if ev != [] {
      var all := ev + ([end] + rest);
      assert all[|ev| - 1] == ev[|ev| - 1] && all[|ev|] == end;
    }
    hide Rewrite, KeptEnd, WalkJoin, Payloads;
  }

  lemma NoClashJoin(f: seq<Line>, end: Line, tail: seq<Line>)
    requires NoClash(f) && (tail != [] ==> !Clash(end, tail[0]))
    ensures NoClash(f + ([end] + tail)) <==> (f != [] ==> !Clash(f[|f| - 1], end)) && NoClash(tail)
    decreases |f|
  {
    var all := f + ([end] + tail);
    if f == [] {
      assert all == [end] + tail && all[1..] == tail;
      NoClashTail(all);
    } else {
      assert all[1..] == f[1..] + ([end] + tail);
      NoClashTail(all);
      NoClashTail(f);
      NoClashJoin(f[1..], end, tail);
      assert all[1] == if |f| > 1 then f[1] else end;
      hide NoClash;
    }
  }

  /** The first line of a walk is empty only when the first line read was. */
  lemma {:induction false} WalkOpens(fn: Callback, ev: seq<Line>, ls: seq<Line>)
    requires Wellbehaved(fn) && NoneBlank(ev) && Walk(fn, ev, ls).Walked?
    ensures var out := Walk(fn, ev, ls).lines; out != [] && Blank(out[0].text) ==> ev == [] && ls != [] && out[0] == ls[0]
    decreases |ls|
  {
    hide Blank, Wellbehaved, Flush;
    if ls == [] || Blank(ls[0].text) {
      FlushReads(fn, ev);
      FlushOpens(fn, ev);
      var f := Flush(fn, ev).lines;
      assert f != [] ==> f[0] in f;
    } else {
      WalkOpens(fn, ev + [ls[0]], ls[1..]);
    }
  }

  lemma FlushOpens(fn: Callback, ev: seq<Line>)
    requires Flush(fn, ev).Walked?
    ensures Flush(fn, ev).lines == [] ==> ev == []
  {
    if Changes(fn, ev) { RewriteEnds(ev, fn(WalkJoin([], Payloads(ev)), |Payloads(ev)|).doc); }
    hide Rewrite, KeptEnd, WalkJoin;
  }

  /** The walk's lines clash exactly when some event of the body collides. */
  lemma {:induction false} WalkClashes(fn: Callback, ev: seq<Line>, ls: seq<Line>)
    requires Wellbehaved(fn) && NoneBlank(ev) && Walk(fn, ev, ls).Walked? && NoClash(ev + ls)
    ensures NoClash(Walk(fn, ev, ls).lines) <==> !Collides(fn, ev, ls)
    decreases |ls|, 1
  {
    if ls == [] {
      FlushReads(fn, ev);
      NoneBlankNoClash(Flush(fn, ev).lines);
      hide NoClash, Flush;
    } else if Blank(ls[0].text) {
      assert ls == [ls[0]] + ls[1..];
      hide NoClash, Flush, Blank, Walk, Collides, Wellbehaved, NoneBlank;
      BlankLineClashes(fn, ev, ls[0], ls[1..]);
    } else {
      assert ev + ls == ev + [ls[0]] + ls[1..];
      WalkClashes(fn, ev + [ls[0]], ls[1..]);
      hide NoClash, Flush, Blank;
    }
  }

  lemma {:induction false} BlankLineClashes(fn: Callback, ev: seq<Line>, end: Line, rest: seq<Line>)
    requires Wellbehaved(fn) && NoneBlank(ev) && Blank(end.text)
    requires Walk(fn, ev, [end] + rest).Walked? && NoClash(ev + ([end] + rest))
    ensures NoClash(Walk(fn, ev, [end] + rest).lines) <==> !Collides(fn, ev, [end] + rest)
    decreases |rest|, 2
  {
    var ls := [end] + rest;
    assert ls[0] == end && ls[1..] == rest && [] + rest == rest;
    var f, tail := Flush(fn, ev).lines, Walk(fn, [], rest).lines;
    FlushReads(fn, ev);
    hide NoClash, Flush, Blank, Changes, KeptEnd, Wellbehaved, NoneBlank;
    NoneBlankNoClash(f);
    NoClashSuffix(ev, ls);
    NoClashTail(ls);
    FlushClash(fn, ev, end, rest);
    WalkClashes(fn, [], rest);
    WalkOpens(fn, [], rest);
    EmptyIsBlank();
    assert tail != [] ==> !Clash(end, tail[0]);
    NoClashJoin(f, end, tail);
  }

  lemma {:induction false} NoClashSuffix(a: seq<Line>, b: seq<Line>)
    requires NoClash(a + b)
    ensures NoClash(b)
    decreases |a|
  {
    if a == [] {
      assert a + b == b;
    } else {
      NoClashTail(a + b);
      assert (a + b)[1..] == a[1..] + b;
      NoClashSuffix(a[1..], b);
    }
    hide NoClash;
  }

  // ---- The law ----

  /**
   * What the rewritten body is promised to read as: the body's own events, in order and in number, each replaced exactly
   * when the callback changed it; and every line that is not a data: line, in order, with its terminator.
   */
  ghost predicate ReadsAsRewritten(fn: Callback, body: Bytes)
    requires Walk(fn, [], LinesOf(body)).Walked?
  {
    var read := LinesOf(Unlines(Walk(fn, [], LinesOf(body)).lines));
    && Events([], read) == Map(d => Replaced(fn, d), Visible(Groups([], LinesOf(body))))
    && Others(read) == Others(LinesOf(body))
  }

  /**
   * Rewriting commutes with reading, for every body and every well-behaved callback, exactly when no event collides; and
   * that is exactly when the written lines are read back as themselves.
   */
  lemma RewriteCommutesWithReading(fn: Callback, body: Bytes)
    requires Wellbehaved(fn) && Walk(fn, [], LinesOf(body)).Walked?
    ensures Events([], LinesOf(body)) == Map(Join, Visible(Groups([], LinesOf(body))))
    ensures ReadsAsRewritten(fn, body) <==> !Collides(fn, [], LinesOf(body))
    ensures LinesOf(Unlines(Walk(fn, [], LinesOf(body)).lines)) == Walk(fn, [], LinesOf(body)).lines <==> !Collides(fn, [], LinesOf(body))
  {
    var ls := LinesOf(body);
    var out := Walk(fn, [], ls).lines;
    assert [] + ls == ls;
    EventsAreGroups([], ls);
    BodyLines(body);
    hide Walk, Clean, Wellbehaved, NoClash, Collides;
    WalkReads(fn, [], ls);
    WalkClashes(fn, [], ls);
    FusedReads(out);
    RecutsIsCut(Fused(out));
    FusedOthers(out);
    hide Fused, Others, Events, Groups, Visible;
  }

  /** A body whose terminators are all of one kind has no such event: no CR without its LF, or no LF at all. */
  lemma OneKindNeverCollides(fn: Callback, body: Bytes)
    requires (forall i :: 0 <= i < |body| && body[i] == CR ==> i + 1 < |body| && body[i + 1] == LF) || LF !in body
    ensures !Collides(fn, [], LinesOf(body))
  {
    if LF !in body { NoLFLines(body); } else { NoLoneCRLines(body); }
    OneKindLines(fn, [], LinesOf(body));
  }

  lemma {:induction false} NoLFLines(s: Bytes)
    requires LF !in s
    ensures forall l :: l in LinesOf(s) ==> l.term != [LF]
    decreases |s|
  {
    LinesCons(s);
    if s != [] {
      SplitFirst(s);
      var l, rest := FirstLine(s), AfterFirstLine(s);
      hide LinesOf, FirstLine, AfterFirstLine;
      assert forall b :: b in rest || b in l.term ==> b in s;
      NoLFLines(rest);
    }
  }

  lemma {:induction false} NoLoneCRLines(s: Bytes)
    requires forall i :: 0 <= i < |s| && s[i] == CR ==> i + 1 < |s| && s[i + 1] == LF
    ensures forall l :: l in LinesOf(s) ==> l.term != [CR]
    decreases |s|
  {
    LinesCons(s);
    if s != [] {
      FirstIsNoLoneCR(s);
      hide LinesOf, FirstLine, AfterFirstLine;
      NoLoneCRLines(AfterFirstLine(s));
    }
  }

  lemma FirstIsNoLoneCR(s: Bytes)
    requires s != [] && forall i :: 0 <= i < |s| && s[i] == CR ==> i + 1 < |s| && s[i + 1] == LF
    ensures FirstLine(s).term != [CR]
    ensures var rest := AfterFirstLine(s); forall i :: 0 <= i < |rest| && rest[i] == CR ==> i + 1 < |rest| && rest[i + 1] == LF
  {
    var l, rest, n := FirstLine(s), AfterFirstLine(s), FirstTerm(s);
    if n < |s| {
      assert s[n] == CR ==> s[n + 1] == LF;
      assert l.term == if s[n] == CR then [CR, LF] else [LF];
      assert forall i :: 0 <= i < |rest| ==> rest[i] == s[i + n + |l.term|];
    } else {
      assert rest == [] && l.term == [];
    }
  }

  lemma {:induction false} OneKindLines(fn: Callback, ev: seq<Line>, ls: seq<Line>)
    requires (forall l :: l in ev || l in ls ==> l.term != [CR]) || (forall l :: l in ls ==> l.term != [LF])
    ensures !Collides(fn, ev, ls)
    decreases |ls|
  {
    hide Blank;
    if ls != [] {
      assert ls[0] in ls && forall l :: l in ls[1..] ==> l in ls;
      if Blank(ls[0].text) {
        if Changes(fn, ev) { KeptEndIsIn(ev); }
        hide Changes, KeptEnd;
        OneKindLines(fn, [], ls[1..]);
      } else {
        OneKindLines(fn, ev + [ls[0]], ls[1..]);
      }
    }
  }

  lemma {:induction false} KeptEndIsIn(ev: seq<Line>)
    requires Payloads(ev) != []
    ensures ev != [] && KeptEnd(ev) in ev
    decreases |ev|
  {
    hide IsData, Payload;
    var n := |ev| - 1;
    if IsData(ev[n].text) && Payloads(ev[..n]) != [] { KeptEndIsIn(ev[..n]); }
  }

  lemma FlushUnchanged(fn: Callback, ev: seq<Line>)
    ensures Flush(fn, ev).Walked? && !Flush(fn, ev).changed ==> Flush(fn, ev).lines == ev
  {
    hide Payloads, Rewrite, WalkJoin;
  }

  /** A walk that changes nothing gives the lines back, whatever the callback and whatever the terminators. */
  lemma {:induction false} UnchangedWalk(fn: Callback, ev: seq<Line>, ls: seq<Line>)
    requires Walk(fn, ev, ls).Walked? && !Walk(fn, ev, ls).changed
    ensures Walk(fn, ev, ls).lines == ev + ls
    decreases |ls|
  {
    FlushUnchanged(fn, ev);
    hide Blank, Flush;
    if ls == [] {
      assert ev + ls == ev;
    } else if Blank(ls[0].text) {
      UnchangedWalk(fn, [], ls[1..]);
      assert ev + ([ls[0]] + ([] + ls[1..])) == ev + ls;
    } else {
      UnchangedWalk(fn, ev + [ls[0]], ls[1..]);
      assert ev + [ls[0]] + ls[1..] == ev + ls;
    }
  }

  /**
   * Such a body: an event of two data: lines, the first ended by a bare CR, and then another event. Rewritten, the CR
   * stands in front of the blank line's LF, the two are one terminator, and the reader finds one event where the body
   * had two.
   */
  lemma LoneCRJoinsEvents(fn: Callback, a: Line, b: Line, c: Line, doc: Bytes)
    requires IsData(a.text) && IsData(b.text) && IsData(c.text) && NoTerm(a.text) && NoTerm(b.text) && NoTerm(c.text)
    requires a.term == [CR] && b.term == [LF] && c.term == [LF]
    requires Wellbehaved(fn) && fn(WalkJoin([], [Payload(a.text), Payload(b.text)]), 2) == Change(doc) && fn(Payload(c.text), 1) == Keep
    ensures var body := Unlines([a, b, Line([], [LF]), c]);
            var w := Walk(fn, [], LinesOf(body));
            && w.Walked? && Collides(fn, [], LinesOf(body)) && |Groups([], LinesOf(body))| == 2
            && LinesOf(Unlines(w.lines)) == [Line(Prefix(a.text) + doc, [CR, LF]), c]
            && |Groups([], LinesOf(Unlines(w.lines)))| == 1
  {
    var end := Line([], [LF]);
    EmptyIsBlank();
    assert doc != [] && doc[0] != SPACE && NoTerm(doc);
    TwoEventBody(a, b, c);
    WalkOfTwo(fn, a, b, c, doc);
    RewrittenLine(a.text, doc);
    GroupsOfTwo(a, b, c);
    var text := Prefix(a.text) + doc;
    GroupsOfTwo(Line(text, [CR, LF]), b, c);
    CRMeetsLF(text, c);
    hide *;
  }

  lemma TwoEventBody(a: Line, b: Line, c: Line)
    requires NoTerm(a.text) && NoTerm(b.text) && NoTerm(c.text) && b.text != [] && b.text[0] != LF
    requires a.term == [CR] && b.term == [LF] && c.term == [LF]
    ensures var ls := [a, b, Line([], [LF]), c]; LinesOf(Unlines(ls)) == ls
  {
    var end := Line([], [LF]);
    var ls, l3, l2, l1 := [a, b, end, c], [b, end, c], [end, c], [c];
    assert ls[1..] == l3 && l3[1..] == l2 && l2[1..] == l1 && l1[1..] == [];
    assert Clean(l1[1..]);
    assert Clean(l1) && Clean(l2) && Clean(l3) && Clean(ls);
    RecutsExactly(ls);
    RecutsIsCut(ls);
  }

  lemma WalkOfTwo(fn: Callback, a: Line, b: Line, c: Line, doc: Bytes)
    requires IsData(a.text) && IsData(b.text) && IsData(c.text) && a.term == [CR]
    requires fn(WalkJoin([], [Payload(a.text), Payload(b.text)]), 2) == Change(doc) && fn(Payload(c.text), 1) == Keep
    ensures var ls := [a, b, Line([], [LF]), c]; var w := Walk(fn, [], ls);
            w.Walked? && w.lines == [Line(Prefix(a.text) + doc, [CR]), Line([], [LF]), c] && Collides(fn, [], ls)
  {
    var end := Line([], [LF]);
    DataIsNotBlank(a.text);
    DataIsNotBlank(b.text);
    DataIsNotBlank(c.text);
    EmptyIsBlank();
    RewriteTwo(a, b, doc);
    TwoPayloads(a, b);
    OnePayload(c);
    JoinOne(Payload(c.text));
    var ls, l3, l2, l1 := [a, b, end, c], [b, end, c], [end, c], [c];
    assert ls[1..] == l3 && l3[1..] == l2 && l2[1..] == l1 && l1[1..] == [];
    assert [] + [a] == [a] && [a] + [b] == [a, b] && [] + [c] == [c];
    assert Flush(fn, [a, b]) == Walked([Line(Prefix(a.text) + doc, [CR])], true, 1);
    assert Flush(fn, [c]) == Walked([c], false, 1);
    assert KeptEnd([a, b]) == a && Changes(fn, [a, b]);
    hide IsData, Payload, Payloads, Prefix, Flush, Blank, Rewrite, KeptEnd, Changes, WalkJoin;
    assert Walk(fn, [], l1) == Walk(fn, [c], []) == Flush(fn, [c]);
    assert Walk(fn, [a, b], l2) == Then(Flush(fn, [a, b]), Then(Walked([end], false, 0), Walk(fn, [], l1)));
    assert Walk(fn, [], ls) == Walk(fn, [a], l3) == Walk(fn, [a, b], l2);
    assert Collides(fn, [], ls) == Collides(fn, [a], l3) == Collides(fn, [a, b], l2);
  }

  lemma TwoPayloads(a: Line, b: Line)
    requires IsData(a.text) && IsData(b.text)
    ensures Payloads([a, b]) == [Payload(a.text), Payload(b.text)] && KeptEnd([a, b]) == a
  {
    hide IsData, Payload;
    OnePayload(a);
    OnePayload(b);
    PayloadsAppend([a], [b]);
    assert [a, b] == [a] + [b] && [a, b][..1] == [a];
  }

  lemma CRMeetsLF(text: Bytes, c: Line)
    requires NoTerm(text) && NoTerm(c.text) && c.term == [LF]
    ensures LinesOf(Unlines([Line(text, [CR]), Line([], [LF]), c])) == [Line(text, [CR, LF]), c]
  {
    var end, last := Line([], [LF]), [c];
    var out, joined := [Line(text, [CR]), end, c], [Line(text, [CR, LF]), c];
    assert out[1..] == [end, c] && [end, c][1..] == last && joined[1..] == last;
    var tail := Unlines(last);
    assert Unlines([end, c]) == [] + [LF] + tail;
    assert text + [CR] + ([] + [LF] + tail) == text + [CR, LF] + tail;
    assert Unlines(out) == Unlines(joined);
    assert last[1..] == [] && Recuts(last[1..]);
    assert Terminator([LF], []);
    assert Recuts(last);
    assert Terminator([CR, LF], tail);
    assert Recuts(joined);
    RecutsIsCut(joined);
  }

  lemma RewriteTwo(a: Line, b: Line, doc: Bytes)
    requires IsData(a.text) && IsData(b.text)
    ensures Rewrite([a, b], doc, true) == [Line(Prefix(a.text) + doc, a.term)]
  {
    hide IsData, Prefix;
    var ev, tail := [a, b], [b];
    assert ev[1..] == tail && tail[1..] == [];
    assert Rewrite(tail, doc, false) == Rewrite([], doc, false) == [];
  }

  lemma GroupsOfTwo(a: Line, b: Line, c: Line)
    requires IsData(a.text) && IsData(b.text) && IsData(c.text)
    ensures |Groups([], [a, b, Line([], [LF]), c])| == 2
    ensures |Groups([], [a, c])| == 1
  {
    DataIsNotBlank(a.text);
    DataIsNotBlank(b.text);
    DataIsNotBlank(c.text);
    OnePayload(a);
    OnePayload(b);
    OnePayload(c);
    var end := Line([], [LF]);
    var pa, pb, pc := Payload(a.text), Payload(b.text), Payload(c.text);
    hide IsData, Payload, Payloads;
    var s4, s3, s2, s1 := [a, b, end, c], [b, end, c], [end, c], [c];
    assert s4[1..] == s3 && s3[1..] == s2 && s2[1..] == s1 && s1[1..] == [];
    assert s4[..1] == [a] && s3[..1] == [b] && s1[..1] == [c];
    assert [] + [pc] == [pc];
    assert Groups([], s1) == Groups([pc], []) == [[pc]];
    assert Groups([pa] + [pb], s2) == [[pa] + [pb]] + Groups([], s1);
    assert Groups([pa], s3) == Groups([pa] + [pb], s2);
    assert [] + [pa] == [pa];
    var t2 := [a, c];
    assert t2[1..] == s1 && t2[..1] == [a];
    assert Groups([pa], s1) == Groups([pa] + [pc], []);
  }
}
