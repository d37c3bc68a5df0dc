/** The reference the stream door is held to, and what it conserves for every way its bytes can be cut into reads. */
module HolderTheorems {
  import opened Text
  import opened Lines
  import opened HolderSpec

  // ---- The reference: a body cut into units, with no reads, no state and no caps ----

  /** How many lines of `ls` an open unit takes: up to the first ended blank line after a data: line. */
  function UnitLen(ls: seq<Line>, hasData: bool): (n: nat)
    ensures n <= |ls|
  {
    if ls == [] then 0
    else if hasData && Blank(ls[0].text) && ls[0].term != [] then 0
    else 1 + UnitLen(ls[1..], hasData || IsData(ls[0].text))
  }

  function Before(sent: Bytes, rest: Option<Bytes>): Option<Bytes> {
    match rest
    case None => None
    case Some(b) => Some(sent + b)
  }

  function Then(first: Option<Bytes>, rest: Option<Bytes>): Option<Bytes> {
    match first
    case None => None
    case Some(b) => Before(b, rest)
  }

  /** Lines outside a unit as they are, each unit rewritten whole, its ending line as it is. */
  function Redaction(r: Rules, ls: seq<Line>): Option<Bytes>
    decreases |ls|, 1
  {
    if ls == [] then Some([])
    else if ls[0].term != [] && (Blank(ls[0].text) || FieldLine(ls[0].text)) then
      Before(ls[0].text + ls[0].term, Redaction(r, ls[1..]))
    else
      UnitRedaction(r, ls[0].text + ls[0].term, ls[1..], IsData(ls[0].text))
  }

  function UnitRedaction(r: Rules, unit: Bytes, ls: seq<Line>, hasData: bool): Option<Bytes>
    decreases |ls|, 2
  {
    var n := UnitLen(ls, hasData);
    if n == |ls| then r.redact(unit + Unlines(ls))
    else Then(r.redact(unit + Unlines(ls[..n])), Before(ls[n].text + ls[n].term, Redaction(r, ls[n + 1..])))
  }

  lemma RunNothing(r: Rules, h: Holder)
    ensures Run(r, h, []) == h
  {
  }

  /** A line that does not end the unit belongs to it. */
  lemma UnitGrows(r: Rules, unit: Bytes, ls: seq<Line>, hasData: bool)
    requires ls != [] && !(hasData && Blank(ls[0].text) && ls[0].term != [])
    ensures UnitRedaction(r, unit, ls, hasData) ==
            UnitRedaction(r, unit + ls[0].text + ls[0].term, ls[1..], hasData || IsData(ls[0].text))
  {
    var n := UnitLen(ls[1..], hasData || IsData(ls[0].text));
    assert ls[..n + 1][1..] == ls[1..][..n];
    assert forall u :: unit + (ls[0].text + ls[0].term + u) == unit + ls[0].text + ls[0].term + u;
    if n < |ls| - 1 {
      assert ls[1..][n] == ls[n + 1] && ls[1..][n + 1..] == ls[n + 2..];
    }
  }

  lemma BeforeTwice(a: Bytes, b: Bytes, rest: Option<Bytes>)
    ensures Before(a, Before(b, rest)) == Before(a + b, rest)
  {
    match rest
    case None =>
    case Some(c) => assert a + (b + c) == a + b + c;
  }

  // ---- Conservation, for reads of any size and any verdict of the key walk ----

  ghost predicate ChangesNothing(r: Rules) {
    forall u :: r.redact(u) == Some(u)
  }

  lemma LineConserves(r: Rules, h: Holder, line: Bytes, b: byte)
    requires ChangesNothing(r) && (!h.inEvent ==> h.unit == [])
    ensures var n := LineStep(r, h, line, [b]); !n.failed == !h.failed && n.partial == [] && n.out + n.unit == h.out + h.unit + line + [b]
  {
    hide Blank, FieldLine, IsData;
    assert h.out + (h.unit + line + [b]) == h.out + h.unit + line + [b];
    if !h.inEvent { assert h.out + h.unit == h.out; }
  }

  lemma StepConserves(r: Rules, h: Holder, b: byte)
    requires ChangesNothing(r) && !h.failed && Sound(h)
    ensures var n := Step(r, h, b);
            !n.failed && n.out + n.Held() == h.out + h.Held() + [b]
  {
    if h.lfOwed && b == LF {
      OwedConserves(h);
    } else if h.mode == Passthrough {
      hide RawByte;
      Regroup(h.out, h.unit, h.partial);
    } else if IsTerm(b) {
      LineConserves(r, h, h.partial, b);
      hide LineStep;
      var n := Step(r, h, b);
      Regroup(h.out, h.unit, h.partial);
      Regroup(n.out, n.unit, []);
      assert n.unit + [] == n.unit;
    } else {
      hide LineStep;
      assert h.out + (h.unit + (h.partial + [b])) == h.out + (h.unit + h.partial) + [b];
    }
    hide *;
  }

  lemma OwedConserves(h: Holder)
    requires !h.failed && Sound(h) && h.lfOwed
    ensures var n := OwedLF(h); !n.failed && n.out + n.Held() == h.out + h.Held() + [LF]
  {
    assert h.unit + h.partial == h.unit;
    assert h.out + (h.unit + [LF]) == h.out + h.unit + [LF];
    assert h.unit == [] ==> h.out + h.unit + [LF] == h.out + [LF] + h.unit;
  }

  lemma Regroup(a: Bytes, b: Bytes, c: Bytes)
    ensures a + (b + c) == a + b + c
  {
  }

  lemma {:induction false} RunConserves(r: Rules, h: Holder, s: Bytes)
    requires ChangesNothing(r) && !h.failed && Sound(h)
    ensures var n := Run(r, h, s);
            !n.failed && Sound(n) && n.out + n.Held() == h.out + h.Held() + s
    decreases |s|
  {
    hide Step, ChangesNothing;
    if s == [] {
      assert h.out + h.Held() + s == h.out + h.Held();
    } else {
      StepConserves(r, h, s[0]);
      assert s == [s[0]] + s[1..];
      RunSound(r, h, [s[0]]);
      assert Run(r, h, [s[0]]) == Step(r, h, s[0]);
      RunConserves(r, Step(r, h, s[0]), s[1..]);
    }
  }

  lemma EndReadConserves(r: Rules, h: Holder)
    requires !h.failed && Sound(h)
    ensures var n := EndRead(r, h);
            if n.failed then |h.Held()| > r.maxHeld
            else Sound(n) && n.out + n.Held() == h.out + h.Held() && |n.Held()| <= r.maxHeld
  {
    hide RawBytes, HasDataLine;
    assert h.out + h.Held() + [] + [] == h.out + h.Held();
  }

  lemma {:induction false} HeldBound(r: Rules, h: Holder, s: Bytes)
    ensures |Run(r, h, s).Held()| <= |h.Held()| + |s|
    decreases |s|
  {
    if s != [] {
      HeldBound(r, Step(r, h, s[0]), s[1..]);
      StepBound(r, h, s[0]);
    }
    hide Step;
  }

  lemma StepBound(r: Rules, h: Holder, b: byte)
    ensures |Step(r, h, b).Held()| <= |h.Held()| + 1
  {
  }

  lemma FeedConserves(r: Rules, h: Holder, p: Bytes)
    requires ChangesNothing(r) && !h.failed && Sound(h)
    ensures var n := Feed(r, h, p);
            if n.failed then |h.Held()| + |p| > r.maxHeld
            else Sound(n) && n.out + n.Held() == h.out + h.Held() + p && |n.Held()| <= r.maxHeld
  {
    hide Run, EndRead, ChangesNothing;
    var from := if p == [] then h.(lfOwed := false) else h;
    assert from.Held() == h.Held() && Sound(from);
    RunConserves(r, from, p);
    HeldBound(r, from, p);
    EndReadConserves(r, Run(r, from, p));
  }

  lemma ChangesNone(r: Rules, u: Bytes)
    requires ChangesNothing(r)
    ensures r.redact(u) == Some(u)
  {
  }

  lemma FeedAllFailed(r: Rules, h: Holder, chunks: seq<Bytes>)
    requires h.failed
    ensures FeedAll(r, h, chunks) == h
  {
  }

  /**
   * When the rewriting changes nothing, what has been returned followed by what is held is what came in, after
   * reads of any size, under any verdicts, in both states; and what is held stays under its cap.
   */
  lemma {:induction false} Conservation(r: Rules, h: Holder, chunks: seq<Bytes>)
    requires ChangesNothing(r) && !h.failed && Sound(h) && |h.Held()| <= r.maxHeld
    ensures var n := FeedAll(r, h, chunks);
            if n.failed then |h.out + h.Held() + Concat(chunks)| > r.maxHeld
            else && n.out + n.Held() == h.out + h.Held() + Concat(chunks)
                 && |n.Held()| <= r.maxHeld
                 && Finish(r, n) == Some(h.out + h.Held() + Concat(chunks))
    decreases |chunks|
  {
    hide Feed, ChangesNothing;
    if chunks == [] {
      assert h.out + h.Held() + Concat(chunks) == h.out + h.Held();
      assert h.out + [] == h.out && r.redact(h.Held()) == Some(h.Held()) by { ChangesNone(r, h.Held()); }
    } else {
      FeedConserves(r, h, chunks[0]);
      var n := Feed(r, h, chunks[0]);
      if !n.failed {
        assert h.out + h.Held() + chunks[0] + Concat(chunks[1..]) == h.out + h.Held() + Concat(chunks);
        Conservation(r, n, chunks[1..]);
      } else {
        FeedAllFailed(r, n, chunks[1..]);
      }
    }
  }

  // ---- Outside a unit nothing complete is held back ----

  lemma {:induction false} FeedAllSound(r: Rules, h: Holder, chunks: seq<Bytes>)
    requires h.failed || Sound(h)
    ensures FeedAll(r, h, chunks).failed || Sound(FeedAll(r, h, chunks))
    decreases |chunks|
  {
    hide Feed, Sound;
    if chunks != [] && !h.failed {
      FeedSound(r, h, chunks[0]);
      FeedAllSound(r, Feed(r, h, chunks[0]), chunks[1..]);
    }
  }

  /** After any reads, a holder outside a unit holds at most one unended line: no keep-alive waits for the next read. */
  lemma NothingCompleteWaits(r: Rules, chunks: seq<Bytes>)
    ensures var n := FeedAll(r, Fresh, chunks);
            !n.failed && !n.inEvent ==> n.mode == Holding && NoTerm(n.Held())
  {
    hide FeedAll;
    FeedAllSound(r, Fresh, chunks);
    var n := FeedAll(r, Fresh, chunks);
    assert [] + n.partial == n.partial;
  }
}
