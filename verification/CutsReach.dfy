/**
 * The other half of EveryCut: each outcome it lists for a stream is what some cut of the stream into reads comes to. So
 * the streams on which cuts cannot show are known exactly.
 */
module CutsReach {
  import opened Text
  import opened Lines
  import opened HolderSpec
  import opened HolderTheorems
  import opened RawRelay
  import opened EveryCut

  // ---- Cuts from the middle of a read on ----

  ghost predicate Finishes(r: Rules, h: Holder, s: Bytes, c: Bytes, chunks: seq<Bytes>, out: Option<Bytes>) {
    && c + Concat(chunks) == s && (forall d :: d in chunks ==> d != [])
    && Finish(r, FeedAll(r, EndRead(r, Run(r, h, c)), chunks)) == out
  }

  /** With `s` to come, the read under way may end and the reads after it fall so that `out` is what is returned. */
  ghost predicate Reaches(r: Rules, h: Holder, s: Bytes, out: Option<Bytes>) {
    exists c: Bytes, chunks: seq<Bytes> :: Finishes(r, h, s, c, chunks, out)
  }

  lemma ReachRun(r: Rules, h: Holder, a: Bytes, s: Bytes, out: Option<Bytes>)
    requires Reaches(r, Run(r, h, a), s, out)
    ensures Reaches(r, h, a + s, out)
  {
    hide Run, FeedAll, EndRead, Finish;
    var c, chunks :| Finishes(r, Run(r, h, a), s, c, chunks, out);
    RunAppend(r, h, a, c);
    assert a + c + Concat(chunks) == a + (c + Concat(chunks));
    assert Finishes(r, h, a + s, a + c, chunks, out);
  }

  lemma EndTwice(r: Rules, h: Holder)
    ensures EndRead(r, EndRead(r, h)) == EndRead(r, h)
  {
    hide MayPass, RawBytes;
  }

  lemma ReachEnd(r: Rules, h: Holder, s: Bytes, out: Option<Bytes>)
    requires Reaches(r, EndRead(r, h), s, out)
    ensures Reaches(r, h, s, out)
  {
    var n := EndRead(r, h);
    var c, chunks :| Finishes(r, n, s, c, chunks, out);
    RunNothing(r, h);
    RunNothing(r, n);
    EndTwice(r, h);
    if c == [] {
      assert Finishes(r, h, s, [], chunks, out);
    } else {
      FirstRead(r, n, c, chunks);
      assert [] + s == s;
      hide Run, FeedAll, EndRead, Finish;
      assert Finishes(r, h, s, [], [c] + chunks, out);
    }
  }

  lemma FirstRead(r: Rules, h: Holder, c: Bytes, chunks: seq<Bytes>)
    requires c != []
    ensures FeedAll(r, h, [c] + chunks) == FeedAll(r, EndRead(r, Run(r, h, c)), chunks)
    ensures Concat([c] + chunks) == c + Concat(chunks)
  {
    assert ([c] + chunks)[1..] == chunks;
    if h.failed { RunFailed(r, h, c); }
    hide Run;
  }

  lemma ReachFailed(r: Rules, h: Holder, s: Bytes)
    requires h.failed
    ensures Reaches(r, h, s, None)
  {
    RunFailed(r, h, s);
    hide Run;
    assert s + Concat([]) == s;
    assert Finishes(r, h, s, s, [], None);
  }

  lemma ReachStop(r: Rules, h: Holder)
    ensures Reaches(r, h, [], Finish(r, EndRead(r, h)))
  {
    RunNothing(r, h);
    hide Run, EndRead, Finish;
    assert Finishes(r, h, [], [], [], Finish(r, EndRead(r, h)));
  }

  /** A read ends after `a`. */
  lemma ReachCut(r: Rules, h: Holder, a: Bytes, s: Bytes, out: Option<Bytes>)
    requires Reaches(r, EndRead(r, Run(r, h, a)), s, out)
    ensures Reaches(r, h, a + s, out)
  {
    hide Reaches, Run, EndRead;
    ReachEnd(r, Run(r, h, a), s, out);
    ReachRun(r, h, a, s, out);
  }

  lemma OverflowReached(r: Rules, h: Holder, a: Bytes, s: Bytes)
    requires var n := Run(r, h, a); !n.failed && n.mode == Holding && |n.Held()| > r.maxHeld
    ensures Reaches(r, h, a + s, None)
  {
    ReachFailed(r, Broken, s);
    hide Reaches, Run;
    ReachCut(r, h, a, s, None);
  }

  // ---- While nothing leaves, everything is held ----

  lemma StepGrows(r: Rules, h: Holder, b: byte)
    requires !Step(r, h, b).failed
    ensures !h.failed && h.out <= Step(r, h, b).out
  {
    if !h.failed && h.mode == Holding && IsTerm(b) {
      LineStepCases(r, h, h.partial, [b]);
      hide LineStep, Blank, FieldLine, IsData;
    } else {
      hide LineStep, RawByte;
    }
  }

  lemma {:induction false} RunGrows(r: Rules, h: Holder, s: Bytes)
    requires !Run(r, h, s).failed
    ensures !h.failed && h.out <= Run(r, h, s).out
    decreases |s|
  {
    hide Step;
    if s != [] {
      RunGrows(r, Step(r, h, s[0]), s[1..]);
      StepGrows(r, h, s[0]);
    }
  }

  /** A run from `h` to `n` over `s` that has returned nothing. */
  predicate Still(h: Holder, n: Holder, s: Bytes) {
    && !n.failed && n.mode == Holding && n.out == h.out && n.decided == h.decided && n.Held() == h.Held() + s && Sound(n)
  }

  lemma StepStill(r: Rules, h: Holder, b: byte)
    requires !h.failed && h.mode == Holding && Sound(h) && !Step(r, h, b).failed && Step(r, h, b).out == h.out
    ensures Still(h, Step(r, h, b), [b])
  {
    StepSound(r, h, b);
    if IsTerm(b) && !(h.lfOwed && b == LF) {
      LineStepCases(r, h, h.partial, [b]);
      hide LineStep, Blank, FieldLine, IsData, Sound;
      assert h.unit + (h.partial + [b]) == h.unit + h.partial + [b];
    } else {
      hide LineStep;
    }
  }

  lemma {:induction false} RunStill(r: Rules, h: Holder, s: Bytes)
    requires !h.failed && h.mode == Holding && Sound(h) && !Run(r, h, s).failed && Run(r, h, s).out == h.out
    ensures Still(h, Run(r, h, s), s)
    decreases |s|
  {
    hide Step, Sound;
    if s != [] {
      var n := Step(r, h, s[0]);
      RunGrows(r, n, s[1..]);
      StepGrows(r, h, s[0]);
      StepStill(r, h, s[0]);
      RunStill(r, n, s[1..]);
      assert [s[0]] + s[1..] == s;
      assert h.Held() + [s[0]] + s[1..] == h.Held() + s;
    } else {
      assert h.Held() + s == h.Held();
    }
  }

  lemma PrefixStill(r: Rules, h: Holder, a: Bytes, b: Bytes)
    requires !h.failed && h.mode == Holding && Sound(h) && !Run(r, h, a + b).failed && Run(r, h, a + b).out == h.out
    ensures Still(h, Run(r, h, a), a) && Run(r, h, a + b) == Run(r, Run(r, h, a), b)
  {
    RunAppend(r, h, a, b);
    RunGrows(r, Run(r, h, a), b);
    RunGrows(r, h, a);
    RunStill(r, h, a);
    hide Run;
  }

  /** That a unit has been judged changes nothing while nothing leaves. */
  lemma {:induction false} JudgedRun(r: Rules, h: Holder, s: Bytes)
    requires !h.failed && h.mode == Holding && Sound(h) && !Run(r, h, s).failed && Run(r, h, s).out == h.out
    ensures Run(r, h.(decided := true), s) == Run(r, h, s).(decided := true)
    decreases |s|
  {
    hide Step, Sound;
    if s != [] {
      var n := Step(r, h, s[0]);
      RunGrows(r, n, s[1..]);
      StepGrows(r, h, s[0]);
      StepStill(r, h, s[0]);
      JudgedStep(r, h, s[0]);
      JudgedRun(r, n, s[1..]);
    }
  }

  lemma JudgedStep(r: Rules, h: Holder, b: byte)
    requires !h.failed && h.mode == Holding && !Step(r, h, b).failed && Step(r, h, b).out == h.out
    ensures Step(r, h.(decided := true), b) == Step(r, h, b).(decided := true)
  {
    var j := h.(decided := true);
    if IsTerm(b) && !(h.lfOwed && b == LF) {
      LineStepCases(r, h, h.partial, [b]);
      LineStepCases(r, j, h.partial, [b]);
      hide LineStep, Blank, FieldLine, IsData;
    } else {
      hide LineStep;
    }
  }

  // ---- Held and relayed side by side ----

  /** One run holds a unit while another, opened within it, has sent what the first holds. */
  ghost predicate Sync(hold: Holder, pass: Holder) {
    && !hold.failed && hold.mode == Holding && Sound(hold) && ((hold.inEvent && hold.hasData) || IsData(hold.partial))
    && !pass.failed && pass.mode == Passthrough && pass.Held() == [] && pass.lfOwed == hold.lfOwed
    && pass.out == hold.out + hold.Held() && pass.raw == RawBytes(RawStart, hold.partial)
  }

  lemma OpenSync(r: Rules, h: Holder)
    requires !h.failed && h.mode == Holding && Live(h, []) && EndRead(r, h) == OpenRelay(h) && |h.Held()| <= r.maxHeld
    ensures Sync(h, OpenRelay(h))
  {
    OpenMeans(r, h, []);
    hide HasDataLine, RawBytes, IsData, RawAllowed;
  }

  lemma StepSync(r: Rules, hold: Holder, pass: Holder, b: byte)
    requires Sync(hold, pass) && !Step(r, hold, b).failed && Step(r, hold, b).out == hold.out
    ensures Sync(Step(r, hold, b), Step(r, pass, b))
  {
    StepStill(r, hold, b);
    assert hold.out + (hold.Held() + [b]) == hold.out + hold.Held() + [b];
    if hold.lfOwed && b == LF {
      OwedSync(r, hold, pass);
    } else if IsTerm(b) {
      TermSync(r, hold, pass, b);
    } else {
      RawTextLive(pass.raw, pass.out, hold.partial, b);
      RawStepIs(r, pass, b);
      TextSync(r, hold, pass, b);
    }
    hide *;
  }

  lemma OwedSync(r: Rules, hold: Holder, pass: Holder)
    requires Sync(hold, pass) && hold.lfOwed && Still(hold, Step(r, hold, LF), [LF])
    ensures Sync(Step(r, hold, LF), Step(r, pass, LF))
  {
    hide RawBytes, Sound;
    assert hold.out + (hold.Held() + [LF]) == hold.out + hold.Held() + [LF];
  }

  lemma TextSync(r: Rules, hold: Holder, pass: Holder, b: byte)
    requires Sync(hold, pass) && !IsTerm(b) && Still(hold, Step(r, hold, b), [b])
    requires RawByte(pass.raw, b) == RawBytes(RawStart, hold.partial + [b])
    ensures Sync(Step(r, hold, b), Step(r, pass, b))
  {
    hide RawBytes, RawByte, Sound;
    assert hold.out + (hold.Held() + [b]) == hold.out + hold.Held() + [b];
  }

  lemma TermSync(r: Rules, hold: Holder, pass: Holder, b: byte)
    requires Sync(hold, pass) && IsTerm(b) && !(hold.lfOwed && b == LF) && Still(hold, Step(r, hold, b), [b])
    ensures Sync(Step(r, hold, b), Step(r, pass, b))
  {
    LineStepCases(r, hold, hold.partial, [b]);
    RawAgrees(hold.partial);
    if IsData(hold.partial) { DataIsNotOutside(hold.partial); }
    hide LineStep, Blank, FieldLine, IsData, RawBytes, Sound;
    assert hold.out + (hold.Held() + [b]) == hold.out + hold.Held() + [b];
  }

  lemma {:induction false} RunSync(r: Rules, hold: Holder, pass: Holder, s: Bytes)
    requires Sync(hold, pass) && !Run(r, hold, s).failed && Run(r, hold, s).out == hold.out
    ensures Sync(Run(r, hold, s), Run(r, pass, s))
    decreases |s|
  {
    hide Step, Sync;
    if s != [] {
      var n := Step(r, hold, s[0]);
      RunGrows(r, n, s[1..]);
      StepGrows(r, hold, s[0]);
      StepSync(r, hold, pass, s[0]);
      RunSync(r, n, Step(r, pass, s[0]), s[1..]);
    }
  }

  // ---- Between units ----

  predicate Between(h: Holder) {
    && !h.failed && h.mode == Holding && !h.inEvent && !h.hasData && !h.decided && h.unit == [] && h.partial == []
  }

  /** The LF of a CRLF is not what comes next. */
  predicate Unowed(h: Holder, s: Bytes) {
    h.lfOwed && s != [] ==> s[0] != LF
  }

  lemma RunUnowed(r: Rules, h: Holder, s: Bytes)
    requires !h.failed && Unowed(h, s) && s != []
    ensures Run(r, h, s) == Run(r, h.(lfOwed := false), s)
  {
    if h.lfOwed { StepIgnoresOwed(r, h, s[0], false); }
    hide Step;
  }

  /** A whole line by itself. */
  lemma RunWhole(r: Rules, h: Holder, l: Line)
    requires !h.failed && h.mode == Holding && Sound(h) && h.partial == [] && Unowed(h, Whole(l))
    requires NoTerm(l.text) && Terminator(l.term, [])
    ensures var n := LineStep(r, h, l.text, l.term);
            Run(r, h, Whole(l)) == if n.failed then n else n.(lfOwed := l.term == [CR])
  {
    var g := h.(lfOwed := false);
    assert Whole(l) + [] == Whole(l) && [] + l.text == l.text;
    RunUnowed(r, h, Whole(l));
    RunLine(r, g, l.text, l.term, []);
    RunNothing(r, AfterLine(r, g, l.text, l.term, []));
    LineStepOwed(r, h, l.text, l.term, false);
    hide Run, LineStep, Sound;
  }

  /** The text of a line by itself. */
  lemma RunPartial(r: Rules, h: Holder, text: Bytes)
    requires !h.failed && h.mode == Holding && h.partial == [] && NoTerm(text)
    ensures Run(r, h, text) == if text == [] then h else h.(partial := text, lfOwed := false)
  {
    RunText(r, h, text);
    hide Run;
    assert [] + text == text;
  }

  lemma CutLine(s: Bytes)
    requires s != []
    ensures var l, rest := FirstLine(s), AfterFirstLine(s);
            && LinesOf(s) == [l] + LinesOf(rest) && LinesOf(s) != [] && LinesOf(s)[0] == l && LinesOf(s)[1..] == LinesOf(rest)
            && s == Whole(l) + rest && |rest| < |s| && NoTerm(l.text)
            && (l.term == [] ==> rest == [] && l.text == s && LinesOf(rest) == [])
            && (l.term != [] ==> Terminator(l.term, rest) && Terminator(l.term, []))
  {
    LinesCons(s);
    LinesCons([]);
    SplitFirst(s);
    FirstLineTerminates(s);
    hide LinesOf, AfterFirstLine;
  }

  // ---- What becomes of one unit ----

  /** After `u`, read from between units, the unit is open and holds just that. */
  ghost predicate InUnit(r: Rules, h: Holder, u: Bytes, hasData: bool) {
    var n := Run(r, h, u);
    && !n.failed && n.mode == Holding && n.inEvent && n.hasData == hasData && !n.decided
    && n.unit == u && n.partial == [] && n.out == h.out && Sound(n) && u != []
  }

  /** The holder within a unit whose first bytes are `a`. */
  lemma Within(r: Rules, h: Holder, a: Bytes, b: Bytes)
    requires Between(h) && Sound(h) && !Run(r, h, a + b).failed && Run(r, h, a + b).out == h.out
    ensures var g := Run(r, h, a);
            && !g.failed && g.mode == Holding && !g.decided && g.Held() == a && g.out == h.out && Sound(g) && Live(g, [])
            && Run(r, g, b) == Run(r, h, a + b)
  {
    BetweenHolds(h);
    hide Between, Run, Live, Sound;
    PrefixStill(r, h, a, b);
    assert [] + a == a;
    WithinLive(r, h, a);
  }

  lemma WithinLive(r: Rules, h: Holder, a: Bytes)
    requires Between(h) && Sound(h) && !Run(r, h, a).failed && Run(r, h, a).out == h.out
    ensures Live(Run(r, h, a), [])
  {
    assert Live(h, []) by { hide HasDataLine, RawBytes; }
    hide *;
    RunComes(r, h, [], a, [], None);
    BetweenHolds(h);
    SeenNothing(r, h, a);
  }

  lemma BetweenHolds(h: Holder)
    requires Between(h)
    ensures !h.failed && h.mode == Holding && Sound(h) && h.Held() == [] && !h.decided
  {
  }

  /** While holding there is no line in the relay. */
  lemma {:induction false} SeenNothing(r: Rules, h: Holder, a: Bytes)
    requires !h.failed && h.mode == Holding && Sound(h) && !Run(r, h, a).failed && Run(r, h, a).out == h.out
    ensures SeenRun(r, h, [], a) == []
    decreases |a|
  {
    if a != [] {
      var n := Step(r, h, a[0]);
      RunGrows(r, n, a[1..]);
      StepGrows(r, h, a[0]);
      StepStill(r, h, a[0]);
      hide Step, Sound;
      SeenNothing(r, n, a[1..]);
    }
  }

  /** A unit proved after `a` goes out raw to its end. */
  lemma RawAt(r: Rules, h: Holder, a: Bytes, b: Bytes)
    requires Between(h) && Sound(h) && !Run(r, h, a + b).failed && Run(r, h, a + b).out == h.out
    requires r.holdBytes <= |a| <= r.maxHeld && MayPass(r, a)
    ensures var m := Run(r, EndRead(r, Run(r, h, a)), b); Sync(Run(r, h, a + b), m) && m.out == h.out + (a + b)
  {
    Within(r, h, a, b);
    RunStill(r, h, a + b);
    var g := Run(r, h, a);
    hide Run, MayPass, RawBytes, HasDataLine, Live, Sound;
    assert EndRead(r, g) == OpenRelay(g);
    OpenSync(r, g);
    RunSync(r, g, OpenRelay(g), b);
    hide OpenRelay, EndRead;
    assert [] + (a + b) == a + b;
  }

  /** The blank line that ends a relayed unit takes the holder back between units. */
  lemma RelayCloses(r: Rules, hold: Holder, pass: Holder, term: Bytes)
    requires Sync(hold, pass) && Blank(hold.partial) && Terminator(term, []) && Unowed(hold, term)
    ensures var n := Run(r, pass, term); Between(n) && n.out == pass.out + term && n.lfOwed == (term == [CR])
  {
    RawAgrees(hold.partial);
    hide RawByte, RawBytes, Blank, Sound;
    var n := Step(r, pass, term[0]);
    assert Between(n) && n.out == pass.out + [term[0]] && n.lfOwed == (term[0] == CR);
    assert term == [term[0]] + term[1..];
    RunCons(r, pass, term[0], term[1..]);
    if term == [CR, LF] {
      assert term[1..] == [LF] + [];
      RunCons(r, n, LF, []);
      RunNothing(r, OwedLF(n));
      assert n.out + [LF] == pass.out + term;
    } else {
      RunNothing(r, n);
      assert term[1..] == [];
    }
  }

  lemma EofRaw(r: Rules, h: Holder, a: Bytes, b: Bytes)
    requires Between(h) && Sound(h) && !Run(r, h, a + b).failed && Run(r, h, a + b).out == h.out
    requires r.holdBytes <= |a| <= r.maxHeld && MayPass(r, a)
    ensures Reaches(r, h, a + b, Some(h.out + (a + b)))
  {
    RawAt(r, h, a, b);
    var g := EndRead(r, Run(r, h, a));
    var m, out := Run(r, g, b), Some(h.out + (a + b));
    assert Finish(r, EndRead(r, m)) == out;
    hide *;
    ReachStop(r, m);
    ReachRun(r, g, b, [], out);
    assert b + [] == b;
    ReachCut(r, h, a, b, out);
  }

  /** Held to the end of the stream without being judged before it. */
  lemma EofUnjudged(r: Rules, h: Holder, u: Bytes)
    requires Between(h) && Sound(h) && u != [] && !Run(r, h, u).failed && Run(r, h, u).out == h.out
    requires |u| <= r.maxHeld && (|u| < r.holdBytes || !MayPass(r, u))
    ensures Reaches(r, h, u, Before(h.out, r.redact(u)))
  {
    var n, out := Run(r, h, u), Before(h.out, r.redact(u));
    RunStill(r, h, u);
    assert [] + u == u;
    hide Run, MayPass, Sound;
    assert Finish(r, EndRead(r, n)) == out;
    hide *;
    ReachStop(r, n);
    ReachRun(r, h, u, [], out);
    assert u + [] == u;
  }

  /** Judged and not proved after `a`, a unit is held to the end of the stream. */
  lemma KeptAt(r: Rules, h: Holder, a: Bytes, b: Bytes)
    requires Between(h) && Sound(h) && a + b != [] && !Run(r, h, a + b).failed && Run(r, h, a + b).out == h.out
    requires |a + b| <= r.maxHeld && r.holdBytes <= |a| && !MayPass(r, a)
    ensures Reaches(r, h, a + b, Before(h.out, r.redact(a + b)))
  {
    Within(r, h, a, b);
    RunStill(r, h, a + b);
    var g, n, out := Run(r, h, a), Run(r, h, a + b).(decided := true), Before(h.out, r.redact(a + b));
    JudgedRun(r, g, b);
    hide Run, MayPass, Reaches, Sound, Live;
    assert EndRead(r, g) == g.(decided := true);
    assert [] + (a + b) == a + b;
    assert Finish(r, EndRead(r, n)) == out;
    hide *;
    ReachStop(r, n);
    ReachRun(r, g.(decided := true), b, [], out);
    assert b + [] == b;
    ReachCut(r, h, a, b, out);
  }

  /** A stream that ends in a unit, its last line ended or not. */
  lemma EofReached(r: Rules, h: Holder, u: Bytes, hasData: bool, p: Option<Bytes>)
    requires Between(h) && Sound(h) && u != [] && !Run(r, h, u).failed && Run(r, h, u).out == h.out
    requires PossibleUnit(r, u, [], hasData, p)
    ensures Reaches(r, h, u, Before(h.out, p))
  {
    if Overflows(r, u, p) {
      RunStill(r, h, u);
      assert [] + u == u && u + [] == u;
      hide Run, Reaches;
      OverflowReached(r, h, u, []);
    } else if RawAllowed(r, u) && p == Some(u) {
      var k: nat :| r.holdBytes <= k <= |u| && k <= r.maxHeld && MayPass(r, u[..k]);
      assert u[..k] + u[k..] == u;
      hide *;
      EofRaw(r, h, u[..k], u[k..]);
    } else if |u| < r.holdBytes || !MayPass(r, u) {
      hide MayPass, Run, Reaches;
      EofUnjudged(r, h, u);
    } else {
      var k: nat :| r.holdBytes <= k <= |u| && !MayPass(r, u[..k]);
      assert u[..k] + u[k..] == u;
      hide *;
      KeptAt(r, h, u[..k], u[k..]);
    }
  }

  // ---- Line by line ----

  /** A line outside units goes out, and the holder is between units again. */
  lemma OutsideLine(r: Rules, h: Holder, l: Line)
    requires Between(h) && Sound(h) && Unowed(h, Whole(l)) && NoTerm(l.text) && Terminator(l.term, []) && Outside(l)
    ensures var n := Run(r, h, Whole(l)); Between(n) && Sound(n) && n.out == h.out + Whole(l) && (n.lfOwed <==> l.term == [CR])
  {
    RunWhole(r, h, l);
    RunSound(r, h, Whole(l));
    LineStepCases(r, h, l.text, l.term);
    hide Run, LineStep, Sound, Blank, FieldLine;
  }

  lemma OpeningLine(r: Rules, h: Holder, l: Line)
    requires Between(h) && Sound(h) && Unowed(h, Whole(l)) && NoTerm(l.text) && Terminator(l.term, []) && !Outside(l)
    ensures InUnit(r, h, Whole(l), IsData(l.text)) && (Run(r, h, Whole(l)).lfOwed <==> l.term == [CR])
  {
    RunWhole(r, h, l);
    RunSound(r, h, Whole(l));
    LineStepCases(r, h, l.text, l.term);
    hide Run, LineStep, Sound, Blank, FieldLine, IsData;
    assert [] + Whole(l) == Whole(l);
  }

  lemma JoiningLine(r: Rules, h: Holder, u: Bytes, hasData: bool, l: Line)
    requires InUnit(r, h, u, hasData) && Unowed(Run(r, h, u), Whole(l)) && NoTerm(l.text) && Terminator(l.term, [])
    requires !(hasData && Ends(l))
    ensures InUnit(r, h, u + Whole(l), hasData || IsData(l.text)) && (Run(r, h, u + Whole(l)).lfOwed <==> l.term == [CR])
  {
    var n := Run(r, h, u);
    RunAppend(r, h, u, Whole(l));
    RunWhole(r, n, l);
    RunSound(r, n, Whole(l));
    LineStepCases(r, n, l.text, l.term);
    hide Run, LineStep, Sound, Blank, FieldLine, IsData;
  }

  /** The blank line that ends a unit: the unit goes out rewritten, or the stream fails. */
  lemma EndingLine(r: Rules, h: Holder, u: Bytes, l: Line)
    requires InUnit(r, h, u, true) && Unowed(Run(r, h, u), Whole(l)) && NoTerm(l.text) && Terminator(l.term, []) && Ends(l)
    ensures var n := Run(r, h, u + Whole(l));
            match r.redact(u)
            case None => n.failed
            case Some(res) => Between(n) && Sound(n) && n.out == h.out + (res + Whole(l)) && (n.lfOwed <==> l.term == [CR])
  {
    var n := Run(r, h, u);
    RunAppend(r, h, u, Whole(l));
    RunWhole(r, n, l);
    RunSound(r, n, Whole(l));
    LineStepCases(r, n, l.text, l.term);
    hide Run, LineStep, Sound, Blank, FieldLine, IsData;
    if r.redact(u).Some? { assert h.out + (r.redact(u).value + Whole(l)) == h.out + r.redact(u).value + Whole(l); }
  }

  /** The text of a line after an open unit is held with it. */
  lemma JoiningText(r: Rules, h: Holder, u: Bytes, hasData: bool, text: Bytes)
    requires InUnit(r, h, u, hasData) && NoTerm(text)
    ensures var n := Run(r, h, u + text);
            && !n.failed && n.mode == Holding && n.out == h.out && n.Held() == u + text && n.partial == text
            && n.lfOwed == (text == [] && Run(r, h, u).lfOwed)
  {
    RunAppend(r, h, u, text);
    RunPartial(r, Run(r, h, u), text);
    hide Run;
    assert u + [] == u;
  }

  /** The blank line that ends a unit proved after `a`: the unit goes out raw. */
  lemma RawEnds(r: Rules, h: Holder, u: Bytes, l: Line, a: Bytes, b: Bytes)
    requires Between(h) && Sound(h) && InUnit(r, h, u, true) && Unowed(Run(r, h, u), Whole(l)) && a + b == u + l.text
    requires NoTerm(l.text) && Terminator(l.term, []) && Ends(l)
    requires r.holdBytes <= |a| <= r.maxHeld && MayPass(r, a)
    ensures var n := Run(r, Run(r, EndRead(r, Run(r, h, a)), b), l.term);
            Between(n) && n.out == h.out + (u + Whole(l)) && (n.lfOwed <==> l.term == [CR])
  {
    EndingText(r, h, u, l);
    assert Blank(l.text);
    hide *;
    RawAt(r, h, a, b);
    RelayCloses(r, Run(r, h, a + b), Run(r, EndRead(r, Run(r, h, a)), b), l.term);
    assert h.out + (a + b) + l.term == h.out + (u + Whole(l)) by { WholeAppend(h.out + u, l); WholeAppend(u, l); }
  }

  lemma EndingText(r: Rules, h: Holder, u: Bytes, l: Line)
    requires InUnit(r, h, u, true) && Unowed(Run(r, h, u), Whole(l)) && NoTerm(l.text)
    ensures var n := Run(r, h, u + l.text); !n.failed && n.out == h.out && n.partial == l.text && Unowed(n, l.term)
  {
    JoiningText(r, h, u, true, l.text);
    hide InUnit, Run;
    assert l.text == [] ==> Whole(l) == l.term;
  }

  // ---- Every outcome is reached ----

  lemma {:induction false} PossibleReached(r: Rules, h: Holder, s: Bytes, p: Option<Bytes>)
    requires r.holdBytes > 0 && Between(h) && Sound(h) && Unowed(h, s) && Possible(r, LinesOf(s), p)
    ensures Reaches(r, h, s, Before(h.out, p))
    decreases |s|, 1
  {
    if s == [] {
      LinesCons(s);
      assert EndRead(r, h) == h && h.out + [] == h.out;
      hide EndRead, Reaches, Run;
      ReachStop(r, h);
    } else {
      CutLine(s);
      var l, rest := FirstLine(s), AfterFirstLine(s);
      hide LinesOf, FirstLine, AfterFirstLine, Run, Reaches, Blank, FieldLine, IsData, Sound, Between, PossibleUnit;
      if !Outside(l) {
        OpeningReached(r, h, l, rest, p);
      } else if Overflows(r, l.text, p) {
        TextOverflows(r, h, l, rest);
      } else {
        var q :| Possible(r, LinesOf(rest), q) && p == Before(Whole(l), q);
        OutsideLine(r, h, l);
        var n := Run(r, h, Whole(l));
        PossibleReached(r, n, rest, q);
        BeforeTwice(h.out, Whole(l), q);
        ReachRun(r, h, Whole(l), rest, Before(h.out, p));
      }
    }
  }

  lemma TextOverflows(r: Rules, h: Holder, l: Line, rest: Bytes)
    requires Between(h) && NoTerm(l.text) && |l.text| > r.maxHeld
    ensures Reaches(r, h, Whole(l) + rest, None)
  {
    RunPartial(r, h, l.text);
    hide Run, Reaches;
    assert [] + l.text == l.text;
    OverflowReached(r, h, l.text, l.term + rest);
    assert l.text + (l.term + rest) == Whole(l) + rest;
  }

  lemma {:induction false} OpeningReached(r: Rules, h: Holder, l: Line, rest: Bytes, p: Option<Bytes>)
    requires r.holdBytes > 0 && Between(h) && Sound(h) && Unowed(h, Whole(l) + rest) && !Outside(l) && NoTerm(l.text)
    requires PossibleUnit(r, Whole(l), LinesOf(rest), IsData(l.text), p)
    requires if l.term == [] then rest == [] && l.text != [] && LinesOf(rest) == [] else Terminator(l.term, rest) && Terminator(l.term, [])
    ensures Reaches(r, h, Whole(l) + rest, Before(h.out, p))
    decreases |rest|, 3
  {
    hide LinesOf, Run, Reaches, Blank, FieldLine, IsData, Sound, PossibleUnit;
    if l.term == [] {
      RunPartial(r, h, l.text);
      assert Whole(l) == l.text && Whole(l) + rest == l.text;
      EofReached(r, h, l.text, IsData(l.text), p);
    } else {
      OpeningLine(r, h, l);
      UnitReached(r, h, Whole(l), rest, IsData(l.text), p);
    }
  }

  lemma {:induction false} UnitReached(r: Rules, h: Holder, u: Bytes, s: Bytes, hasData: bool, p: Option<Bytes>)
    requires r.holdBytes > 0 && Between(h) && Sound(h) && InUnit(r, h, u, hasData) && Unowed(Run(r, h, u), s)
    requires PossibleUnit(r, u, LinesOf(s), hasData, p)
    ensures Reaches(r, h, u + s, Before(h.out, p))
    decreases |s|, 2
  {
    if s == [] || Overflows(r, u, p) {
      UnitStops(r, h, u, s, hasData, p);
      hide *;
    } else {
      CutLine(s);
      var l, rest := FirstLine(s), AfterFirstLine(s);
      assert u + Whole(l) + rest == u + s;
      assert Unowed(Run(r, h, u), Whole(l)) by { hide Run; }
      hide LinesOf, FirstLine, AfterFirstLine, Run, Reaches, Blank, IsData, Sound, Between, InUnit, Possible, RawAllowed, Overflows;
      if hasData && Ends(l) {
        if Overflows(r, u + l.text, p) {
          TextInUnitOverflows(r, h, u, l, rest, p);
        } else {
          var q :| Possible(r, LinesOf(rest), q) && EndsAs(r, u, l, p, q);
          EndReached(r, h, u, l, rest, p, q);
        }
      } else {
        hide PossibleUnit;
        JoiningReached(r, h, u, hasData, l, rest, p);
      }
    }
  }

  lemma {:induction false} JoiningReached(r: Rules, h: Holder, u: Bytes, hasData: bool, l: Line, rest: Bytes, p: Option<Bytes>)
    requires r.holdBytes > 0 && Between(h) && Sound(h) && InUnit(r, h, u, hasData) && Unowed(Run(r, h, u), Whole(l))
    requires !(hasData && Ends(l)) && NoTerm(l.text)
    requires if l.term == [] then rest == [] && LinesOf(rest) == [] else Terminator(l.term, rest) && Terminator(l.term, [])
    requires PossibleUnit(r, u + Whole(l), LinesOf(rest), hasData || IsData(l.text), p)
    ensures Reaches(r, h, u + Whole(l) + rest, Before(h.out, p))
    decreases |rest|, 3
  {
    assert u != [];
    hide LinesOf, Run, Reaches, Blank, IsData, Sound, Between, InUnit, PossibleUnit;
    if l.term == [] {
      JoiningText(r, h, u, hasData, l.text);
      assert Whole(l) == l.text && u + Whole(l) + rest == u + l.text;
      EofReached(r, h, u + l.text, hasData || IsData(l.text), p);
    } else {
      JoiningLine(r, h, u, hasData, l);
      UnitReached(r, h, u + Whole(l), rest, hasData || IsData(l.text), p);
    }
  }

  /** The stream ends with the unit's last whole line, or the unit is already too large. */
  lemma UnitStops(r: Rules, h: Holder, u: Bytes, s: Bytes, hasData: bool, p: Option<Bytes>)
    requires Between(h) && Sound(h) && InUnit(r, h, u, hasData) && PossibleUnit(r, u, LinesOf(s), hasData, p)
    requires s == [] || Overflows(r, u, p)
    ensures Reaches(r, h, u + s, Before(h.out, p))
  {
    LinesCons(s);
    assert u + [] == u;
    hide Run, Reaches, PossibleUnit, LinesOf, Sound, Between;
    if Overflows(r, u, p) {
      OverflowReached(r, h, u, s);
    } else {
      EofReached(r, h, u, hasData, p);
    }
  }

  lemma TextInUnitOverflows(r: Rules, h: Holder, u: Bytes, l: Line, rest: Bytes, p: Option<Bytes>)
    requires InUnit(r, h, u, true) && NoTerm(l.text) && Overflows(r, u + l.text, p)
    ensures Reaches(r, h, u + Whole(l) + rest, Before(h.out, p))
  {
    JoiningText(r, h, u, true, l.text);
    hide Run, Reaches, InUnit;
    OverflowReached(r, h, u + l.text, l.term + rest);
    assert u + l.text + (l.term + rest) == u + Whole(l) + rest;
  }

  /** The unit `u` and its ending line leave rewritten or raw, and `q` after them. */
  ghost predicate EndsAs(r: Rules, u: Bytes, l: Line, p: Option<Bytes>, q: Option<Bytes>) {
    || p == Then(r.redact(u), Before(Whole(l), q))
    || (RawAllowed(r, u + l.text) && p == Before(u + Whole(l), q))
  }

  lemma {:induction false} EndReached(r: Rules, h: Holder, u: Bytes, l: Line, rest: Bytes, p: Option<Bytes>, q: Option<Bytes>)
    requires r.holdBytes > 0 && Between(h) && Sound(h) && InUnit(r, h, u, true) && Unowed(Run(r, h, u), Whole(l))
    requires Ends(l) && NoTerm(l.text) && Terminator(l.term, rest) && Terminator(l.term, []) && Possible(r, LinesOf(rest), q)
    requires EndsAs(r, u, l, p, q)
    ensures Reaches(r, h, u + Whole(l) + rest, Before(h.out, p))
    decreases |rest|, 4
  {
    hide LinesOf, Run, Reaches, Blank, Sound, Between, InUnit, Possible;
    if p == Then(r.redact(u), Before(Whole(l), q)) {
      RedactedReached(r, h, u, l, rest, q);
    } else {
      var v := u + l.text;
      var k: nat :| r.holdBytes <= k <= |v| && k <= r.maxHeld && MayPass(r, v[..k]);
      assert v[..k] + v[k..] == v;
      RelayedReached(r, h, u, l, v[..k], v[k..], rest, q);
    }
  }

  lemma {:induction false} RedactedReached(r: Rules, h: Holder, u: Bytes, l: Line, rest: Bytes, q: Option<Bytes>)
    requires r.holdBytes > 0 && Between(h) && Sound(h) && InUnit(r, h, u, true) && Unowed(Run(r, h, u), Whole(l))
    requires Ends(l) && NoTerm(l.text) && Terminator(l.term, rest) && Terminator(l.term, []) && Possible(r, LinesOf(rest), q)
    ensures Reaches(r, h, u + Whole(l) + rest, Before(h.out, Then(r.redact(u), Before(Whole(l), q))))
    decreases |rest|, 3
  {
    hide LinesOf, Run, Reaches, Blank, Sound, Between, InUnit, Possible;
    EndingLine(r, h, u, l);
    var n := Run(r, h, u + Whole(l));
    match r.redact(u)
    case None =>
      ReachFailed(r, n, rest);
      ReachRun(r, h, u + Whole(l), rest, None);
    case Some(res) =>
      PossibleReached(r, n, rest, q);
      BeforeTwice(res, Whole(l), q);
      BeforeTwice(h.out, res + Whole(l), q);
      ReachRun(r, h, u + Whole(l), rest, Before(n.out, q));
  }

  lemma {:induction false} RelayedReached(r: Rules, h: Holder, u: Bytes, l: Line, a: Bytes, b: Bytes, rest: Bytes, q: Option<Bytes>)
    requires r.holdBytes > 0 && Between(h) && Sound(h) && InUnit(r, h, u, true) && Unowed(Run(r, h, u), Whole(l))
    requires Ends(l) && NoTerm(l.text) && Terminator(l.term, rest) && Terminator(l.term, []) && Possible(r, LinesOf(rest), q)
    requires a + b == u + l.text && r.holdBytes <= |a| <= r.maxHeld && MayPass(r, a)
    ensures Reaches(r, h, u + Whole(l) + rest, Before(h.out, Before(u + Whole(l), q)))
    decreases |rest|, 3
  {
    RawEnds(r, h, u, l, a, b);
    var n := Run(r, Run(r, EndRead(r, Run(r, h, a)), b), l.term);
    BetweenHolds(n);
    assert Unowed(n, rest);
    hide *;
    PossibleReached(r, n, rest, q);
    BeforeTwice(h.out, u + Whole(l), q);
    RelayReach(r, h, a, b, l.term, rest, Before(n.out, q));
    assert a + b + l.term + rest == u + Whole(l) + rest by { WholeAppend(u, l); }
  }

  lemma WholeAppend(u: Bytes, l: Line)
    ensures u + l.text + l.term == u + Whole(l)
  {
  }

  /** A read ends after `a`, and two more stretches follow. */
  lemma RelayReach(r: Rules, h: Holder, a: Bytes, b: Bytes, c: Bytes, rest: Bytes, out: Option<Bytes>)
    requires Reaches(r, Run(r, Run(r, EndRead(r, Run(r, h, a)), b), c), rest, out)
    ensures Reaches(r, h, a + b + c + rest, out)
  {
    hide *;
    var g := EndRead(r, Run(r, h, a));
    ReachRun(r, Run(r, g, b), c, rest, out);
    ReachRun(r, g, b, c + rest, out);
    ReachCut(r, h, a, b + (c + rest), out);
    assert a + (b + (c + rest)) == a + b + c + rest;
  }

  // ---- Exactly what cuts come to ----

  /** A way to cut `s` into non-empty reads. */
  ghost predicate Cut(chunks: seq<Bytes>, s: Bytes) {
    Concat(chunks) == s && forall c :: c in chunks ==> c != []
  }

  /** The outcomes of a stream over all its cuts into non-empty reads are the possible ones of its lines, neither more nor fewer. */
  lemma CutsReachExactly(r: Rules, s: Bytes, out: Option<Bytes>)
    requires r.holdBytes > 0
    ensures Possible(r, LinesOf(s), out) <==> exists chunks :: Cut(chunks, s) && Relayed(r, chunks) == out
  {
    hide Possible, LinesOf;
    if Possible(r, LinesOf(s), out) {
      var chunks := SomeCut(r, s, out);
      assert Cut(chunks, s);
    }
    forall chunks | Cut(chunks, s) ensures Possible(r, LinesOf(s), Relayed(r, chunks)) {
      EveryCutIsPossible(r, chunks);
    }
  }

  lemma SomeCut(r: Rules, s: Bytes, out: Option<Bytes>) returns (chunks: seq<Bytes>)
    requires r.holdBytes > 0 && Possible(r, LinesOf(s), out)
    ensures Cut(chunks, s) && Relayed(r, chunks) == out
  {
    hide Run, LinesOf, Possible, Finish;
    PossibleReached(r, Fresh, s, out);
    assert Before(Fresh.out, out) == out by { if out.Some? { assert [] + out.value == out.value; } }
    var c, rest :| Finishes(r, Fresh, s, c, rest, out);
    if c == [] {
      RunNothing(r, Fresh);
      assert [] + Concat(rest) == Concat(rest);
      chunks := rest;
    } else {
      FirstRead(r, Fresh, c, rest);
      hide FeedAll;
      chunks := [c] + rest;
    }
  }

  /** Lines that are not calm can leave otherwise than the reference has them. */
  lemma {:induction false} AnotherWay(r: Rules, ls: seq<Line>) returns (out: Option<Bytes>)
    requires !Calm(r, ls) && Redaction(r, ls).Some?
    ensures Possible(r, ls, out) && out != Redaction(r, ls)
    decreases |ls|, 1
  {
    hide Blank, FieldLine, IsData, UnitRedaction;
    var l := ls[0];
    if !Outside(l) {
      out := AnotherUnitWay(r, Whole(l), ls[1..], IsData(l.text));
    } else if |l.text| > r.maxHeld {
      out := None;
    } else {
      var rest := AnotherWay(r, ls[1..]);
      out := Before(Whole(l), rest);
      BeforeDiffers(Whole(l), rest, Redaction(r, ls[1..]));
    }
  }

  lemma {:induction false} AnotherUnitWay(r: Rules, unit: Bytes, ls: seq<Line>, hasData: bool) returns (out: Option<Bytes>)
    requires !CalmUnit(r, unit, ls, hasData) && UnitRedaction(r, unit, ls, hasData).Some?
    ensures PossibleUnit(r, unit, ls, hasData, out) && out != UnitRedaction(r, unit, ls, hasData)
    decreases |ls|, 2
  {
    UnitUnfolds(r, unit, ls, hasData);
    hide Blank, FieldLine, IsData, UnitRedaction, RawAllowed, KeptAllowed;
    if |unit| > r.maxHeld {
      out := None;
    } else if ls == [] {
      out := Some(unit);
    } else if hasData && Ends(ls[0]) {
      out := AnotherEnd(r, unit, ls[0], ls[1..]);
    } else {
      out := AnotherUnitWay(r, unit + Whole(ls[0]), ls[1..], hasData || IsData(ls[0].text));
    }
  }

  lemma {:induction false} AnotherEnd(r: Rules, unit: Bytes, l: Line, rest: seq<Line>) returns (out: Option<Bytes>)
    requires Then(r.redact(unit), Before(Whole(l), Redaction(r, rest))).Some?
    requires !(|unit + l.text| <= r.maxHeld && Harmless(r, unit, unit + l.text) && Calm(r, rest))
    ensures Overflows(r, unit + l.text, out) || (exists q :: Possible(r, rest, q) && EndsAs(r, unit, l, out, q))
    ensures out != Then(r.redact(unit), Before(Whole(l), Redaction(r, rest)))
    decreases |rest|, 3
  {
    hide Possible, Calm, RawAllowed, Redaction;
    if |unit + l.text| > r.maxHeld {
      out := None;
    } else if !Calm(r, rest) {
      var q := AnotherWay(r, rest);
      out := Then(r.redact(unit), Before(Whole(l), q));
      BeforeDiffers(Whole(l), q, Redaction(r, rest));
      BeforeDiffers(r.redact(unit).value, Before(Whole(l), q), Before(Whole(l), Redaction(r, rest)));
      assert EndsAs(r, unit, l, out, q);
    } else {
      var q := SomePossible(r, rest);
      OnlyRedaction(r, rest, q);
      out := Before(unit + Whole(l), q);
      assert EndsAs(r, unit, l, out, q);
      BeforeTwice(unit, Whole(l), q);
      AfterDiffers(unit, r.redact(unit).value, Before(Whole(l), q).value);
    }
  }

  lemma BeforeDiffers(a: Bytes, p: Option<Bytes>, q: Option<Bytes>)
    requires p != q
    ensures Before(a, p) != Before(a, q)
  {
    if p.Some? && q.Some? {
      assert (a + p.value)[|a|..] == p.value && (a + q.value)[|a|..] == q.value;
    }
  }

  lemma AfterDiffers(a: Bytes, b: Bytes, c: Bytes)
    requires a != b
    ensures a + c != b + c
  {
    assert (a + c)[..|a + c| - |c|] == a && (b + c)[..|b + c| - |c|] == b;
  }

  /** Every unit can be rewritten, or let out raw. */
  ghost predicate CanPass(r: Rules, ls: seq<Line>)
    decreases |ls|, 1
  {
    if ls == [] then true
    else if Outside(ls[0]) then CanPass(r, ls[1..])
    else UnitCanPass(r, Whole(ls[0]), ls[1..], IsData(ls[0].text))
  }

  ghost predicate UnitCanPass(r: Rules, unit: Bytes, ls: seq<Line>, hasData: bool)
    decreases |ls|, 2
  {
    if ls == [] then (KeptAllowed(r, unit) && r.redact(unit).Some?) || RawAllowed(r, unit)
    else if hasData && Ends(ls[0]) then (r.redact(unit).Some? || RawAllowed(r, unit + ls[0].text)) && CanPass(r, ls[1..])
    else UnitCanPass(r, unit + Whole(ls[0]), ls[1..], hasData || IsData(ls[0].text))
  }

  lemma {:induction false} WhatPasses(r: Rules, ls: seq<Line>, out: Option<Bytes>)
    requires Possible(r, ls, out) && out.Some?
    ensures CanPass(r, ls)
    decreases |ls|, 1
  {
    hide Blank, FieldLine, IsData;
    if ls != [] {
      if Outside(ls[0]) {
        var rest :| Possible(r, ls[1..], rest) && out == Before(Whole(ls[0]), rest);
        WhatPasses(r, ls[1..], rest);
      } else {
        WhatUnitPasses(r, Whole(ls[0]), ls[1..], IsData(ls[0].text), out);
      }
    }
  }

  lemma {:induction false} WhatUnitPasses(r: Rules, unit: Bytes, ls: seq<Line>, hasData: bool, out: Option<Bytes>)
    requires PossibleUnit(r, unit, ls, hasData, out) && out.Some?
    ensures UnitCanPass(r, unit, ls, hasData)
    decreases |ls|, 2
  {
    hide Blank, FieldLine, IsData, RawAllowed, KeptAllowed;
    if ls != [] {
      if hasData && Ends(ls[0]) {
        var rest :| Possible(r, ls[1..], rest) && EndsAs(r, unit, ls[0], out, rest);
        EndPasses(r, unit, ls[0], out, rest);
        WhatPasses(r, ls[1..], rest);
      } else {
        WhatUnitPasses(r, unit + Whole(ls[0]), ls[1..], hasData || IsData(ls[0].text), out);
      }
    }
  }

  lemma EndPasses(r: Rules, u: Bytes, l: Line, p: Option<Bytes>, q: Option<Bytes>)
    requires EndsAs(r, u, l, p, q) && p.Some?
    ensures q.Some? && (r.redact(u).Some? || RawAllowed(r, u + l.text))
  {
    hide RawAllowed;
    assert q == None ==> Before(Whole(l), q) == None && Before(u + Whole(l), q) == None;
    assert r.redact(u) == None ==> Then(r.redact(u), Before(Whole(l), q)) == None;
  }

  lemma {:induction false} SomePass(r: Rules, ls: seq<Line>) returns (out: Option<Bytes>)
    requires CanPass(r, ls)
    ensures Possible(r, ls, out) && out.Some?
    decreases |ls|, 1
  {
    hide Blank, FieldLine, IsData;
    if ls == [] {
      out := Some([]);
    } else if Outside(ls[0]) {
      var rest := SomePass(r, ls[1..]);
      out := Before(Whole(ls[0]), rest);
    } else {
      out := SomeUnitPass(r, Whole(ls[0]), ls[1..], IsData(ls[0].text));
    }
  }

  lemma {:induction false} SomeUnitPass(r: Rules, unit: Bytes, ls: seq<Line>, hasData: bool) returns (out: Option<Bytes>)
    requires UnitCanPass(r, unit, ls, hasData)
    ensures PossibleUnit(r, unit, ls, hasData, out) && out.Some?
    decreases |ls|, 2
  {
    hide Blank, FieldLine, IsData, RawAllowed, KeptAllowed;
    if ls == [] {
      out := if RawAllowed(r, unit) then Some(unit) else r.redact(unit);
    } else if hasData && Ends(ls[0]) {
      var rest := SomePass(r, ls[1..]);
      out := if r.redact(unit).Some? then Then(r.redact(unit), Before(Whole(ls[0]), rest)) else Before(unit + Whole(ls[0]), rest);
    } else {
      out := SomeUnitPass(r, unit + Whole(ls[0]), ls[1..], hasData || IsData(ls[0].text));
    }
  }

  /** However the stream is cut, what is returned is the reference redaction. */
  ghost predicate CutsNeverMatter(r: Rules, s: Bytes) {
    forall chunks :: Cut(chunks, s) ==> Relayed(r, chunks) == Redaction(r, LinesOf(s))
  }

  /**
   * Chunking invariance, exactly: a stream the reference redacts is returned so under every cut if and only if it is calm; and
   * one the reference fails on fails under every cut if and only if some unit of it can neither be rewritten nor let out raw.
   */
  lemma CutsNeverMatterExactly(r: Rules, s: Bytes)
    requires r.holdBytes > 0
    ensures CutsNeverMatter(r, s) <==>
            if Redaction(r, LinesOf(s)).Some? then Calm(r, LinesOf(s)) else !CanPass(r, LinesOf(s))
  {
    hide LinesOf, Possible, Redaction, Calm, CanPass, Relayed;
    var ls := LinesOf(s);
    if Redaction(r, ls).Some? && !Calm(r, ls) {
      var out := AnotherWay(r, ls);
      var chunks := SomeCut(r, s, out);
    }
    if Redaction(r, ls) == None && CanPass(r, ls) {
      var out := SomePass(r, ls);
      var chunks := SomeCut(r, s, out);
    }
    forall chunks | Cut(chunks, s)
      ensures Calm(r, ls) ==> Relayed(r, chunks) == Redaction(r, ls)
      ensures !CanPass(r, ls) ==> Relayed(r, chunks) == None
    {
      EveryCutIsPossible(r, chunks);
      if Calm(r, ls) { OnlyRedaction(r, ls, Relayed(r, chunks)); }
      if Relayed(r, chunks).Some? { WhatPasses(r, ls, Relayed(r, chunks)); }
    }
  }
}
