/** The event holder of the stream door, with the fields and loops of internal/proxy/errredact.go. */
module EventHolder {
  import opened Text
  import opened Lines
  import opened HolderSpec

  function Max(a: int, b: int): int {
    if a > b then a else b
  }

  /** Where the scan cuts: the text, its whole terminator and what follows. */
  lemma CutAt(s: Bytes, from: nat, lineEnd: nat, termEnd: nat)
    requires from <= lineEnd < termEnd <= |s| && IsTerm(s[lineEnd])
    requires termEnd == lineEnd + if s[lineEnd] == CR && lineEnd + 1 < |s| && s[lineEnd + 1] == LF then 2 else 1
    ensures Terminator(s[lineEnd..termEnd], s[termEnd..])
    ensures s[from..] == s[from..lineEnd] + s[lineEnd..termEnd] + s[termEnd..]
    ensures s[lineEnd..termEnd] == [CR] && s[termEnd..] == [] <==> s[lineEnd] == CR && termEnd == |s| && termEnd == lineEnd + 1
  {
    if termEnd == lineEnd + 1 {
      assert s[lineEnd..termEnd] == [s[lineEnd]];
    } else {
      assert s[lineEnd..termEnd] == [CR, LF];
    }
  }

  class Door {
    const rules: Rules
    var held: Bytes       // Cur() reads the open unit and the unended line off it
    var start: nat        // the unit is held[start..scanned]; Compact drops what is before it
    var scanned: nat      // the unended line is held[scanned..searched], and it has no terminator
    var searched: nat     // held[searched..] is what the run has not yet taken
    var inEvent: bool
    var hasData: bool
    var lfOwed: bool
    var decided: bool
    var mode: Mode
    var lineBlank: bool
    var runeBuf: Bytes
    var skipLF: bool
    var out: Bytes

    constructor (rules: Rules)
      requires rules.holdBytes > 0
      ensures this.rules == rules && Valid() && out == [] && Abs() == Fresh
    {
      this.rules := rules;
      held, start, scanned, searched := [], 0, 0, 0;
      inEvent, hasData, lfOwed, decided, mode := false, false, false, false, Holding;
      lineBlank, runeBuf, skipLF, out := false, [], false, [];
    }

    ghost predicate Indexed()
      reads this
    {
      && start <= scanned <= searched <= |held|
      && NoTerm(held[scanned..searched])
      && (!inEvent ==> start == scanned && !hasData)
      && (lfOwed ==> searched == |held| && scanned == searched)
    }

    /** Between reads: nothing that left is kept, and the whole of the held tail has been searched. */
    ghost predicate Valid()
      reads this
    {
      && rules.holdBytes > 0
      && Indexed()
      && start == 0 && searched == |held| && !skipLF
      && (mode == Passthrough ==> held == [] && inEvent && hasData)
    }

    /** The state the indexes stand for while `held[searched..]` is still to be walked. */
    ghost function Cur(): Holder
      requires Indexed()
      reads this
    {
      Holder(out, held[start..scanned], held[scanned..searched], inEvent, hasData, lfOwed, decided,
             mode, RawLine(lineBlank, runeBuf), false)
    }

    ghost function Abs(): Holder
      requires Valid()
      reads this
    {
      Cur().(out := [])
    }

    /** The switch of scan on one complete line, held[scanned..lineEnd], ended by held[lineEnd..termEnd]. */
    method TakeLine(lineEnd: nat, termEnd: nat) returns (ok: bool)
      requires Indexed() && mode == Holding
      requires scanned <= lineEnd <= termEnd <= |held| && NoTerm(held[scanned..lineEnd])
      requires lfOwed ==> termEnd == |held|
      modifies this`out, this`start, this`inEvent, this`hasData, this`decided, this`scanned, this`searched
      ensures var h := LineStep(rules, old(Cur()), held[old(scanned)..lineEnd], held[lineEnd..termEnd]);
              if ok then Indexed() && !h.failed && Cur() == h && scanned == searched == termEnd else h.failed
    {
      hide Blank, FieldLine, IsData, LineStep;
      var lineStart := scanned;
      var line := held[lineStart..lineEnd];
      var blank := Blank(line);
      ghost var h, term := Cur(), held[lineEnd..termEnd];
      LineStepCases(rules, h, line, term);
      assert held[lineStart..termEnd] == line + term && held[start..termEnd] == held[start..lineStart] + (line + term);
      assert held[termEnd..termEnd] == [];
      if !inEvent && (blank || FieldLine(line)) {
        out := out + held[lineStart..termEnd];
        start := termEnd;
        decided := false;
      } else if !inEvent {
        inEvent := true;
        hasData := IsData(line);
      } else if blank && hasData {
        var res := rules.redact(held[start..lineStart]);
        if res == None { return false; }
        out := out + res.value + held[lineStart..termEnd];
        start := termEnd;
        inEvent, hasData, decided := false, false, false;
      } else {
        if !hasData { hasData := IsData(line); }
      }
      scanned, searched := termEnd, termEnd;
      ok := true;
    }

    /** One turn of scan's loop: the terminator at `lineEnd` is the first one past searched. */
    method NextLine(lineEnd: nat) returns (ok: bool)
      requires Indexed() && mode == Holding && !lfOwed
      requires searched <= lineEnd < |held| && IsTerm(held[lineEnd]) && NoTerm(held[searched..lineEnd])
      modifies this`out, this`start, this`inEvent, this`hasData, this`decided, this`scanned, this`searched, this`lfOwed
      ensures var h := Run(rules, old(Cur()), old(held[searched..]));
              if ok then Indexed() && searched > lineEnd && Run(rules, Cur(), held[searched..]) == h else h.failed
    {
      hide Run, LineStep, Terminator;
      var termEnd := lineEnd + 1;
      var owed := false;
      if held[lineEnd] == CR {
        if termEnd < |held| {
          if held[termEnd] == LF { termEnd := termEnd + 1; }
        } else {
          owed := true;
        }
      }
      ghost var h, text, term, rest := Cur(), held[searched..lineEnd], held[lineEnd..termEnd], held[termEnd..];
      CutAt(held, searched, lineEnd, termEnd);
      assert held[scanned..lineEnd] == h.partial + text;
      RunLine(rules, h, text, term, rest);
      ok := TakeLine(lineEnd, termEnd);
      if ok {
        assert owed <==> term == [CR] && rest == [];
        assert owed ==> searched == |held|;
        lfOwed := owed;
        assert Cur() == AfterLine(rules, h, text, term, rest);
      } else {
        RunFailed(rules, AfterLine(rules, h, text, term, rest), rest);
      }
    }

    method ScanLines() returns (ok: bool)
      requires Indexed() && mode == Holding && !lfOwed
      modifies this`out, this`start, this`inEvent, this`hasData, this`decided, this`scanned, this`searched, this`lfOwed
      ensures var h := Run(rules, old(Cur()), old(held[searched..]));
              if ok then Indexed() && searched == |held| && !h.failed && Cur() == h else h.failed
    {
      hide Run;
      ghost var goal := Run(rules, Cur(), held[searched..]);
      while true
        invariant Indexed()
        invariant Run(rules, Cur(), held[searched..]) == goal
        decreases |held| - searched
      {
        var i := FirstTerm(held[searched..]);
        if searched + i == |held| { break; }
        assert held[searched..][i] == held[searched + i];
        RunNone(rules, Cur());
        ok := NextLine(searched + i);
        if !ok { return; }
      }
      RunText(rules, Cur(), held[searched..]);
      assert held[scanned..|held|] == held[scanned..searched] + held[searched..];
      searched := |held|;
      ok := true;
    }

    lemma RunNone(r: Rules, h: Holder)
      ensures Run(r, h, []) == h
    {
    }

    /** Drops held[..start] and moves the indexes with it. */
    method Compact()
      requires start <= scanned || start == |held|
      requires start <= searched == |held|
      modifies this`held, this`start, this`scanned, this`searched
      ensures start == 0 && held == old(held[start..]) && searched == |held|
      ensures scanned == if old(scanned) < old(start) then 0 else old(scanned) - old(start)
      ensures old(Indexed()) ==> Indexed() && Cur() == old(Cur())
    {
      if start == 0 {
        assert held[start..] == held;
        return;
      }
      assert Indexed() ==> held[start..][..scanned - start] == held[start..scanned]
                           && held[start..][scanned - start..searched - start] == held[scanned..searched];
      held := held[start..];
      scanned := Max(scanned - start, 0);
      searched := Max(searched - start, 0);
      start := 0;
    }

    method FeedRawByte(c: byte)
      modifies this`lineBlank, this`runeBuf
      ensures RawLine(lineBlank, runeBuf) == RawByte(RawLine(old(lineBlank), old(runeBuf)), c)
    {
      hide SpaceWidth, FullRune;
      if !lineBlank { return; }
      if runeBuf == [] && c < 0x80 {
        if SpaceWidth([c]) == 0 { lineBlank := false; }
        return;
      }
      runeBuf := runeBuf + [c];
      if FullRune(runeBuf) || |runeBuf| == 4 {
        if SpaceWidth(runeBuf) == 0 { lineBlank := false; }
        runeBuf := [];
      }
    }

    method StartRawLine(partial: Bytes)
      modifies this`lineBlank, this`runeBuf
      ensures RawLine(lineBlank, runeBuf) == RawBytes(RawStart, partial)
    {
      hide RawByte;
      lineBlank, runeBuf := true, [];
      var k := 0;
      while k < |partial|
        invariant 0 <= k <= |partial|
        invariant RawBytes(RawLine(lineBlank, runeBuf), partial[k..]) == RawBytes(RawStart, partial)
      {
        assert partial[k..][1..] == partial[k + 1..];
        FeedRawByte(partial[k]);
        k := k + 1;
      }
    }

    /** A proved unit: what is held goes out raw and the rest of the unit follows raw. */
    method StartRelay()
      requires Indexed() && rules.holdBytes > 0 && mode == Holding && start == 0 && searched == |held| && !skipLF && decided
      modifies this
      ensures Valid() && Cur() == OpenRelay(old(Cur()))
    {
      hide RawBytes;
      ghost var h := Cur();
      assert held == h.Held() && held[scanned..] == h.partial;
      inEvent, hasData := true, true;
      out := out + held;
      StartRawLine(held[scanned..]);
      mode := Passthrough;
      start := |held|;
      Compact();
    }

    /** The end of scan: the size limit, then the one decision a unit gets. */
    method Decide() returns (ok: bool)
      requires Indexed() && rules.holdBytes > 0 && mode == Holding && start == 0 && searched == |held| && !skipLF
      modifies this
      ensures var h := EndRead(rules, old(Cur()));
              if ok then Valid() && !h.failed && Cur() == h else h.failed
    {
      hide HasDataLine, RawBytes;
      ghost var h := Cur();
      assert held == h.Held() && held[|held|..] == [];
      if |held| > rules.maxHeld { return false; }
      if !decided && |held| >= rules.holdBytes {
        decided := true;
        if rules.proved(held) && HasDataLine(held) {
          StartRelay();
        }
      }
      ok := true;
    }

    method Scan() returns (ok: bool)
      requires rules.holdBytes > 0 && Indexed() && mode == Holding && !lfOwed && !skipLF
      modifies this
      ensures var h := EndRead(rules, Run(rules, old(Cur()), old(held[searched..])));
              if ok then Valid() && !h.failed && Cur() == h else h.failed
    {
      hide Run;
      ok := ScanLines();
      if !ok { return; }
      ghost var h := Cur();
      Compact();
      assert Cur() == h;
      hide EndRead;
      ok := Decide();
    }

    /** Puts a read behind what is held. */
    method Append(p: Bytes)
      requires Indexed() && searched == |held| && !lfOwed
      modifies this`held
      ensures Indexed() && Cur() == old(Cur()) && held[searched..] == p
    {
      held := held + p;
      assert held[start..scanned] == old(held[start..scanned]) && held[scanned..searched] == old(held[scanned..searched]);
    }

    /** One byte of relayRaw's loop; `ended` is the end of a blank line. */
    method RawTurn(c: byte, last: bool) returns (ended: bool)
      requires !lfOwed
      modifies this`lfOwed, this`skipLF, this`lineBlank, this`runeBuf
      ensures var w := RawLine(old(lineBlank), old(runeBuf));
              && ended == (!(old(skipLF) && c == LF) && IsTerm(c) && EndsRaw(w))
              && skipLF == (c == CR && !last) && lfOwed == (c == CR && last)
              && RawLine(lineBlank, runeBuf) ==
                 if (old(skipLF) && c == LF) || ended then w else if IsTerm(c) then RawStart else RawByte(w, c)
    {
      hide RawByte;
      ended := false;
      if skipLF {
        skipLF := false;
        if c == LF { return; }  // pays what Cur() owes; no line starts
      }
      if IsTerm(c) {
        if c == CR {
          if last { lfOwed := true; } else { skipLF := true; }
        }
        if lineBlank && runeBuf == [] { return true; }
        lineBlank, runeBuf := true, [];
      } else {
        FeedRawByte(c);
      }
    }

    /** The raw relay of one read, watching for the unit's ending line. */
    method RelayRaw(p: Bytes) returns (ok: bool)
      requires Valid() && mode == Passthrough && !lfOwed
      modifies this
      ensures var h := EndRead(rules, Run(rules, old(Cur()), p));
              if ok then Valid() && !h.failed && Cur() == h else h.failed
    {
      hide Run, Step, RawByte, EndsRaw;
      ghost var goal := Run(rules, Cur(), p);
      assert out + p[..0] == out && p[0..] == p;
      var i := 0;
      while i < |p|
        invariant 0 <= i <= |p|
        invariant rules.holdBytes > 0 && Indexed() && held == [] && mode == Passthrough && inEvent && hasData
        invariant out == old(out)
        invariant skipLF ==> i < |p|
        invariant lfOwed ==> i == |p|
        invariant Run(rules, Cur().(out := out + p[..i], lfOwed := lfOwed || skipLF), p[i..]) == goal
      {
        var c := p[i];
        ghost var h := Cur().(out := out + p[..i], lfOwed := skipLF);
        assert p[i..] == [c] + p[i + 1..];
        assert out + p[..i + 1] == out + p[..i] + [c];
        RunCons(rules, h, c, p[i + 1..]);
        StepRaw(rules, h, c);
        var ended := RawTurn(c, i + 1 == |p|);
        if ended {
          assert Cur().(out := out + p[..i + 1], mode := Holding, inEvent := false, hasData := false,
                        decided := false, lfOwed := lfOwed || skipLF) == Step(rules, h, c);
          ok := LeaveRaw(p[..i + 1], p[i + 1..]);
          return;
        }
        i := i + 1;
        assert Cur().(out := out + p[..i], lfOwed := lfOwed || skipLF) == Step(rules, h, c);
      }
      assert p[..i] == p && p[i..] == [];
      out := out + p;
      RunNone(rules, Cur());
      ok := true;
    }

    /** The unit's ending line has gone by: back to holding, with what is left of the read. */
    method LeaveRaw(sent: Bytes, left: Bytes) returns (ok: bool)
      requires rules.holdBytes > 0 && Indexed() && held == [] && mode == Passthrough
      requires (skipLF ==> left != []) && (lfOwed ==> left == [])
      modifies this
      ensures var h := old(Cur()).(out := old(out) + sent, mode := Holding, inEvent := false, hasData := false,
                                   decided := false, lfOwed := old(lfOwed || skipLF));
              var n := EndRead(rules, Run(rules, h, left));
              if ok then Valid() && !n.failed && Cur() == n else n.failed
    {
      hide Run, Step;
      out := out + sent;
      mode, inEvent, hasData, decided := Holding, false, false, false;
      var rest := left;
      if skipLF {
        skipLF := false;
        ghost var h := Cur().(lfOwed := true);
        assert left == [left[0]] + left[1..];
        RunCons(rules, h, left[0], left[1..]);
        RunCons(rules, Cur(), left[0], left[1..]);
        if rest[0] == LF {
          StepOwed(rules, h);
          out := out + [LF];
          rest := rest[1..];
        } else {
          StepIgnoresOwed(rules, Cur(), left[0], true);
        }
      }
      RunNone(rules, Cur());
      if rest == [] { return true; }
      Append(rest);
      ok := Scan();
    }

    lemma StepRaw(r: Rules, h: Holder, b: byte)
      requires h.mode == Passthrough && !h.failed
      ensures Step(r, h, b) == if h.lfOwed && b == LF then h.(out := h.out + [LF], lfOwed := false)
                               else RawStep(h, b).(lfOwed := b == CR)
    {
    }

    /** The LF owed by the last read's CR, when `p` opens with it, goes where its line went. */
    method PayOwed(p: Bytes) returns (rest: Bytes)
      requires Valid() && lfOwed && p != []
      modifies this`out, this`held, this`scanned, this`searched, this`lfOwed
      ensures Valid() && !lfOwed && Run(rules, Cur(), rest) == Run(rules, old(Cur()), p)
    {
      hide Run, Step;
      ghost var h := Cur();
      lfOwed := false;
      assert p == [p[0]] + p[1..];
      RunCons(rules, h, p[0], p[1..]);
      if p[0] == LF {
        StepOwed(rules, h);
        if mode == Passthrough || !inEvent {
          out := out + [LF];
        } else {
          held := held + [LF];
          scanned := scanned + 1;
          searched := scanned;
          assert held[start..scanned] == h.unit + [LF] && held[scanned..searched] == h.partial;
        }
        assert Cur() == OwedLF(h);
        rest := p[1..];
      } else {
        assert Cur().(lfOwed := true) == h;
        RunCons(rules, Cur(), p[0], p[1..]);
        StepIgnoresOwed(rules, Cur(), p[0], true);
        rest := p;
      }
    }

    /** A read whose owed LF is settled, in whichever state the holder is. */
    method Dispatch(p: Bytes) returns (ok: bool)
      requires Valid() && !lfOwed
      modifies this
      ensures var h := EndRead(rules, Run(rules, old(Cur()), p));
              if ok then Valid() && !h.failed && Cur() == h else h.failed
    {
      hide Run, EndRead;
      if mode == Passthrough {
        ok := RelayRaw(p);
      } else {
        Append(p);
        ok := Scan();
      }
    }

    /** One read in, the bytes to write now out; a false `ok` ends the stream. */
    method FeedRead(read: Bytes) returns (res: Bytes, ok: bool)
      requires Valid()
      modifies this
      ensures var h := Feed(rules, old(Abs()), read);
              if ok then Valid() && !h.failed && h == Abs().(out := res) else h.failed && res == []
    {
      hide Run, EndRead;
      out := [];
      ghost var h := Abs();
      var p := read;
      if lfOwed {
        if p == [] {
          lfOwed := false;
        } else {
          p := PayOwed(p);
        }
      }
      assert read == [] && !h.lfOwed ==> h.(lfOwed := false) == h;
      ok := Dispatch(p);
      res := if ok then out else [];
    }

    /** What is held at EOF. */
    method FinishHeld() returns (res: Option<Bytes>)
      requires Valid()
      modifies this`held, this`scanned, this`searched
      ensures res == Finish(rules, old(Abs()))
    {
      assert held == Abs().Held();
      if mode == Passthrough || held == [] { return Some([]); }
      res := rules.redact(held);
      assert res.Some? ==> [] + res.value == res.value;
      held, scanned, searched := [], 0, 0;
    }
  }

  /** The read loop of relayStream around one holder: every read is fed, and EOF flushes what is held. */
  method RelayStream(rules: Rules, chunks: seq<Bytes>) returns (sent: Bytes, ok: bool)
    requires rules.holdBytes > 0
    ensures Relayed(rules, chunks) == if ok then Some(sent) else None
    ensures !ok ==> sent == Delivered(rules, Fresh, chunks)
  {
    var door := new Door(rules);
    sent := [];
    var i := 0;
    while i < |chunks|
      invariant 0 <= i <= |chunks|
      invariant fresh(door) && door.rules == rules && door.Valid()
      invariant FeedAll(rules, door.Abs().(out := sent), chunks[i..]) == FeedAll(rules, Fresh, chunks)
      invariant Delivered(rules, door.Abs().(out := sent), chunks[i..]) == Delivered(rules, Fresh, chunks)
    {
      hide Feed;
      ghost var h := door.Abs();
      assert chunks[i..][1..] == chunks[i + 1..];
      var res, good := door.FeedRead(chunks[i]);
      FeedOut(rules, h, sent, chunks[i]);
      assert Sent(h, sent) == h.(out := sent) by { assert sent + [] == sent; }
      if !good { return sent, false; }
      sent := sent + res;
      i := i + 1;
    }
    ghost var h := door.Abs();
    var tail := door.FinishHeld();
    assert sent + [] == sent;
    assert tail == Finish(rules, h) && FeedAll(rules, Fresh, chunks) == h.(out := sent);
    FinishSent(rules, h, sent);
    if tail == None { return sent, false; }
    sent, ok := sent + tail.value, true;
  }

  /** The buffered door: the body through a holder of its own, in one read. */
  method RedactThroughHolder(rules: Rules, body: Bytes) returns (res: Option<Bytes>)
    requires rules.holdBytes > 0
    ensures res == Relayed(rules, [body])
  {
    hide Feed, Finish;
    var door := new Door(rules);
    OneRead(rules, body);
    var fed, good := door.FeedRead(body);
    if !good {
      FinishFailed(rules, Feed(rules, Fresh, body));
      return None;
    }
    ghost var h := door.Abs();
    var tail := door.FinishHeld();
    FinishSent(rules, h, fed);
    if tail == None { return None; }
    res := Some(fed + tail.value);
  }

  lemma FinishFailed(r: Rules, h: Holder)
    requires h.failed
    ensures Finish(r, h) == None
  {
  }

  lemma FinishSent(r: Rules, h: Holder, sent: Bytes)
    requires h.out == []
    ensures Finish(r, h.(out := sent)) == match Finish(r, h) case None => None case Some(t) => Some(sent + t)
  {
    assert sent + [] == sent;
    match r.redact(h.Held())
    case None =>
    case Some(res) => assert [] + res == res;
  }
}
