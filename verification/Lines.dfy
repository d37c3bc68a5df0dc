/**
 * The event-stream line grammar (section 9.2 of the WHATWG HTML Living Standard) as the reader,
 * the rewriter and the stream holder cut it: LF, CRLF and a bare CR all end a line.
 */
module Lines {
  import opened Text

  datatype Line = Line(text: Bytes, term: Bytes)

  predicate IsTerm(b: byte) {
    b == LF || b == CR
  }

  ghost predicate NoTerm(s: Bytes) {
    forall i :: 0 <= i < |s| ==> !IsTerm(s[i])
  }

  /** The index of the first terminator byte in `s`, or |s|. */
  function FirstTerm(s: Bytes): (n: nat)
    ensures n <= |s|
    ensures forall i :: 0 <= i < n ==> !IsTerm(s[i])
    ensures n < |s| ==> IsTerm(s[n])
  {
    if s == [] || IsTerm(s[0]) then 0 else 1 + FirstTerm(s[1..])
  }

  /** How many bytes of `s` the terminator at `n` takes. */
  function TermWidth(s: Bytes, n: nat): (w: nat)
    requires n <= |s|
    ensures n + w <= |s|
  {
    if n == |s| then 0
    else if s[n] == CR && n + 1 < |s| && s[n + 1] == LF then 2
    else 1
  }

  function FirstLine(s: Bytes): Line {
    var n := FirstTerm(s);
    Line(s[..n], s[n..n + TermWidth(s, n)])
  }

  function AfterFirstLine(s: Bytes): (rest: Bytes)
    ensures s != [] ==> |rest| < |s|
  {
    var n := FirstTerm(s);
    s[n + TermWidth(s, n)..]
  }

  /** The loop of mcpclient.NextLine. */
  method NextLine(body: Bytes) returns (line: Bytes, term: Bytes, rest: Bytes)
    ensures Line(line, term) == FirstLine(body)
    ensures rest == AfterFirstLine(body)
  {
    var i := 0;
    while i < |body|
      invariant 0 <= i <= |body|
      invariant FirstTerm(body) >= i
    {
      if IsTerm(body[i]) {
        var w := TermWidth(body, i);
        return body[..i], body[i..i + w], body[i + w..];
      }
      i := i + 1;
    }
    return body, [], [];
  }

  function LinesOf(s: Bytes): (ls: seq<Line>)
    decreases |s|
  {
    if s == [] then [] else [FirstLine(s)] + LinesOf(AfterFirstLine(s))
  }

  function Unlines(ls: seq<Line>): Bytes {
    if ls == [] then [] else ls[0].text + ls[0].term + Unlines(ls[1..])
  }

  lemma SplitFirst(s: Bytes)
    ensures s == FirstLine(s).text + FirstLine(s).term + AfterFirstLine(s)
  {
    var n := FirstTerm(s);
    var m := n + TermWidth(s, n);
    assert s[..n] + s[n..m] == s[..m];
  }

  /** Cutting into lines loses nothing. */
  lemma {:induction false} LinesLossless(s: Bytes)
    ensures Unlines(LinesOf(s)) == s
    decreases |s|
  {
    if s != [] {
      SplitFirst(s);
      LinesLossless(AfterFirstLine(s));
      assert LinesOf(s)[1..] == LinesOf(AfterFirstLine(s));
    }
  }

  ghost predicate Terminator(term: Bytes, rest: Bytes) {
    || term == [LF]
    || term == [CR, LF]
    || (term == [CR] && (rest == [] || rest[0] != LF))
  }

  lemma FirstLineTerminates(s: Bytes)
    ensures FirstLine(s).term == [] ==> AfterFirstLine(s) == [] && NoTerm(s) && FirstLine(s).text == s
    ensures FirstLine(s).term != [] ==> Terminator(FirstLine(s).term, AfterFirstLine(s))
  {
    var n := FirstTerm(s);
    if n < |s| {
      assert FirstLine(s).term == if TermWidth(s, n) == 2 then [CR, LF] else [s[n]];
    }
  }

  lemma FirstLineIs(l: Line, rest: Bytes)
    requires NoTerm(l.text) && (Terminator(l.term, rest) || (l.term == [] && rest == [] && l.text != []))
    ensures var s := l.text + l.term + rest; s != [] && FirstLine(s) == l && AfterFirstLine(s) == rest
  {
    var s := l.text + l.term + rest;
    var n := |l.text|;
    FirstTermIs(s, n);
    assert l.term != [] ==> s[n] == l.term[0];
    assert l.term == [CR, LF] ==> s[n + 1] == LF;
    assert l.term == [CR] && rest != [] ==> s[n + 1] == rest[0];
    assert TermWidth(s, n) == |l.term|;
    assert s[..n] == l.text && s[n..n + |l.term|] == l.term && s[n + |l.term|..] == rest;
  }

  /** Lines that, put together, are cut back into themselves. */
  ghost predicate Recuts(ls: seq<Line>) {
    ls == [] || (
      && NoTerm(ls[0].text)
      && (if ls[0].term == [] then |ls| == 1 && ls[0].text != [] else Terminator(ls[0].term, Unlines(ls[1..])))
      && Recuts(ls[1..]))
  }

  lemma {:induction false} LinesRecut(s: Bytes)
    ensures Recuts(LinesOf(s)) && Unlines(LinesOf(s)) == s
    decreases |s|
  {
    LinesLossless(s);
    LinesCons(s);
    if s != [] {
      FirstLineTerminates(s);
      LinesRecut(AfterFirstLine(s));
      LinesCons([]);
    }
  }

  lemma {:induction false} RecutsIsCut(ls: seq<Line>)
    requires Recuts(ls)
    ensures LinesOf(Unlines(ls)) == ls
  {
    if ls != [] {
      RecutsIsCut(ls[1..]);
      FirstLineIs(ls[0], Unlines(ls[1..]));
      LinesCons(Unlines(ls));
    }
  }

  lemma {:induction false} RecutsPrefix(ls: seq<Line>, k: nat)
    requires Recuts(ls) && k <= |ls|
    ensures Recuts(ls[..k])
    ensures Unlines(ls[..k]) <= Unlines(ls)
  {
    if k > 0 {
      RecutsPrefix(ls[1..], k - 1);
      assert ls[..k][1..] == ls[1..][..k - 1];
      var l, p, rest := ls[0], Unlines(ls[1..][..k - 1]), Unlines(ls[1..]);
      assert (l.text + l.term + rest)[..|l.text + l.term| + |p|] == l.text + l.term + p;
    }
  }

  lemma {:induction false} RecutsSuffix(ls: seq<Line>, k: nat)
    requires Recuts(ls) && k <= |ls|
    ensures Recuts(ls[k..])
  {
    if k > 0 {
      RecutsSuffix(ls[1..], k - 1);
      assert ls[k..] == ls[1..][k - 1..];
    }
  }

  /** A cut that falls between two lines. */
  ghost predicate LineCut(a: Bytes, b: Bytes) {
    a == [] || b == [] || (IsTerm(a[|a| - 1]) && !(a[|a| - 1] == CR && b[0] == LF))
  }

  lemma FirstTermIs(s: Bytes, n: nat)
    requires n <= |s| && (forall i :: 0 <= i < n ==> !IsTerm(s[i])) && (n < |s| ==> IsTerm(s[n]))
    ensures FirstTerm(s) == n
  {
  }

  lemma LinesCons(s: Bytes)
    ensures LinesOf(s) == if s == [] then [] else [FirstLine(s)] + LinesOf(AfterFirstLine(s))
  {
  }

  lemma FirstLineAppend(a: Bytes, b: Bytes)
    requires a != [] && b != [] && LineCut(a, b)
    ensures FirstLine(a + b) == FirstLine(a) && AfterFirstLine(a + b) == AfterFirstLine(a) + b
    ensures LineCut(AfterFirstLine(a), b)
  {
    var n := FirstTerm(a);
    assert n < |a|;
    FirstTermIs(a + b, n);
    var m := n + TermWidth(a, n);
    assert TermWidth(a + b, n) == TermWidth(a, n);
    assert (a + b)[..n] == a[..n] && (a + b)[n..m] == a[n..m] && (a + b)[m..] == a[m..] + b;
  }

  lemma {:induction false} LinesAppend(a: Bytes, b: Bytes)
    requires LineCut(a, b)
    ensures LinesOf(a + b) == LinesOf(a) + LinesOf(b)
    decreases |a|
  {
    hide *;
    LinesCons(a);
    if a == [] {
      assert a + b == b;
    } else if b == [] {
      assert a + b == a;
      LinesCons(b);
    } else {
      FirstLineAppend(a, b);
      LinesCons(a + b);
      LinesAppend(AfterFirstLine(a), b);
      assert [FirstLine(a)] + (LinesOf(AfterFirstLine(a)) + LinesOf(b)) == LinesOf(a) + LinesOf(b);
    }
  }

  lemma OneLine(t: Bytes)
    requires t != []
    ensures var l := FirstLine(t); var u := l.text + l.term;
            LinesOf(u) == [l] && LineCut(u, AfterFirstLine(t)) && t == u + AfterFirstLine(t)
  {
    SplitFirst(t);
    OneLineCut(t);
    var l := FirstLine(t);
    var u := l.text + l.term;
    LinesCons(u);
    LinesCons([]);
  }

  lemma OneLineCut(t: Bytes)
    requires t != []
    ensures var l := FirstLine(t); var u := l.text + l.term;
            u != [] && FirstLine(u) == l && AfterFirstLine(u) == [] && LineCut(u, AfterFirstLine(t))
  {
    var n := FirstTerm(t);
    var w := TermWidth(t, n);
    var u := t[..n] + t[n..n + w];
    assert u == t[..n + w];
    FirstTermIs(u, n);
    assert u[..n] == t[..n] && u[n..] == t[n..n + w];
    assert TermWidth(u, n) == w;
  }

  lemma LineCutPart(a: Bytes, b: Bytes, c: Bytes)
    requires b != []
    ensures LineCut(a, b + c) ==> LineCut(a, b)
    ensures LineCut(b, c) ==> LineCut(a + b, c)
  {
  }

  lemma CutAtStart(s: Bytes)
    ensures LineCut([], s) && LinesOf([]) == []
  {
  }

  lemma OneLineText(l: Line)
    ensures Unlines([l]) == l.text + l.term
  {
    var one: seq<Line> := [l];
    assert one[1..] == [] && l.text + l.term + [] == l.text + l.term;
  }

  lemma SliceStep(s: Bytes, from: nat, pos: nat, u: Bytes, rest: Bytes)
    requires from <= pos <= |s| && s[pos..] == u + rest
    ensures pos + |u| <= |s| && s[from..pos + |u|] == s[from..pos] + u && s[pos + |u|..] == rest
  {
    assert |s| - pos == |u| + |rest|;
    assert forall i :: 0 <= i < |u| ==> s[pos..][i] == u[i];
    assert forall i :: 0 <= i < |rest| ==> s[pos..][|u| + i] == rest[i];
  }

  /** The line at `pos` joins the lines already cut from `from`. */
  lemma LinesExtend(s: Bytes, from: nat, pos: nat)
    requires from <= pos < |s| && LineCut(s[from..pos], s[pos..])
    ensures var l, rest := FirstLine(s[pos..]), AfterFirstLine(s[pos..]);
            var end := pos + |l.text| + |l.term|;
            && pos < end <= |s|
            && s[pos..end] == l.text + l.term
            && s[from..end] == s[from..pos] + (l.text + l.term)
            && LinesOf(s[from..end]) == LinesOf(s[from..pos]) + [l]
            && s[end..] == rest
            && LineCut(s[from..end], s[end..])
  {
    hide *;
    var a, t := s[from..pos], s[pos..];
    var l, rest := FirstLine(t), AfterFirstLine(t);
    var u := l.text + l.term;
    OneLine(t);
    SliceStep(s, from, pos, u, rest);
    SliceStep(s, pos, pos, u, rest);
    LineCutPart(a, u, rest);
    LinesAppend(a, u);
    if u == [] { LinesCons(u); }
  }

  const DATA: Bytes := [100, 97, 116, 97, 58]  // "data:"

  predicate IsData(line: Bytes) {
    HasPrefix(line, DATA)
  }

  /** What a data: line carries: its text past the prefix, less one leading space. */
  function Payload(line: Bytes): Bytes
    requires IsData(line)
  {
    var p := line[|DATA|..];
    if p != [] && p[0] == SPACE then p[1..] else p
  }

  /** A line opening with a colon, or with an ASCII letter unless it is data. */
  predicate FieldLine(line: Bytes) {
    line != [] && (line[0] == COLON || (!IsData(line) && (97 <= line[0] <= 122 || 65 <= line[0] <= 90)))
  }
}
