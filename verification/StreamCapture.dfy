/**
 * What a stream's audit row is judged from: the head, the last whole event that is not a comment, and the event in
 * progress, each bounded. The caps are parameters; seamBytes is 3.
 */
module StreamCapture {
  import opened Text

  const SEAM := 3

  // ---- Blank lines, as this scan sees them ----

  /** The width of the blank line whose first LF is at `j`: LF LF or LF CR LF; 0 when there is none. */
  function BoundaryAt(b: Bytes, j: nat): nat
    requires j < |b|
  {
    if b[j] != LF then 0
    else if j + 1 < |b| && b[j + 1] == LF then 2
    else if j + 2 < |b| && b[j + 1] == CR && b[j + 2] == LF then 3
    else 0
  }

  /** Where the first event of `b` ends, its blank line included; 0 when it has no blank line. */
  function FirstEnd(b: Bytes): (e: nat)
    ensures e <= |b|
  {
    if b == [] then 0
    else if BoundaryAt(b, 0) > 0 then BoundaryAt(b, 0)
    else
      var e := FirstEnd(b[1..]);
      if e == 0 then 0 else 1 + e
  }

  /** An LF at `j` that a blank line follows: LF, or CR LF. */
  ghost predicate BlankLine(b: Bytes, j: nat) {
    j + 1 < |b| && b[j] == 10 && (b[j + 1] == 10 || (j + 2 < |b| && b[j + 1] == 13 && b[j + 2] == 10))
  }

  /** The first such LF at or after `from` is at `j`, and its blank line ends at `end`. */
  ghost predicate FirstBlankLine(b: Bytes, from: nat, j: nat, end: int) {
    && from <= j && BlankLine(b, j) && end == j + (if b[j + 1] == 10 then 2 else 3)
    && forall i: nat :: from <= i < j ==> !BlankLine(b, i)
  }

  /** The loop of boundaryEnd; -1 when there is none. */
  method BoundaryEnd(b: Bytes, from: nat) returns (end: int)
    requires from <= |b|
    ensures end == -1 || exists j: nat :: FirstBlankLine(b, from, j, end)
    ensures end == -1 <==> forall j: nat :: from <= j ==> !BlankLine(b, j)
    ensures var e := FirstEnd(b[from..]); end == if e == 0 then -1 else from + e
  {
    var j := from;
    while j < |b|
      invariant from <= j <= |b|
      invariant forall i: nat :: from <= i < j ==> !BlankLine(b, i)
      invariant FirstEnd(b[from..]) == if FirstEnd(b[j..]) == 0 then 0 else j - from + FirstEnd(b[j..])
    {
      assert b[j..][1..] == b[j + 1..];
      if b[j] == LF {
        if j + 1 < |b| && b[j + 1] == LF {
          assert FirstBlankLine(b, from, j, j + 2);
          return j + 2;
        }
        if j + 2 < |b| && b[j + 1] == CR && b[j + 2] == LF {
          assert FirstBlankLine(b, from, j, j + 3);
          return j + 3;
        }
      }
      j := j + 1;
    }
    end := -1;
  }

  // ---- The reference: the whole stream split into events ----

  datatype Found = Nothing | Kept(event: Bytes) | TooBig

  datatype Split = Split(found: Found, rest: Bytes)

  predicate IsBreak(b: byte) {
    b == LF || b == CR
  }

  /** A keep-alive: every line of the event starts with a colon. */
  predicate CommentOnly(ev: Bytes) {
    && ev != [] && ev[0] == COLON
    && forall i :: 0 < i < |ev| && IsBreak(ev[i - 1]) ==> ev[i] == COLON || IsBreak(ev[i])
  }

  function Judge(cap: nat, ev: Bytes, unknown: bool): Found {
    if unknown || |ev| > cap then TooBig else Kept(ev)
  }

  /** The last event of `b` that is not a comment, and what follows the last blank line; the first event may have lost its start. */
  function Events(cap: nat, b: Bytes, unknown: bool, found: Found): Split
    decreases |b|
  {
    var e := FirstEnd(b);
    if e == 0 then Split(found, b)
    else Events(cap, b[e..], false, if unknown || !CommentOnly(b[..e]) then Judge(cap, b[..e], unknown) else found)
  }

  function Tail(b: Bytes): Bytes {
    if |b| <= SEAM then b else b[|b| - SEAM..]
  }

  function Head(n: nat, s: Bytes): Bytes {
    if |s| <= n then s else s[..n]
  }

  datatype Caps = Caps(headBytes: nat, tailBytes: nat)

  datatype Capture = Capture(head: Bytes, found: Found, pending: Bytes, overflow: bool)

  /** What is kept of a stream, from its bytes alone. */
  function Summary(c: Caps, s: Bytes): Capture {
    var split := Events(c.tailBytes, s, false, Nothing);
    var big := |split.rest| > c.tailBytes;
    Capture(Head(c.headBytes, s), split.found, if big then Tail(split.rest) else split.rest, big)
  }

  /** What one write makes of what was kept. */
  function Next(c: Caps, k: Capture, p: Bytes): Capture {
    var head := if |k.head| < c.headBytes then k.head + Head(c.headBytes - |k.head|, p) else k.head;
    var t := k.pending + p;
    if FirstEnd(t) == 0 then
      var big := k.overflow || |t| > c.tailBytes;
      Capture(head, k.found, if big then Tail(t) else t, big)
    else
      var split := Events(c.tailBytes, t, k.overflow, k.found);
      Capture(head, split.found, split.rest, false)
  }

  // ---- Where the writes are cut does not matter ----

  /** What an event makes of the answer found so far, its start known. */
  function Judged(cap: nat, ev: Bytes, found: Found): Found {
    if CommentOnly(ev) then found else Judge(cap, ev, false)
  }

  /** No complete keep-alive two bytes or more over the cap follows an answer that is not already too big. */
  ghost predicate CutProof(cap: nat, b: Bytes, found: Found)
    decreases |b|
  {
    var e := FirstEnd(b);
    e > 0 ==>
      (CommentOnly(b[..e]) && e >= cap + 2 ==> found == TooBig) && CutProof(cap, b[e..], Judged(cap, b[..e], found))
  }

  lemma {:induction false} FirstEndPrefix(a: Bytes, b: Bytes)
    requires FirstEnd(a) > 0
    ensures FirstEnd(a + b) == FirstEnd(a)
  {
    assert (a + b)[1..] == a[1..] + b;
    if BoundaryAt(a, 0) == 0 { FirstEndPrefix(a[1..], b); }
  }

  lemma {:induction false} EventsAppend(cap: nat, a: Bytes, b: Bytes, unknown: bool, found: Found)
    ensures var split := Events(cap, a, unknown, found);
            Events(cap, a + b, unknown, found) ==
              Events(cap, split.rest + b, unknown && FirstEnd(a) == 0, split.found)
    ensures FirstEnd(Events(cap, a, unknown, found).rest) == 0
    decreases |a|
  {
    hide FirstEnd, CommentOnly;
    var e := FirstEnd(a);
    if e > 0 {
      FirstEndPrefix(a, b);
      assert (a + b)[..e] == a[..e] && (a + b)[e..] == a[e..] + b;
      EventsAppend(cap, a[e..], b, false, if unknown || !CommentOnly(a[..e]) then Judge(cap, a[..e], unknown) else found);
    }
  }

  lemma {:induction false} CutProofRest(cap: nat, a: Bytes, b: Bytes, found: Found)
    requires CutProof(cap, a + b, found)
    ensures var split := Events(cap, a, false, found); CutProof(cap, split.rest + b, split.found)
    decreases |a|
  {
    hide FirstEnd, CommentOnly;
    var e := FirstEnd(a);
    if e > 0 {
      FirstEndPrefix(a, b);
      assert (a + b)[..e] == a[..e] && (a + b)[e..] == a[e..] + b;
      CutProofRest(cap, a[e..], b, Judged(cap, a[..e], found));
    }
  }

  /** A blank line that ends in `b` starts at most three bytes back: the seam sees it where the whole does. */
  lemma {:induction false} SeamIsEnough(r: Bytes, b: Bytes)
    requires FirstEnd(r) == 0
    ensures var e := FirstEnd(r + b);
            && (e > 0 ==> e > |r|)
            && FirstEnd(Tail(r) + b) == if e == 0 then 0 else e - (|r| - |Tail(r)|)
  {
    if |r| > SEAM {
      assert (r + b)[1..] == r[1..] + b && Tail(r) == Tail(r[1..]);
      assert BoundaryAt(r + b, 0) == BoundaryAt(r, 0);
      SeamIsEnough(r[1..], b);
    } else if r != [] {
      assert (r + b)[1..] == r[1..] + b;
      assert Tail(r[1..]) == r[1..];
      SeamIsEnough(r[1..], b);
      assert BoundaryAt(r, 0) == 0;
    } else {
      assert r + b == b;
    }
  }

  lemma {:induction false} RestIsShort(cap: nat, b: Bytes, unknown: bool, found: Found)
    ensures var rest := Events(cap, b, unknown, found).rest; |rest| <= |b| - FirstEnd(b) && (FirstEnd(b) == 0 ==> rest == b)
    decreases |b|
  {
    hide FirstEnd, CommentOnly;
    var e := FirstEnd(b);
    if e > 0 {
      RestIsShort(cap, b[e..], false, if unknown || !CommentOnly(b[..e]) then Judge(cap, b[..e], unknown) else found);
    }
  }

  lemma TailTwice(a: Bytes, b: Bytes)
    ensures Tail(Tail(a) + b) == Tail(a + b)
  {
  }

  /** An oversized event in progress is judged the same from its last three bytes. */
  lemma DroppedStart(cap: nat, r: Bytes, p: Bytes, found: Found)
    requires FirstEnd(r) == 0 && |r| > cap && FirstEnd(r + p) > 0 && CutProof(cap, r + p, found)
    ensures FirstEnd(Tail(r) + p) > 0
    ensures Events(cap, Tail(r) + p, true, found) == Events(cap, r + p, false, found)
  {
    hide CommentOnly;
    SeamIsEnough(r, p);
    hide FirstEnd;
    var e, cut := FirstEnd(r + p), |r| - |Tail(r)|;
    assert (Tail(r) + p)[e - cut..] == (r + p)[e..];
  }

  /** One write: what is kept of the stream so far becomes what is kept of the longer one. */
  lemma NextIsSummary(c: Caps, s: Bytes, p: Bytes)
    requires |p| <= c.tailBytes && CutProof(c.tailBytes, s + p, Nothing)
    ensures Next(c, Summary(c, s), p) == Summary(c, s + p)
  {
    var cap := c.tailBytes;
    var split := Events(cap, s, false, Nothing);
    var r := split.rest;
    EventsAppend(cap, s, p, false, Nothing);
    CutProofRest(cap, s, p, Nothing);
    SeamIsEnough(r, p);
    HeadGrows(c.headBytes, s, p);
    RestIsShort(cap, r + p, false, split.found);
    TailTwice(r, p);
    hide FirstEnd, CommentOnly, CutProof, Events, Tail, Head, Judge;
    if |r| > cap && FirstEnd(r + p) > 0 {
      DroppedStart(cap, r, p, split.found);
    }
    TailTwice([], r + p);
    EventsNone(cap, r + p, split.found);
  }

  lemma EventsNone(cap: nat, b: Bytes, found: Found)
    ensures FirstEnd(b) == 0 ==> Events(cap, b, false, found) == Split(found, b)
  {
    hide FirstEnd;
  }

  lemma HeadGrows(n: nat, s: Bytes, p: Bytes)
    ensures var head := Head(n, s);
            Head(n, s + p) == if |head| < n then head + Head(n - |head|, p) else head
  {
  }

  function Writes(c: Caps, k: Capture, chunks: seq<Bytes>): Capture
    decreases |chunks|
  {
    if chunks == [] then k else Writes(c, Next(c, k, chunks[0]), chunks[1..])
  }

  /**
   * Chunking invariance: for every stream whose keep-alives are within the condition, cut anyhow into writes of at most
   * the cap, what is kept is a function of the bytes alone: the last whole event that is not a comment, or the word that
   * it was too big, and the event in progress.
   */
  lemma {:induction false} CaptureIgnoresCuts(c: Caps, s: Bytes, chunks: seq<Bytes>)
    requires forall p :: p in chunks ==> |p| <= c.tailBytes
    requires CutProof(c.tailBytes, s + Concat(chunks), Nothing)
    ensures Writes(c, Summary(c, s), chunks) == Summary(c, s + Concat(chunks))
    decreases |chunks|
  {
    hide Next, Summary, CutProof;
    if chunks == [] {
      assert s + Concat(chunks) == s;
    } else {
      var p, rest := chunks[0], chunks[1..];
      assert p in chunks && forall q :: q in rest ==> q in chunks;
      assert s + Concat(chunks) == s + p + Concat(rest);
      CutProofPrefix(c.tailBytes, s + p, Concat(rest), Nothing);
      NextIsSummary(c, s, p);
      CaptureIgnoresCuts(c, s + p, rest);
    }
  }

  lemma {:induction false} CutProofPrefix(cap: nat, a: Bytes, b: Bytes, found: Found)
    requires CutProof(cap, a + b, found)
    ensures CutProof(cap, a, found)
    decreases |a|
  {
    hide FirstEnd, CommentOnly;
    var e := FirstEnd(a);
    if e > 0 {
      FirstEndPrefix(a, b);
      assert (a + b)[..e] == a[..e] && (a + b)[e..] == a[e..] + b;
      CutProofPrefix(cap, a[e..], b, Judged(cap, a[..e], found));
    }
  }

  /** Any cut of any prefix of `s` into writes of at most the cap leaves what the prefix as a whole would. */
  ghost predicate CutsNeverMatter(c: Caps, s: Bytes) {
    forall chunks: seq<Bytes> :: (forall p :: p in chunks ==> |p| <= c.tailBytes) && Concat(chunks) <= s ==>
      Writes(c, Summary(c, []), chunks) == Summary(c, Concat(chunks))
  }

  /**
   * The exact condition: the cuts never matter if and only if no complete keep-alive of two bytes or more over the cap
   * follows an answer that is not already too big.
   */
  lemma CutsNeverMatterExactly(c: Caps, s: Bytes)
    requires c.tailBytes > 0
    ensures CutsNeverMatter(c, s) <==> CutProof(c.tailBytes, s, Nothing)
  {
    hide CutProof, Writes, Summary;
    if CutProof(c.tailBytes, s, Nothing) {
      forall chunks: seq<Bytes> | (forall p :: p in chunks ==> |p| <= c.tailBytes) && Concat(chunks) <= s
        ensures Writes(c, Summary(c, []), chunks) == Summary(c, Concat(chunks))
      {
        var q := Concat(chunks);
        assert s == q + s[|q|..] && [] + q == q;
        CutProofPrefix(c.tailBytes, q, s[|q|..], Nothing);
        CaptureIgnoresCuts(c, [], chunks);
      }
    } else {
      var a, ev := FirstMisjudged(c.tailBytes, s, Nothing);
      var chunks := Bytewise(a + ev);
      BytewiseConcat(a + ev);
      MisjudgedByteByByte(c, a, ev);
      assert Writes(c, Summary(c, []), chunks) != Summary(c, Concat(chunks));
    }
  }

  /** A keep-alive whose size decides against it: two bytes or more over the cap, on top of another answer. */
  ghost predicate Misjudged(cap: nat, a: Bytes, ev: Bytes, found: Found) {
    var split := Events(cap, a, false, found);
    && CutProof(cap, a, found) && split.rest == [] && split.found != TooBig
    && CommentOnly(ev) && FirstEnd(ev) == |ev| >= cap + 2
  }

  lemma {:induction false} FirstMisjudged(cap: nat, s: Bytes, found: Found) returns (a: Bytes, ev: Bytes)
    requires !CutProof(cap, s, found)
    ensures a + ev <= s && Misjudged(cap, a, ev, found)
    decreases |s|
  {
    var e := FirstEnd(s);
    EndOfItself(s);
    if CommentOnly(s[..e]) && e >= cap + 2 && found != TooBig {
      a, ev := [], s[..e];
      EventsNone(cap, [], found);
      NoEnd();
      assert [] + ev == ev;
      hide FirstEnd, CommentOnly, Events;
    } else {
      hide FirstEnd, CommentOnly, Misjudged;
      var b, f := FirstMisjudged(cap, s[e..], Judged(cap, s[..e], found));
      a, ev := s[..e] + b, f;
      assert s == s[..e] + s[e..] && a + ev == s[..e] + (b + ev);
      MisjudgedLater(cap, s[..e], b, ev, found);
    }
  }

  lemma MisjudgedLater(cap: nat, first: Bytes, b: Bytes, ev: Bytes, found: Found)
    requires FirstEnd(first) == |first| > 0 && !(CommentOnly(first) && |first| >= cap + 2 && found != TooBig)
    requires Misjudged(cap, b, ev, Judged(cap, first, found))
    ensures Misjudged(cap, first + b, ev, found)
  {
    FirstEndPrefix(first, b);
    hide FirstEnd, CommentOnly;
    var a := first + b;
    assert a[..|first|] == first && a[|first|..] == b;
  }

  lemma NoEnd()
    ensures FirstEnd([]) == 0
  {
  }

  /** An event cut off at its blank line ends there. */
  lemma {:induction false} EndOfItself(s: Bytes)
    ensures FirstEnd(s[..FirstEnd(s)]) == FirstEnd(s)
    decreases |s|
  {
    if s != [] && BoundaryAt(s, 0) == 0 && FirstEnd(s) > 0 {
      EndOfItself(s[1..]);
      var e := FirstEnd(s);
      assert s[..e][1..] == s[1..][..e - 1];
      NoEarlierEnd(s, e);
    }
  }

  lemma NoEarlierEnd(s: Bytes, e: nat)
    requires 0 < e <= |s| && BoundaryAt(s, 0) == 0
    ensures BoundaryAt(s[..e], 0) == 0
  {
  }

  function Bytewise(s: Bytes): seq<Bytes> {
    if s == [] then [] else Bytewise(s[..|s| - 1]) + [[s[|s| - 1]]]
  }

  lemma {:induction false} BytewiseConcat(s: Bytes)
    ensures Concat(Bytewise(s)) == s && forall p :: p in Bytewise(s) ==> |p| == 1
  {
    if s != [] {
      BytewiseConcat(s[..|s| - 1]);
      ConcatOne(Bytewise(s[..|s| - 1]), [s[|s| - 1]]);
    }
  }

  lemma {:induction false} ConcatOne(chunks: seq<Bytes>, p: Bytes)
    ensures Concat(chunks + [p]) == Concat(chunks) + p
    decreases |chunks|
  {
    if chunks == [] {
      var one := [p];
      assert chunks + [p] == one && one[1..] == [];
      assert p + [] == p && [] + p == p;
    } else {
      assert (chunks + [p])[1..] == chunks[1..] + [p];
      ConcatOne(chunks[1..], p);
      assert chunks[0] + (Concat(chunks[1..]) + p) == chunks[0] + Concat(chunks[1..]) + p;
    }
  }

  lemma {:induction false} WritesOne(c: Caps, k: Capture, chunks: seq<Bytes>, p: Bytes)
    ensures Writes(c, k, chunks + [p]) == Next(c, Writes(c, k, chunks), p)
    decreases |chunks|
  {
    hide Next;
    if chunks == [] {
      var one := [p];
      assert chunks + [p] == one && one[1..] == [];
    } else {
      assert (chunks + [p])[1..] == chunks[1..] + [p];
      WritesOne(c, Next(c, k, chunks[0]), chunks[1..], p);
    }
  }

  /** Before its last byte such a keep-alive is an oversized event in progress, and nothing has been misjudged yet. */
  lemma OpenKeepAlive(c: Caps, a: Bytes, begun: Bytes, last: byte)
    requires Misjudged(c.tailBytes, a, begun + [last], Nothing)
    ensures var k := Summary(c, a + begun);
            && CutProof(c.tailBytes, a + begun, Nothing) && FirstEnd(begun) == 0
            && k.overflow && k.pending == Tail(begun)
  {
    OpenBefore(begun, [last]);
    EventsAppend(c.tailBytes, a, begun, false, Nothing);
    assert [] + begun == begun;
    EventsNone(c.tailBytes, begun, Events(c.tailBytes, a, false, Nothing).found);
    CutProofOpen(c.tailBytes, a, begun, Nothing);
    hide FirstEnd, CommentOnly, Events, CutProof, Tail;
  }

  lemma WholeKeepAlive(c: Caps, a: Bytes, ev: Bytes)
    requires Misjudged(c.tailBytes, a, ev, Nothing)
    ensures Summary(c, a + ev).found != TooBig
  {
    EventsAppend(c.tailBytes, a, ev, false, Nothing);
    assert [] + ev == ev;
    EventsOne(c.tailBytes, ev, false, Events(c.tailBytes, a, false, Nothing).found);
    hide FirstEnd, CommentOnly, Events, CutProof, Tail, Head;
  }

  lemma {:induction false} CutProofOpen(cap: nat, a: Bytes, b: Bytes, found: Found)
    requires CutProof(cap, a, found) && Events(cap, a, false, found).rest == [] && FirstEnd(b) == 0
    ensures CutProof(cap, a + b, found)
    decreases |a|
  {
    hide FirstEnd, CommentOnly;
    var e := FirstEnd(a);
    if e > 0 {
      FirstEndPrefix(a, b);
      assert (a + b)[..e] == a[..e] && (a + b)[e..] == a[e..] + b;
      CutProofOpen(cap, a[e..], b, Judged(cap, a[..e], found));
    } else {
      assert a + b == b;
    }
  }

  /** Written byte by byte it becomes an answer too big to keep, where the reference keeps the answer before it. */
  lemma MisjudgedByteByByte(c: Caps, a: Bytes, ev: Bytes)
    requires c.tailBytes > 0 && Misjudged(c.tailBytes, a, ev, Nothing)
    ensures Writes(c, Summary(c, []), Bytewise(a + ev)).found == TooBig != Summary(c, a + ev).found
  {
    var begun, last := ev[..|ev| - 1], ev[|ev| - 1];
    assert ev == begun + [last];
    LastByte(c, a, begun, last);
    WholeKeepAlive(c, a, ev);
    hide *;
  }

  lemma LastByte(c: Caps, a: Bytes, begun: Bytes, last: byte)
    requires c.tailBytes > 0 && Misjudged(c.tailBytes, a, begun + [last], Nothing)
    ensures Writes(c, Summary(c, []), Bytewise(a + (begun + [last]))).found == TooBig
  {
    var s := a + begun;
    assert a + (begun + [last]) == s + [last];
    OpenKeepAlive(c, a, begun, last);
    assert FirstEnd(begun + [last]) == |begun + [last]| > 0;
    hide FirstEnd, CutProof, Tail, Next, Writes, Misjudged, Bytewise, Summary;
    ByteAfterBytes(c, s, last);
    ClosesTooBig(c, Summary(c, s), begun, [last]);
  }

  lemma ByteAfterBytes(c: Caps, s: Bytes, last: byte)
    requires c.tailBytes > 0 && CutProof(c.tailBytes, s, Nothing)
    ensures Writes(c, Summary(c, []), Bytewise(s + [last])) == Next(c, Summary(c, s), [last])
  {
    BytewiseConcat(s);
    BytewiseOne(s, last);
    assert [] + s == s;
    hide CutProof, Next, Writes, Bytewise, Summary;
    CaptureIgnoresCuts(c, [], Bytewise(s));
    WritesOne(c, Summary(c, []), Bytewise(s), [last]);
  }

  lemma BytewiseOne(s: Bytes, b: byte)
    ensures Bytewise(s + [b]) == Bytewise(s) + [[b]]
  {
    assert (s + [b])[..|s|] == s;
  }

  /** Every buffer stays within its cap, whatever the writes. */
  ghost predicate Bounded(c: Caps, k: Capture) {
    && |k.head| <= c.headBytes
    && (k.found.Kept? ==> |k.found.event| <= c.tailBytes)
    && |k.pending| <= (if k.overflow then SEAM else c.tailBytes)
  }

  lemma {:induction false} EventsBounded(cap: nat, b: Bytes, unknown: bool, found: Found)
    requires found.Kept? ==> |found.event| <= cap
    ensures var f := Events(cap, b, unknown, found).found; f.Kept? ==> |f.event| <= cap
    decreases |b|
  {
    hide FirstEnd, CommentOnly;
    var e := FirstEnd(b);
    if e > 0 {
      EventsBounded(cap, b[e..], false, if unknown || !CommentOnly(b[..e]) then Judge(cap, b[..e], unknown) else found);
    }
  }

  lemma NextBounded(c: Caps, k: Capture, p: Bytes)
    requires Bounded(c, k) && FirstEnd(k.pending) == 0 && |p| <= c.tailBytes
    ensures Bounded(c, Next(c, k, p)) && FirstEnd(Next(c, k, p).pending) == 0
  {
    var t := k.pending + p;
    SeamIsEnough(k.pending, p);
    EventsBounded(c.tailBytes, t, k.overflow, k.found);
    RestIsShort(c.tailBytes, t, k.overflow, k.found);
    EventsAppend(c.tailBytes, t, [], k.overflow, k.found);
    if FirstEnd(t) == 0 {
      assert t + [] == t && Tail(t) + [] == Tail(t);
      SeamIsEnough(t, []);
    }
  }

  // ---- streamCapture ----

  /** The event from `from` to `to` in the write's coordinates: negative offsets lie in `pending`. */
  function Between(pending: Bytes, p: Bytes, from: int, to: int): Bytes
    requires -|pending| <= from <= to <= |p|
  {
    (pending + p)[|pending| + from..|pending| + to]
  }

  method IsComment(pending: Bytes, p: Bytes, from: int, to: int) returns (comment: bool)
    requires -|pending| <= from < to <= |p|
    ensures comment == CommentOnly(Between(pending, p, from, to))
  {
    ghost var ev := Between(pending, p, from, to);
    var first := if from < 0 then pending[|pending| + from] else p[from];
    assert ev[0] == first;
    if first != COLON { return false; }
    var lineStart := false;
    var i := from;
    while i < to
      invariant from <= i <= to
      invariant lineStart <==> i > from && IsBreak(ev[i - from - 1])
      invariant forall k :: 0 < k < i - from && IsBreak(ev[k - 1]) ==> ev[k] == COLON || IsBreak(ev[k])
    {
      var b := if i < 0 then pending[|pending| + i] else p[i];
      assert ev[i - from] == b;
      if lineStart && b != COLON && !IsBreak(b) { return false; }
      lineStart := IsBreak(b);
      i := i + 1;
    }
    comment := true;
  }

  /** tailOf: the last three bytes of `a` followed by `b`. */
  method TailOf(a: Bytes, b: Bytes) returns (t: Bytes)
    ensures t == Tail(a + b)
  {
    if |b| >= SEAM {
      assert (a + b)[|a + b| - SEAM..] == b[|b| - SEAM..];
      return b[|b| - SEAM..];
    }
    var fromA := SEAM - |b|;
    if fromA > |a| { fromA := |a|; }
    assert |a + b| > SEAM ==> (a + b)[|a + b| - SEAM..] == a[|a| - fromA..] + b;
    t := a[|a| - fromA..] + b;
  }

  /** The last event a write completed: where it starts (or that its start was dropped) and ends. */
  datatype Mark = NoMark | Mark(unknown: bool, start: int, end: int)

  predicate MarkFits(pending: Bytes, p: Bytes, m: Mark) {
    m.Mark? ==> -|pending| <= m.start < m.end && 0 <= m.end <= |p| && (m.unknown ==> m.start == -|pending|)
  }

  function MarkFound(cap: nat, pending: Bytes, p: Bytes, m: Mark, before: Found): Found
    requires MarkFits(pending, p, m)
  {
    if m == NoMark then before else Judge(cap, Between(pending, p, m.start, m.end), m.unknown)
  }

  class Recorder {
    const caps: Caps
    var head: Bytes
    var last: Bytes
    var pending: Bytes
    var pendingOverflow: bool
    var lastOverflow: bool

    constructor (caps: Caps)
      ensures this.caps == caps && Valid() && Abs() == Summary(caps, [])
    {
      this.caps := caps;
      head, last, pending := [], [], [];
      pendingOverflow, lastOverflow := false, false;
    }

    ghost predicate Valid()
      reads this
    {
      FirstEnd(pending) == 0 && (lastOverflow ==> last == [])
    }

    ghost function Abs(): Capture
      reads this
    {
      Capture(head, if lastOverflow then TooBig else if last == [] then Nothing else Kept(last), pending, pendingOverflow)
    }

    /** One completed event of a write, [from, end) in its coordinates: a keep-alive leaves the mark where it was. */
    method Consume(p: Bytes, mark: Mark, unknown: bool, from: int, end: nat) returns (m: Mark)
      requires MarkFits(pending, p, mark) && -|pending| <= from < end <= |p| && (unknown ==> from == -|pending|)
      ensures MarkFits(pending, p, m)
      ensures m == if unknown || !CommentOnly(Between(pending, p, from, end)) then Mark(unknown, from, end) else mark
    {
      m := mark;
      if unknown { return Mark(unknown, from, end); }
      var comment := IsComment(pending, p, from, end);
      if !comment { m := Mark(unknown, from, end); }
    }

    /** The seam: where in `p` a blank line ends that begins in what is pending, 0 when none does. */
    method SeamEnd(p: Bytes) returns (scan: nat)
      requires Valid()
      ensures scan <= |p|
      ensures FirstEnd(pending + p) ==
              if scan > 0 then |pending| + scan else if FirstEnd(p) == 0 then 0 else |pending| + FirstEnd(p)
    {
      hide FirstEnd, Tail, BlankLine, FirstBlankLine;
      var ov := TailOf([], pending);
      assert [] + pending == pending;
      var seam := ov + (if |p| > SEAM then p[..SEAM] else p);
      var e := BoundaryEnd(seam, 0);
      assert seam[0..] == seam;
      SeamScan(pending, p, seam);
      scan := if e > |ov| then e - |ov| else 0;
    }

    /** The scan of Write: the seam first, then forward through `p`; `start` is where the event in progress begins. */
    method FindEvents(p: Bytes) returns (consumed: bool, mark: Mark, start: nat)
      requires Valid()
      ensures MarkFits(pending, p, mark) && start <= |p|
      ensures consumed <==> FirstEnd(pending + p) > 0
      ensures consumed ==>
                Split(MarkFound(caps.tailBytes, pending, p, mark, Abs().found), p[start..]) ==
                Events(caps.tailBytes, pending + p, pendingOverflow, Abs().found)
    {
      hide FirstEnd, Events, Tail, CommentOnly, Judge, Between, BlankLine, FirstBlankLine;
      var scan := SeamEnd(p);
      ghost var t, n, before := pending + p, |pending|, Abs().found;
      ghost var all := Events(caps.tailBytes, t, pendingOverflow, before);
      mark, consumed := NoMark, false;
      var unknown, from := pendingOverflow, -|pending|;
      assert t[0..] == t && p[0..] == p;
      if scan > 0 {
        EventsTurn(caps.tailBytes, pending, p, unknown, from, scan, mark, before);
        mark := Consume(p, mark, unknown, from, scan);
        unknown, from, consumed := false, scan, true;
        assert t[n + from..] == p[scan..];
      }
      while true
        invariant scan <= |p| && MarkFits(pending, p, mark) && -n <= from <= scan
        invariant consumed ==> from == scan && !unknown && FirstEnd(t) > 0
        invariant !consumed ==> from == -n && unknown == pendingOverflow && mark == NoMark && scan == 0
        invariant all == Events(caps.tailBytes, t[n + from..], unknown, MarkFound(caps.tailBytes, pending, p, mark, before))
        invariant FirstEnd(t[n + from..]) == if FirstEnd(p[scan..]) == 0 then 0 else FirstEnd(p[scan..]) + (scan - from)
        decreases |p| - scan
      {
        var end := BoundaryEnd(p, scan);
        if end < 0 { break; }
        EventsTurn(caps.tailBytes, pending, p, unknown, from, end, mark, before);
        mark := Consume(p, mark, unknown, from, end);
        unknown, from, consumed, scan := false, end, true, end;
        assert t[n + from..] == p[scan..];
      }
      start := scan;
      if consumed {
        assert t[n + from..] == p[scan..];
        EventsNone(caps.tailBytes, p[scan..], MarkFound(caps.tailBytes, pending, p, mark, before));
      }
    }

    /** Write: what is kept after it is what the reference keeps. */
    method Write(p: Bytes)
      requires Valid()
      modifies this
      ensures Valid() && Abs() == Next(caps, old(Abs()), p)
    {
      hide FirstEnd, Events, Tail, CommentOnly;
      ghost var k := Abs();
      var was := pending;
      var consumed, mark, start := FindEvents(p);
      if |head| < caps.headBytes { head := head + Head(caps.headBytes - |head|, p); }
      if !consumed {
        NotYet(pending, p);
        if pendingOverflow {
          pending := TailOf(pending, p);
        } else if |pending| + |p| > caps.tailBytes {
          pendingOverflow := true;
          pending := TailOf(pending, p);
        } else {
          pending := pending + p;
        }
        return;
      }
      EventsAppend(caps.tailBytes, pending + p, [], pendingOverflow, k.found);
      if mark.Mark? {
        if mark.unknown || mark.end - mark.start > caps.tailBytes {
          lastOverflow, last := true, [];
        } else {
          lastOverflow := false;
          assert Between(was, p, mark.start, mark.end) ==
                 if mark.start < 0 then was[|was| + mark.start..] + p[..mark.end] else p[mark.start..mark.end];
          if mark.start < 0 {
            last := pending[|pending| + mark.start..] + p[..mark.end];
          } else {
            last := p[mark.start..mark.end];
          }
        }
      }
      pendingOverflow := false;
      pending := p[start..];
    }
  }

  /** With no blank line yet, neither what is held nor its tail has one. */
  lemma NotYet(pending: Bytes, p: Bytes)
    requires FirstEnd(pending + p) == 0
    ensures FirstEnd(Tail(pending + p)) == 0
  {
    var t := pending + p;
    SeamIsEnough(t, []);
    assert t + [] == t && Tail(t) + [] == Tail(t);
  }

  /** What the seam shows: the first blank line when it begins in what is pending, and otherwise that none does. */
  lemma SeamScan(pending: Bytes, p: Bytes, seam: Bytes)
    requires FirstEnd(pending) == 0 && seam == Tail(pending) + (if |p| > SEAM then p[..SEAM] else p)
    ensures var e, end := FirstEnd(seam), FirstEnd(pending + p);
            if e > 0 then e > |Tail(pending)| && end == |pending| + (e - |Tail(pending)|) && e - |Tail(pending)| <= |p|
            else end == if FirstEnd(p) == 0 then 0 else |pending| + FirstEnd(p)
  {
    SeamIsEnough(pending, p);
    var ov := Tail(pending);
    if FirstEnd(seam) > 0 {
      var more := if |p| > SEAM then p[SEAM..] else [];
      FirstEndPrefix(seam, more);
      assert seam + more == ov + p;
    } else {
      SeamMiss(ov, p);
    }
  }

  lemma {:induction false} SeamMiss(ov: Bytes, p: Bytes)
    requires FirstEnd(ov + (if |p| > SEAM then p[..SEAM] else p)) == 0
    ensures FirstEnd(ov + p) == if FirstEnd(p) == 0 then 0 else |ov| + FirstEnd(p)
    decreases |ov|
  {
    var h := if |p| > SEAM then p[..SEAM] else p;
    if ov == [] {
      assert ov + p == p;
    } else {
      assert (ov + p)[1..] == ov[1..] + p && (ov + h)[1..] == ov[1..] + h;
      assert BoundaryAt(ov + p, 0) == BoundaryAt(ov + h, 0);
      SeamMiss(ov[1..], p);
    }
  }

  /** The event that ends at `end` comes off the front of what is left to split. */
  lemma EventsTurn(cap: nat, pending: Bytes, p: Bytes, unknown: bool, from: int, end: nat, mark: Mark, before: Found)
    requires MarkFits(pending, p, mark) && -|pending| <= from < end <= |p| && (unknown ==> from == -|pending|)
    requires var t := pending + p; FirstEnd(t[|pending| + from..]) == end - from
    ensures var t, n := pending + p, |pending|;
            var m := if unknown || !CommentOnly(Between(pending, p, from, end)) then Mark(unknown, from, end) else mark;
            && t[n + from..][..end - from] == Between(pending, p, from, end)
            && Events(cap, t[n + from..], unknown, MarkFound(cap, pending, p, mark, before)) ==
               Events(cap, t[n + end..], false, MarkFound(cap, pending, p, m, before))
  {
    hide FirstEnd, CommentOnly, Judge;
    var t, n := pending + p, |pending|;
    assert t[n + from..][..end - from] == Between(pending, p, from, end);
    assert t[n + from..][end - from..] == t[n + end..];
  }

  lemma ClosesTooBig(c: Caps, k: Capture, a: Bytes, d: Bytes)
    requires FirstEnd(a) == 0 && FirstEnd(a + d) == |a + d| > 0 && k.overflow && k.pending == Tail(a)
    ensures Next(c, k, d).found == TooBig
  {
    SeamIsEnough(a, d);
    TailLen(a);
    hide Tail, FirstEnd, Next;
    NextWhole(c, k, d);
  }

  lemma NextWhole(c: Caps, k: Capture, p: Bytes)
    requires FirstEnd(k.pending + p) == |k.pending + p| > 0
    ensures var t := k.pending + p;
            Next(c, k, p).found == if k.overflow || !CommentOnly(t) then Judge(c.tailBytes, t, k.overflow) else k.found
  {
    EventsOne(c.tailBytes, k.pending + p, k.overflow, k.found);
    hide FirstEnd, Tail, Events, CommentOnly, Judge;
  }

  lemma TailLen(b: Bytes)
    ensures |Tail(b)| <= |b|
  {
  }

  lemma EventsOne(cap: nat, ev: Bytes, unknown: bool, found: Found)
    requires FirstEnd(ev) == |ev| > 0
    ensures Events(cap, ev, unknown, found) ==
            Split(if unknown || !CommentOnly(ev) then Judge(cap, ev, unknown) else found, [])
  {
    assert ev[..|ev|] == ev && ev[|ev|..] == [];
    assert FirstEnd([]) == 0;
    hide FirstEnd, CommentOnly;
  }

  /** A blank line that ends with the text is not there before its last byte. */
  lemma OpenBefore(a: Bytes, b: Bytes)
    requires FirstEnd(a + b) == |a + b| && b != []
    ensures FirstEnd(a) == 0
  {
    if FirstEnd(a) > 0 { FirstEndPrefix(a, b); }
  }
}
