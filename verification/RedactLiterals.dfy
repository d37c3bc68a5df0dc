/**
 * Exact redaction: the spans of every literal are collected, sorted by start, merged and cut out. The reference marks
 * the bytes some occurrence covers and replaces each maximal run of them by one marker.
 */
module RedactLiterals {
  import opened Text

  const MIN_LITERAL_BYTES := 8
  /** "[redacted]" */
  const MARKER: Bytes := [0x5B, 0x72, 0x65, 0x64, 0x61, 0x63, 0x74, 0x65, 0x64, 0x5D]

  datatype Span = Span(start: nat, end: nat)

  // ---- The reference ----

  predicate OccursAt(s: Bytes, lit: Bytes, i: nat) {
    i + |lit| <= |s| && s[i..i + |lit|] == lit
  }

  /** Byte `p` of `s` lies in an occurrence of `lit`, overlapping occurrences included. */
  ghost predicate CoveredBy(s: Bytes, lit: Bytes, p: nat) {
    exists i: nat :: OccursAt(s, lit, i) && i <= p < i + |lit|
  }

  ghost predicate Covered(s: Bytes, literals: seq<Bytes>, p: nat) {
    exists lit :: lit in literals && |lit| >= MIN_LITERAL_BYTES && CoveredBy(s, lit, p)
  }

  ghost function Coverage(s: Bytes, literals: seq<Bytes>): set<nat> {
    set p: nat | p < |s| && Covered(s, literals, p)
  }

  /** `s[..p]` with each maximal run of positions in `cov` replaced by one marker. */
  ghost function Marked(s: Bytes, cov: set<nat>, p: nat): Bytes
    requires p <= |s|
  {
    if p == 0 then []
    else Marked(s, cov, p - 1) + if p - 1 !in cov then [s[p - 1]] else if p == 1 || p - 2 !in cov then MARKER else []
  }

  ghost function Redacted(s: Bytes, literals: seq<Bytes>): Bytes {
    Marked(s, Coverage(s, literals), |s|)
  }

  /** Bytes outside every occurrence all stay. */
  lemma {:induction false} UncoveredStays(s: Bytes, cov: set<nat>, a: nat, b: nat)
    requires a <= b <= |s| && forall p :: a <= p < b ==> p !in cov
    ensures Marked(s, cov, b) == Marked(s, cov, a) + s[a..b]
    decreases b
  {
    if a < b {
      UncoveredStays(s, cov, a, b - 1);
      assert s[a..b] == s[a..b - 1] + [s[b - 1]];
    }
  }

  /** A run of covered bytes, from its first byte on, is one marker. */
  lemma {:induction false} RunIsOneMarker(s: Bytes, cov: set<nat>, a: nat, b: nat)
    requires a < b <= |s| && (a == 0 || a - 1 !in cov) && forall p :: a <= p < b ==> p in cov
    ensures Marked(s, cov, b) == Marked(s, cov, a) + MARKER
    decreases b
  {
    if a + 1 < b { RunIsOneMarker(s, cov, a, b - 1); }
  }

  lemma OccurrenceIsCovered(s: Bytes, literals: seq<Bytes>, lit: Bytes, i: nat)
    requires lit in literals && |lit| >= MIN_LITERAL_BYTES && OccursAt(s, lit, i)
    ensures forall p :: i <= p < i + |lit| ==> p in Coverage(s, literals)
  {
    forall p | i <= p < i + |lit| ensures p in Coverage(s, literals) {
      assert CoveredBy(s, lit, p);
    }
  }

  lemma OccursWithin(s: Bytes, a: nat, b: nat, lit: Bytes, i: nat)
    requires a <= b <= |s| && OccursAt(s[a..b], lit, i)
    ensures a + i + |lit| <= b && OccursAt(s, lit, a + i)
  {
    var t := s[a..b];
    forall q | 0 <= q < |lit| ensures s[a + i + q] == lit[q] {
      assert t[i + q] == t[i..i + |lit|][q];
    }
  }

  /** What stays between two markers holds no literal. */
  lemma NoLiteralStays(s: Bytes, literals: seq<Bytes>, a: nat, b: nat, lit: Bytes, i: nat)
    requires a <= b <= |s| && forall p :: a <= p < b ==> p !in Coverage(s, literals)
    requires lit in literals && |lit| >= MIN_LITERAL_BYTES
    ensures !OccursAt(s[a..b], lit, i)
  {
    hide Coverage, OccursAt;
    if OccursAt(s[a..b], lit, i) {
      OccursWithin(s, a, b, lit, i);
      assert a + i !in Coverage(s, literals);
      OccurrenceIsCovered(s, literals, lit, a + i);
      assert false;
    }
  }

  /** Without an occurrence the text is unchanged. */
  lemma NothingToRedact(s: Bytes, literals: seq<Bytes>)
    requires Coverage(s, literals) == {}
    ensures Redacted(s, literals) == s
  {
    UncoveredStays(s, {}, 0, |s|);
  }

  // ---- The spans ----

  /** The first occurrence at or after `from`, -1 when there is none. */
  method Index(s: Bytes, lit: Bytes, from: nat) returns (i: int)
    requires from <= |s|
    ensures i == -1 || (from <= i && OccursAt(s, lit, i))
    ensures forall j: nat :: from <= j && (i == -1 || j < i) ==> !OccursAt(s, lit, j)
  {
    i := from;
    while i + |lit| <= |s|
      invariant from <= i
      invariant forall j: nat :: from <= j < i ==> !OccursAt(s, lit, j)
    {
      if s[i..i + |lit|] == lit { return; }
      i := i + 1;
    }
    i := -1;
  }

  ghost predicate InSpans(spans: seq<Span>, p: nat) {
    exists k :: 0 <= k < |spans| && spans[k].start <= p < spans[k].end
  }

  ghost predicate Fit(spans: seq<Span>, n: nat) {
    forall k :: 0 <= k < |spans| ==> spans[k].start < spans[k].end <= n
  }

  /** Covered by an occurrence of `lit` that starts before `from`. */
  ghost predicate CoveredBefore(s: Bytes, lit: Bytes, from: nat, p: nat) {
    exists i: nat :: i < from && OccursAt(s, lit, i) && i <= p < i + |lit|
  }

  /** The spans of one literal so far; the last one ends with the latest hit. */
  ghost predicate SpansOf(spans: seq<Span>, s: Bytes, lit: Bytes, from: nat) {
    && Fit(spans, |s|)
    && (forall p: nat :: InSpans(spans, p) <==> CoveredBefore(s, lit, from, p))
    && (spans != [] ==>
          var last := spans[|spans| - 1]; last.start + |lit| <= last.end && last.end < from + |lit|)
  }

  function AddHit(spans: seq<Span>, start: nat, end: nat): seq<Span> {
    var n := |spans|;
    if n > 0 && start <= spans[n - 1].end then spans[n - 1 := Span(spans[n - 1].start, end)] else spans + [Span(start, end)]
  }

  lemma AddHitUnion(spans: seq<Span>, start: nat, end: nat, p: nat)
    requires start < end && (spans != [] ==> spans[|spans| - 1].start <= start && spans[|spans| - 1].end <= end)
    ensures InSpans(AddHit(spans, start, end), p) <==> InSpans(spans, p) || start <= p < end
  {
    var n, r := |spans|, AddHit(spans, start, end);
    if InSpans(r, p) {
      var k :| 0 <= k < |r| && r[k].start <= p < r[k].end;
      if k < n && r[k] == spans[k] { assert InSpans(spans, p); }
      else if p < start { assert spans[n - 1].start <= p < spans[n - 1].end; }
    }
    if InSpans(spans, p) {
      var k :| 0 <= k < n && spans[k].start <= p < spans[k].end;
      assert r[k].start <= p < r[k].end;
    }
    if start <= p < end {
      assert r[|r| - 1].start <= p < r[|r| - 1].end;
    }
  }

  lemma HitStep(spans: seq<Span>, s: Bytes, lit: Bytes, from: nat, i: nat)
    requires lit != [] && SpansOf(spans, s, lit, from) && from <= i && OccursAt(s, lit, i)
    requires forall j: nat :: from <= j < i ==> !OccursAt(s, lit, j)
    ensures SpansOf(AddHit(spans, i, i + |lit|), s, lit, i + 1)
  {
    var r := AddHit(spans, i, i + |lit|);
    forall p: nat
      ensures InSpans(r, p) <==> CoveredBefore(s, lit, i + 1, p)
    {
      AddHitUnion(spans, i, i + |lit|, p);
      if CoveredBefore(s, lit, from, p) {
        var j: nat :| j < from && OccursAt(s, lit, j) && j <= p < j + |lit|;
        assert CoveredBefore(s, lit, i + 1, p);
      }
      if i <= p < i + |lit| {
        assert CoveredBefore(s, lit, i + 1, p);
      }
      if CoveredBefore(s, lit, i + 1, p) {
        var j: nat :| j < i + 1 && OccursAt(s, lit, j) && j <= p < j + |lit|;
        assert j < from || j == i;
        if j < from { assert CoveredBefore(s, lit, from, p); }
      }
    }
  }

  /** The spans of one literal; they overlap and touch no further than the loop merges them. */
  method LiteralSpans(s: Bytes, lit: Bytes) returns (spans: seq<Span>)
    requires |lit| >= MIN_LITERAL_BYTES
    ensures Fit(spans, |s|) && forall p: nat :: InSpans(spans, p) <==> CoveredBy(s, lit, p)
  {
    spans := [];
    var from := 0;
    var more := true;
    while more && from < |s|
      invariant from <= |s| && SpansOf(spans, s, lit, from)
      invariant !more ==> forall j: nat :: from <= j ==> !OccursAt(s, lit, j)
      decreases more, |s| - from
    {
      var i := Index(s, lit, from);
      if i < 0 {
        more := false;
      } else {
        HitStep(spans, s, lit, from, i);
        spans := AddHit(spans, i, i + |lit|);
        from := i + 1;
      }
    }
    forall p: nat
      ensures CoveredBefore(s, lit, from, p) <==> CoveredBy(s, lit, p)
    {
      if CoveredBy(s, lit, p) {
        var i: nat :| OccursAt(s, lit, i) && i <= p < i + |lit|;
        assert i < from;
      }
    }
  }

  lemma InSpansConcat(a: seq<Span>, b: seq<Span>, p: nat)
    ensures InSpans(a + b, p) <==> InSpans(a, p) || InSpans(b, p)
  {
    if InSpans(a, p) {
      var k :| 0 <= k < |a| && a[k].start <= p < a[k].end;
      assert (a + b)[k] == a[k];
    }
    if InSpans(b, p) {
      var k :| 0 <= k < |b| && b[k].start <= p < b[k].end;
      assert (a + b)[|a| + k] == b[k];
    }
  }

  method AllSpans(s: Bytes, literals: seq<Bytes>) returns (spans: seq<Span>)
    ensures Fit(spans, |s|) && forall p: nat :: InSpans(spans, p) <==> Covered(s, literals, p)
  {
    spans := [];
    for k := 0 to |literals|
      invariant Fit(spans, |s|) && forall p: nat :: InSpans(spans, p) <==> Covered(s, literals[..k], p)
    {
      var lit := literals[k];
      if |lit| >= MIN_LITERAL_BYTES {
        var own := LiteralSpans(s, lit);
        ghost var before := spans;
        spans := spans + own;
        forall p: nat ensures InSpans(spans, p) <==> InSpans(before, p) || CoveredBy(s, lit, p) {
          InSpansConcat(before, own, p);
        }
      }
      MoreLiterals(s, literals, k);
    }
    assert literals[..|literals|] == literals;
  }

  lemma MoreLiterals(s: Bytes, literals: seq<Bytes>, k: nat)
    requires k < |literals|
    ensures forall p: nat ::
              (Covered(s, literals[..k + 1], p) <==>
                Covered(s, literals[..k], p) || (|literals[k]| >= MIN_LITERAL_BYTES && CoveredBy(s, literals[k], p)))
  {
    assert literals[..k + 1] == literals[..k] + [literals[k]];
  }

  // ---- Sorting ----

  ghost predicate SortedByStart(spans: seq<Span>) {
    forall i, j :: 0 <= i <= j < |spans| ==> spans[i].start <= spans[j].start
  }

  method InsertByStart(spans: seq<Span>, x: Span) returns (r: seq<Span>)
    requires SortedByStart(spans)
    ensures SortedByStart(r) && multiset(r) == multiset(spans) + multiset{x}
  {
    var at := |spans|;
    while at > 0 && spans[at - 1].start > x.start
      invariant 0 <= at <= |spans|
      invariant forall j :: at <= j < |spans| ==> spans[j].start > x.start
    {
      at := at - 1;
    }
    r := spans[..at] + [x] + spans[at..];
    InsertKeeps(spans, at, x);
    InsertSorts(spans, at, x);
    hide SortedByStart;
  }

  lemma InsertKeeps(spans: seq<Span>, at: nat, x: Span)
    requires at <= |spans|
    ensures multiset(spans[..at] + [x] + spans[at..]) == multiset(spans) + multiset{x}
  {
    assert spans == spans[..at] + spans[at..];
  }

  lemma InsertSorts(spans: seq<Span>, at: nat, x: Span)
    requires SortedByStart(spans) && at <= |spans| && (at > 0 ==> spans[at - 1].start <= x.start)
    requires forall j :: at <= j < |spans| ==> spans[j].start > x.start
    ensures SortedByStart(spans[..at] + [x] + spans[at..])
  {
    var r := spans[..at] + [x] + spans[at..];
    forall i, j | 0 <= i < j < |r| ensures r[i].start <= r[j].start {
      assert i < at ==> r[i] == spans[i] && spans[i].start <= spans[at - 1].start;
      assert j > at ==> r[j] == spans[j - 1];
    }
  }

  method SortByStart(spans: seq<Span>) returns (sorted: seq<Span>)
    ensures SortedByStart(sorted) && multiset(sorted) == multiset(spans)
  {
    hide SortedByStart;
    sorted := [];
    assert SortedByStart(sorted) by { EmptyIsSorted(); }
    for k := 0 to |spans|
      invariant SortedByStart(sorted) && multiset(sorted) == multiset(spans[..k])
    {
      sorted := InsertByStart(sorted, spans[k]);
      assert spans[..k + 1] == spans[..k] + [spans[k]];
    }
    assert spans[..|spans|] == spans;
  }

  lemma EmptyIsSorted()
    ensures SortedByStart([])
  {
  }

  lemma SameSpans(a: seq<Span>, b: seq<Span>, n: nat)
    requires multiset(a) == multiset(b) && Fit(a, n)
    ensures Fit(b, n) && forall p: nat :: InSpans(a, p) <==> InSpans(b, p)
  {
    forall k | 0 <= k < |b| ensures b[k] in a {
      assert b[k] in multiset(b);
    }
    forall k | 0 <= k < |a| ensures a[k] in b {
      assert a[k] in multiset(a);
    }
    forall p: nat ensures InSpans(a, p) <==> InSpans(b, p) {
      if InSpans(a, p) {
        var k :| 0 <= k < |a| && a[k].start <= p < a[k].end;
        var j :| 0 <= j < |b| && b[j] == a[k];
      }
      if InSpans(b, p) {
        var k :| 0 <= k < |b| && b[k].start <= p < b[k].end;
        var j :| 0 <= j < |a| && a[j] == b[k];
      }
    }
  }

  // ---- Merging ----

  /** After `k` sorted spans: `[start, end)` is the open run, everything before `pos` is written. */
  ghost predicate Merged(sp: seq<Span>, cov: set<nat>, n: nat, k: nat, pos: nat, start: nat, end: nat) {
    && 0 < k <= |sp| && pos <= start < end <= n && (pos == start ==> start == 0)
    && (forall j :: 0 <= j < k ==> sp[j].end <= end)
    && sp[k - 1].start >= start
    && (forall p :: pos <= p < start ==> p !in cov)
    && (forall p :: start <= p < end ==> p in cov)
  }

  /** Past the last merged span and before the next one nothing is covered. */
  lemma GapIsClear(sp: seq<Span>, cov: set<nat>, n: nat, k: nat, end: nat, p: nat)
    requires SortedByStart(sp) && 0 < k <= |sp| && (forall j :: 0 <= j < k ==> sp[j].end <= end)
    requires forall q: nat :: q in cov <==> InSpans(sp, q)
    requires end <= p && (k < |sp| ==> p < sp[k].start)
    ensures p !in cov
  {
    forall j | 0 <= j < |sp| ensures !(sp[j].start <= p < sp[j].end) {
      assert j >= k ==> sp[k].start <= sp[j].start;
    }
  }

  lemma WriteRun(s: Bytes, cov: set<nat>, pos: nat, start: nat, end: nat)
    requires pos <= start < end <= |s| && (pos == start ==> start == 0)
    requires (forall p :: pos <= p < start ==> p !in cov) && forall p :: start <= p < end ==> p in cov
    ensures Marked(s, cov, end) == Marked(s, cov, pos) + s[pos..start] + MARKER
  {
    UncoveredStays(s, cov, pos, start);
    RunIsOneMarker(s, cov, start, end);
  }

  lemma MarkedNone(s: Bytes, cov: set<nat>)
    ensures Marked(s, cov, 0) == []
  {
  }

  method Replace(s: Bytes, spans: seq<Span>, ghost cov: set<nat>) returns (b: Bytes)
    requires spans != [] && SortedByStart(spans) && Fit(spans, |s|)
    requires forall p: nat :: p in cov <==> InSpans(spans, p)
    ensures b == Marked(s, cov, |s|)
  {
    hide Marked;
    b := [];
    assert Marked(s, cov, 0) == [] by { MarkedNone(s, cov); }
    var pos: nat := 0;
    var start: nat, end: nat := spans[0].start, spans[0].end;
    assert forall j :: 0 <= j < |spans| ==> start <= spans[j].start;
    for k := 1 to |spans|
      invariant Merged(spans, cov, |s|, k, pos, start, end)
      invariant b == Marked(s, cov, pos)
    {
      var sp := spans[k];
      assert spans[k - 1].start <= sp.start;
      if sp.start <= end {
        end := if sp.end > end then sp.end else end;
      } else {
        forall p: nat | end <= p < sp.start ensures p !in cov {
          GapIsClear(spans, cov, |s|, k, end, p);
        }
        WriteRun(s, cov, pos, start, end);
        b := b + s[pos..start] + MARKER;
        pos := end;
        start, end := sp.start, sp.end;
      }
    }
    forall p: nat | end <= p < |s| ensures p !in cov {
      GapIsClear(spans, cov, |s|, |spans|, end, p);
    }
    WriteRun(s, cov, pos, start, end);
    UncoveredStays(s, cov, end, |s|);
    b := b + s[pos..start] + MARKER + s[end..];
  }

  /** The whole function: the maximal runs of covered bytes, each replaced by one marker, and nothing else. */
  method Redact(s: Bytes, literals: seq<Bytes>) returns (r: Bytes)
    ensures r == Redacted(s, literals)
  {
    ghost var cov := Coverage(s, literals);
    if s == [] || literals == [] {
      assert cov == {};
      NothingToRedact(s, literals);
      return s;
    }
    var spans := AllSpans(s, literals);
    CoverageIs(s, literals, spans);
    if spans == [] {
      NothingToRedact(s, literals);
      return s;
    }
    var sorted := SortByStart(spans);
    SameSpans(spans, sorted, |s|);
    r := Replace(s, sorted, cov);
  }

  lemma CoverageIs(s: Bytes, literals: seq<Bytes>, spans: seq<Span>)
    requires Fit(spans, |s|) && forall p: nat :: InSpans(spans, p) <==> Covered(s, literals, p)
    ensures forall p: nat :: p in Coverage(s, literals) <==> InSpans(spans, p)
  {
    hide Covered;
  }
}
