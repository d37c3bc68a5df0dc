/**
 * Default slugs: the derivation from a display name, the de-duplication suffix, and the candidate walk. `name` is the
 * display name after trimming and lower-casing, so every result below holds for every display name.
 */
module Slug {
  const MAX_SLUG_LEN := 40
  const FALLBACK_SLUG := "up"
  const RESERVED: set<string> := {"mcp", "api", "health", "metrics"}

  predicate Digit(c: char) {
    '0' <= c <= '9'
  }

  predicate Alnum(c: char) {
    'a' <= c <= 'z' || Digit(c)
  }

  predicate Separator(c: char) {
    c == '_' || c == '-'
  }

  predicate Hex(c: char) {
    'a' <= c <= 'f' || Digit(c)
  }

  // ---- Deriving ----

  function SkipOthers(s: string): (r: string)
    ensures |r| <= |s|
  {
    if s == [] || Alnum(s[0]) then s else SkipOthers(s[1..])
  }

  /** Every run of characters outside a-z and 0-9 becomes one underscore. */
  function Collapse(s: string): string
    decreases |s|
  {
    if s == [] then []
    else if Alnum(s[0]) then [s[0]] + Collapse(s[1..])
    else ['_'] + Collapse(SkipOthers(s))
  }

  function TrimLeft(s: string): string {
    if s != [] && s[0] == '_' then TrimLeft(s[1..]) else s
  }

  function TrimRight(s: string): (r: string)
    ensures r <= s && (r != [] ==> !Separator(r[|r| - 1]))
  {
    if s != [] && Separator(s[|s| - 1]) then TrimRight(s[..|s| - 1]) else s
  }

  function DeriveSlug(name: string): string {
    // a collapsed name has no "-", so trimming both separators is trimming underscores
    var s := TrimRight(TrimLeft(Collapse(name)));
    var cut := if |s| > MAX_SLUG_LEN then TrimRight(s[..MAX_SLUG_LEN]) else s;
    if cut == [] then FALLBACK_SLUG else cut
  }

  // ---- Validity ----

  predicate UuidLike(s: string) {
    && |s| == 36
    && forall i :: 0 <= i < 36 ==> if i in {8, 13, 18, 23} then s[i] == '-' else Hex(s[i])
  }

  predicate NoSeparatorRun(s: string) {
    forall i :: 0 < i < |s| ==> !(Separator(s[i - 1]) && Separator(s[i]))
  }

  predicate SlugChars(s: string) {
    forall i :: 0 <= i < |s| ==> Alnum(s[i]) || Separator(s[i])
  }

  predicate ValidSlug(s: string) {
    && 1 <= |s| <= MAX_SLUG_LEN && Alnum(s[0]) && Alnum(s[|s| - 1])
    && SlugChars(s) && NoSeparatorRun(s) && !UuidLike(s)
  }

  predicate NoHyphen(s: string) {
    forall i :: 0 <= i < |s| ==> s[i] != '-'
  }

  /** What the derivation makes before it trims the ends. */
  predicate Collapsed(s: string) {
    && NoSeparatorRun(s) && forall i :: 0 <= i < |s| ==> Alnum(s[i]) || s[i] == '_'
  }

  lemma {:induction false} SkipStops(s: string)
    ensures var r := SkipOthers(s); r != [] ==> Alnum(r[0])
    decreases |s|
  {
    if s != [] && !Alnum(s[0]) { SkipStops(s[1..]); }
  }

  lemma {:induction false} CollapseCollapses(s: string)
    ensures Collapsed(Collapse(s))
    ensures s != [] && Alnum(s[0]) ==> Collapse(s) != [] && Alnum(Collapse(s)[0])
    decreases |s|
  {
    if s != [] {
      if Alnum(s[0]) {
        CollapseCollapses(s[1..]);
      } else {
        SkipStops(s);
        CollapseCollapses(SkipOthers(s));
        var rest := SkipOthers(s);
        assert rest == [] ==> Collapse(rest) == [];
      }
    }
  }

  lemma {:induction false} TrimLeftKeeps(s: string)
    requires Collapsed(s)
    ensures Collapsed(TrimLeft(s)) && (TrimLeft(s) != [] ==> Alnum(TrimLeft(s)[0]))
    decreases |s|
  {
    if s != [] && s[0] == '_' { TrimLeftKeeps(s[1..]); }
  }

  lemma Prefix(s: string, p: string)
    requires Collapsed(s) && p <= s
    ensures Collapsed(p)
  {
    assert forall i :: 0 <= i < |p| ==> p[i] == s[i];
  }

  /** Every derived slug is valid and has no hyphen, whatever the name. */
  lemma DerivedIsValid(name: string)
    ensures ValidSlug(DeriveSlug(name)) && NoHyphen(DeriveSlug(name))
  {
    CollapseCollapses(name);
    TrimLeftKeeps(Collapse(name));
    var trimmed := TrimLeft(Collapse(name));
    var s := TrimRight(trimmed);
    Prefix(trimmed, s);
    var cut := if |s| > MAX_SLUG_LEN then TrimRight(s[..MAX_SLUG_LEN]) else s;
    Prefix(s, cut);
    hide Collapse, TrimLeft, TrimRight;
    if cut != [] {
      assert cut[0] == trimmed[0] && !Separator(cut[|cut| - 1]);
      CollapsedIsValid(cut);
      hide ValidSlug, NoHyphen, Collapsed;
    }
  }

  lemma CollapsedIsValid(s: string)
    requires Collapsed(s) && 1 <= |s| <= MAX_SLUG_LEN && Alnum(s[0]) && !Separator(s[|s| - 1])
    ensures ValidSlug(s) && NoHyphen(s)
  {
    assert |s| == 36 ==> s[8] != '-';
  }

  /** The letters and digits of a text, in order. */
  function Letters(s: string): string {
    if s == [] then [] else (if Alnum(s[0]) then [s[0]] else []) + Letters(s[1..])
  }

  lemma {:induction false} LettersAppend(a: string, b: string)
    ensures Letters(a + b) == Letters(a) + Letters(b)
    decreases |a|
  {
    hide Alnum;
    if a == [] {
      assert a + b == b;
    } else {
      var c := if Alnum(a[0]) then [a[0]] else [];
      assert (a + b)[0] == a[0] && (a + b)[1..] == a[1..] + b;
      LettersAppend(a[1..], b);
      assert Letters(a) == c + Letters(a[1..]) && Letters(a + b) == c + Letters(a[1..] + b);
      hide Letters;
      assert c + (Letters(a[1..]) + Letters(b)) == c + Letters(a[1..]) + Letters(b);
    }
  }

  lemma {:induction false} SkipKeepsLetters(s: string)
    ensures Letters(SkipOthers(s)) == Letters(s)
    decreases |s|
  {
    if s != [] && !Alnum(s[0]) { SkipKeepsLetters(s[1..]); }
  }

  lemma {:induction false} CollapseKeepsLetters(s: string)
    ensures Letters(Collapse(s)) == Letters(s)
    decreases |s|
  {
    if s != [] {
      var next := if Alnum(s[0]) then s[1..] else SkipOthers(s);
      SkipKeepsLetters(s);
      SkipStops(s);
      if Alnum(s[0]) || next != s {
        CollapseKeepsLetters(next);
        assert Collapse(s)[1..] == Collapse(next);
      }
    }
  }

  lemma {:induction false} TrimKeepsLetters(s: string)
    ensures Letters(TrimLeft(s)) == Letters(s) && Letters(TrimRight(s)) == Letters(s)
    decreases |s|
  {
    if s != [] {
      TrimKeepsLetters(s[1..]);
      TrimKeepsLetters(s[..|s| - 1]);
      assert s == s[..|s| - 1] + [s[|s| - 1]];
      LettersAppend(s[..|s| - 1], [s[|s| - 1]]);
    }
  }

  /**
   * A derived slug spells the name: its letters and digits are those of the name, in order, all of them unless the
   * length limit cut it. A name with none gets the fallback.
   */
  lemma DerivedSpellsTheName(name: string)
    ensures Letters(name) == "" ==> DeriveSlug(name) == FALLBACK_SLUG
    ensures Letters(name) != "" ==> Letters(DeriveSlug(name)) <= Letters(name)
    ensures Letters(name) != "" && |TrimRight(TrimLeft(Collapse(name)))| <= MAX_SLUG_LEN ==> Letters(DeriveSlug(name)) == Letters(name)
  {
    CollapseKeepsLetters(name);
    CollapseCollapses(name);
    TrimLeftKeeps(Collapse(name));
    TrimKeepsLetters(Collapse(name));
    TrimKeepsLetters(TrimLeft(Collapse(name)));
    var s := TrimRight(TrimLeft(Collapse(name)));
    hide Collapse, TrimLeft;
    CutKeepsLetters(s);
    hide TrimRight;
    assert s != [] ==> Alnum(s[0]);
    assert s == [] ==> Letters(s) == [];
  }

  lemma CutKeepsLetters(s: string)
    requires s != [] ==> Alnum(s[0])
    ensures |s| > MAX_SLUG_LEN ==>
              var cut := TrimRight(s[..MAX_SLUG_LEN]); cut != [] && Letters(cut) <= Letters(s)
    ensures s != [] ==> Letters(s) != []
  {
    FirstLetter(s);
    hide Letters, Alnum;
    if |s| > MAX_SLUG_LEN {
      TrimKeepsLetters(s[..MAX_SLUG_LEN]);
      TrimKeepsFirst(s[..MAX_SLUG_LEN]);
      hide TrimRight;
      PrefixLetters(s, MAX_SLUG_LEN);
    }
  }

  lemma FirstLetter(s: string)
    requires s != [] ==> Alnum(s[0])
    ensures s != [] ==> Letters(s) != []
  {
    hide Alnum;
  }

  lemma PrefixLetters(s: string, n: nat)
    requires n <= |s|
    ensures Letters(s[..n]) <= Letters(s)
  {
    hide Letters;
    var p, rest := s[..n], s[n..];
    assert s == p + rest;
    LettersAppend(p, rest);
    assert Letters(s) == Letters(p) + Letters(rest);
  }

  lemma {:induction false} CollapsedStays(s: string)
    requires Collapsed(s)
    ensures Collapse(s) == s
    decreases |s|
  {
    if s != [] {
      assert Collapsed(s[1..]);
      CollapsedStays(s[1..]);
      if !Alnum(s[0]) {
        assert |s| > 1 ==> Alnum(s[1]);
        assert SkipOthers(s) == s[1..];
      }
    }
  }

  /** What is already a slug with no hyphen is its own derivation, so deriving twice is deriving once. */
  lemma DerivingIsIdempotent(s: string)
    requires ValidSlug(s) && NoHyphen(s)
    ensures DeriveSlug(s) == s
  {
    assert Collapsed(s);
    CollapsedStays(s);
    hide Collapse;
  }

  // ---- Suffixes ----

  function Itoa(n: nat): (d: string)
    ensures d != []
  {
    (if n < 10 then [] else Itoa(n / 10)) + [('0' as int + n % 10) as char]
  }

  function Atoi(d: string): int {
    if d == [] then 0 else 10 * Atoi(d[..|d| - 1]) + (d[|d| - 1] as int - '0' as int)
  }

  predicate Digits(d: string) {
    forall i :: 0 <= i < |d| ==> Digit(d[i])
  }

  lemma DigitReads(x: nat)
    requires x < 10
    ensures var c := ('0' as int + x) as char; Digit(c) && c as int - '0' as int == x
  {
  }

  lemma AtoiAppend(d: string, c: char)
    ensures Atoi(d + [c]) == 10 * Atoi(d) + (c as int - '0' as int)
  {
    assert (d + [c])[..|d|] == d;
  }

  lemma {:induction false} ItoaReadsBack(n: nat)
    ensures Atoi(Itoa(n)) == n && Digits(Itoa(n))
  {
    DigitReads(n % 10);
    var c := ('0' as int + n % 10) as char;
    if n < 10 {
      AtoiAppend([], c);
    } else {
      ItoaReadsBack(n / 10);
      AtoiAppend(Itoa(n / 10), c);
      hide Atoi, Digit;
    }
  }

  function SlugWithSuffix(slug: string, n: nat): string {
    var suffix := "-" + Itoa(n);
    if MAX_SLUG_LEN - |suffix| < 1 then FALLBACK_SLUG + suffix
    else
      var cut := if |slug| + |suffix| > MAX_SLUG_LEN then TrimRight(slug[..MAX_SLUG_LEN - |suffix|]) else slug;
      (if cut == [] then FALLBACK_SLUG else cut) + suffix
  }

  /** The part before the hyphen: a derived base loses only characters at its end. */
  lemma SuffixShape(slug: string, n: nat) returns (head: string)
    requires NoHyphen(slug)
    ensures SlugWithSuffix(slug, n) == head + "-" + Itoa(n) && NoHyphen(head) && head != []
    ensures slug != [] && |slug| + 1 + |Itoa(n)| <= MAX_SLUG_LEN ==> head == slug
    ensures ValidSlug(slug) && |Itoa(n)| <= MAX_SLUG_LEN - 2 ==> head <= slug && |head| + 1 + |Itoa(n)| <= MAX_SLUG_LEN && Alnum(head[|head| - 1])
  {
    var suffix := "-" + Itoa(n);
    hide Itoa, TrimRight;
    if MAX_SLUG_LEN - |suffix| < 1 {
      head := FALLBACK_SLUG;
    } else {
      var room := MAX_SLUG_LEN - |suffix|;
      var cut := if |slug| + |suffix| > MAX_SLUG_LEN then TrimRight(slug[..room]) else slug;
      head := if cut == [] then FALLBACK_SLUG else cut;
      if ValidSlug(slug) {
        TrimKeepsFirst(slug[..if room <= |slug| then room else |slug|]);
      }
    }
    assert head + "-" + Itoa(n) == head + suffix;
  }

  lemma {:induction false} TrimKeepsFirst(s: string)
    requires s != [] && Alnum(s[0])
    ensures TrimRight(s) != []
    decreases |s|
  {
    if Separator(s[|s| - 1]) { TrimKeepsFirst(s[..|s| - 1]); }
  }

  /** A hyphen splits one way when the text before it has none. */
  lemma SplitOnce(a: string, d: string, b: string, e: string)
    requires NoHyphen(a) && NoHyphen(b) && a + "-" + d == b + "-" + e
    ensures a == b && d == e
  {
    var x, y := a + "-" + d, b + "-" + e;
    assert x[|a|] == '-' && y[|b|] == '-';
    assert x[..|a|] == a && y[..|b|] == b;
    assert x[|a| + 1..] == d && y[|b| + 1..] == e;
  }

  /** The suffix determines the number. */
  lemma SuffixIsInjective(slug: string, m: nat, n: nat)
    requires NoHyphen(slug) && SlugWithSuffix(slug, m) == SlugWithSuffix(slug, n)
    ensures m == n
  {
    var a := SuffixShape(slug, m);
    var b := SuffixShape(slug, n);
    SplitOnce(a, Itoa(m), b, Itoa(n));
    ItoaReadsBack(m);
    ItoaReadsBack(n);
  }

  /** A suffixed slug is valid while the suffix leaves room for a base. */
  lemma SuffixedIsValid(slug: string, n: nat)
    requires ValidSlug(slug) && NoHyphen(slug) && |Itoa(n)| <= MAX_SLUG_LEN - 2
    ensures ValidSlug(SlugWithSuffix(slug, n))
  {
    var head := SuffixShape(slug, n);
    ItoaReadsBack(n);
    hide SlugWithSuffix, Itoa;
    JoinIsValid(slug, head, Itoa(n));
  }

  lemma JoinIsValid(slug: string, head: string, d: string)
    requires ValidSlug(slug) && head <= slug && head != [] && NoHyphen(head) && Alnum(head[|head| - 1])
    requires d != [] && Digits(d) && |head| + 1 + |d| <= MAX_SLUG_LEN
    ensures ValidSlug(head + "-" + d)
  {
    var r := head + "-" + d;
    assert forall i :: 0 <= i < |head| ==> r[i] == head[i] == slug[i];
    assert r[|head|] == '-';
    assert forall i :: |head| < i < |r| ==> r[i] == d[i - |head| - 1];
    assert forall i :: 0 <= i < |r| && i != |head| ==> r[i] != '-';
    assert |r| == 36 ==> r[8] != '-' || r[13] != '-';
  }

  /** No reserved word ends in a hyphen and digits. */
  lemma SuffixedIsNotReserved(slug: string, n: nat)
    requires NoHyphen(slug)
    ensures SlugWithSuffix(slug, n) !in RESERVED
  {
    var head := SuffixShape(slug, n);
    assert SlugWithSuffix(slug, n)[|head|] == '-';
    hide SlugWithSuffix;
    assert forall w :: w in RESERVED ==> NoHyphen(w);
  }

  // ---- Candidates ----

  function Candidate(slug: string, k: nat): string {
    if k <= 1 then slug else SlugWithSuffix(slug, k)
  }

  /** Candidates 1 to n, the reserved ones skipped. */
  function Candidates(slug: string, n: nat): seq<string> {
    if n == 0 then []
    else Candidates(slug, n - 1) + if Candidate(slug, n) in RESERVED then [] else [Candidate(slug, n)]
  }

  method SlugCandidatesN(name: string, n: nat) returns (out: seq<string>)
    ensures out == Candidates(DeriveSlug(name), n)
  {
    var derived := DeriveSlug(name);
    out := [];
    for k := 1 to n + 1
      invariant out == Candidates(derived, k - 1)
    {
      var c := derived;
      if k > 1 {
        c := SlugWithSuffix(derived, k);
      }
      if c !in RESERVED {
        out := out + [c];
      }
    }
  }

  lemma CandidatesDiffer(slug: string, j: nat, k: nat)
    requires NoHyphen(slug) && 1 <= j < k
    ensures Candidate(slug, j) != Candidate(slug, k)
  {
    var head := SuffixShape(slug, k);
    assert Candidate(slug, k)[|head|] == '-';
    if j > 1 && Candidate(slug, j) == Candidate(slug, k) { SuffixIsInjective(slug, j, k); }
  }

  predicate Distinct(xs: seq<string>) {
    forall i, j :: 0 <= i < j < |xs| ==> xs[i] != xs[j]
  }

  /** The candidates are pairwise distinct, each is one of the first n, and at most one of those is skipped. */
  lemma {:induction false} CandidatesAreDistinct(slug: string, n: nat)
    requires NoHyphen(slug)
    ensures Distinct(Candidates(slug, n))
    ensures |Candidates(slug, n)| >= n - 1 && (n > 0 && slug !in RESERVED ==> |Candidates(slug, n)| == n)
    ensures forall c :: c in Candidates(slug, n) ==> exists k :: 1 <= k <= n && c == Candidate(slug, k)
  {
    if n > 0 {
      CandidatesAreDistinct(slug, n - 1);
      if n > 1 { SuffixedIsNotReserved(slug, n); }
      hide SlugWithSuffix, NoHyphen;
      var before, c := Candidates(slug, n - 1), Candidate(slug, n);
      forall i | 0 <= i < |before| ensures before[i] != c {
        assert before[i] in before;
        var k :| 1 <= k <= n - 1 && before[i] == Candidate(slug, k);
        CandidatesDiffer(slug, k, n);
      }
    }
  }

  lemma {:induction false} DistinctCount(xs: seq<string>)
    requires Distinct(xs)
    ensures |set x | x in xs| == |xs|
  {
    if xs != [] {
      var last, rest := xs[|xs| - 1], xs[..|xs| - 1];
      DistinctCount(rest);
      assert (set x | x in xs) == (set x | x in rest) + {last};
    }
  }

  /** Totality: whatever slugs are taken, the first |taken| + 2 candidates hold a free one. */
  lemma AFreeSlugExists(name: string, taken: set<string>)
    ensures exists c :: c in Candidates(DeriveSlug(name), |taken| + 2) && c !in taken
  {
    DerivedIsValid(name);
    var cs := Candidates(DeriveSlug(name), |taken| + 2);
    CandidatesAreDistinct(DeriveSlug(name), |taken| + 2);
    DistinctCount(cs);
    hide DeriveSlug, Candidates;
    var all := set x | x in cs;
    if forall c :: c in cs ==> c in taken {
      Subset(all, taken);
      assert false;
    }
  }

  lemma {:induction false} Subset(a: set<string>, b: set<string>)
    requires a <= b
    ensures |a| <= |b|
  {
    if a != {} {
      var x :| x in a;
      Subset(a - {x}, b - {x});
    }
  }

  /** Every candidate is a valid slug while the number fits beside a base, and none is a reserved word. */
  lemma CandidatesAreValid(name: string, n: nat, c: string)
    requires c in Candidates(DeriveSlug(name), n) && |Itoa(n)| <= MAX_SLUG_LEN - 2
    ensures ValidSlug(c) && c !in RESERVED
  {
    DerivedIsValid(name);
    var slug := DeriveSlug(name);
    CandidatesAreDistinct(slug, n);
    NotReserved(slug, n, c);
    var k :| 1 <= k <= n && c == Candidate(slug, k);
    ShorterIsShorter(k, n);
    hide ValidSlug, SlugWithSuffix, DeriveSlug, Itoa;
    if k > 1 { SuffixedIsValid(slug, k); }
  }

  lemma {:induction false} NotReserved(slug: string, n: nat, c: string)
    requires c in Candidates(slug, n)
    ensures c !in RESERVED
  {
    if c in Candidates(slug, n - 1) { NotReserved(slug, n - 1, c); }
  }

  lemma {:induction false} ShorterIsShorter(k: nat, n: nat)
    requires k <= n
    ensures |Itoa(k)| <= |Itoa(n)|
  {
    if k >= 10 { ShorterIsShorter(k / 10, n / 10); }
  }
}
