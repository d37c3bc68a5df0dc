/** Default slugs said of words: what becomes of a name made of words and of anything else between them. */
module SlugWords {
  import opened Slug

  predicate Word(w: string) {
    w != "" && forall i :: 0 <= i < |w| ==> 'a' <= w[i] <= 'z' || '0' <= w[i] <= '9'
  }

  predicate Gap(g: string) {
    g != "" && forall i :: 0 <= i < |g| ==> !('a' <= g[i] <= 'z') && !('0' <= g[i] <= '9')
  }

  /** A word, and then a gap and a word, again and again. */
  function Spelled(first: string, more: seq<(string, string)>): string
    decreases |more|
  {
    if more == [] then first else first + more[0].0 + Spelled(more[0].1, more[1..])
  }

  ghost predicate Words(first: string, more: seq<(string, string)>) {
    Word(first) && forall m :: m in more ==> Gap(m.0) && Word(m.1)
  }

  function Underscored(first: string, more: seq<(string, string)>): string
    decreases |more|
  {
    if more == [] then first else first + "_" + Underscored(more[0].1, more[1..])
  }

  lemma {:induction false} SkipGap(g: string, rest: string)
    requires (g != "" ==> Gap(g)) && (rest != "" ==> Alnum(rest[0]))
    ensures SkipOthers(g + rest) == rest
    decreases |g|
  {
    if g == "" {
      assert g + rest == rest;
    } else {
      assert (g + rest)[1..] == g[1..] + rest;
      SkipGap(g[1..], rest);
    }
  }

  lemma CollapseLetter(c: char, rest: string)
    requires Alnum(c)
    ensures Collapse([c] + rest) == [c] + Collapse(rest)
  {
    assert ([c] + rest)[1..] == rest;
    hide Alnum;
  }

  lemma {:induction false} CollapseWord(w: string, rest: string)
    requires w != "" ==> Word(w)
    ensures Collapse(w + rest) == w + Collapse(rest)
    decreases |w|
  {
    if w == "" {
      assert w + rest == rest;
      hide Collapse;
      assert w + Collapse(rest) == Collapse(rest);
    } else {
      assert Alnum(w[0]) && w == [w[0]] + w[1..];
      assert w[1..] != "" ==> Word(w[1..]);
      hide Collapse, Alnum, Word;
      CollapseWord(w[1..], rest);
      CollapseLetter(w[0], w[1..] + rest);
      assert w + rest == [w[0]] + (w[1..] + rest);
      assert [w[0]] + (w[1..] + Collapse(rest)) == w + Collapse(rest);
    }
  }

  lemma CollapseGap(g: string, rest: string)
    requires Gap(g) && (rest != "" ==> Alnum(rest[0]))
    ensures Collapse(g + rest) == "_" + Collapse(rest)
  {
    SkipGap(g, rest);
  }

  lemma CollapseOneWord(w: string, end: string)
    requires Word(w) && (end != "" ==> Gap(end))
    ensures Collapse(w + end) == w + if end == "" then "" else "_"
  {
    NothingCollapses();
    hide Collapse;
    CollapseWord(w, end);
    if end != "" {
      CollapseGap(end, "");
      assert end + "" == end;
    }
  }

  lemma WordEnds(w: string)
    requires Word(w)
    ensures w != "" && Alnum(w[0]) && Alnum(w[|w| - 1])
  {
  }

  lemma {:induction false} UnderscoredEnds(first: string, more: seq<(string, string)>)
    requires Words(first, more)
    ensures Spelled(first, more) != "" && Alnum(Spelled(first, more)[0])
    ensures var u := Underscored(first, more); u != "" && Alnum(u[0]) && Alnum(u[|u| - 1])
    decreases |more|
  {
    WordEnds(first);
    hide Word, Alnum;
    if more != [] {
      assert more[0] in more && forall m :: m in more[1..] ==> m in more;
      UnderscoredEnds(more[0].1, more[1..]);
    }
  }

  lemma {:induction false} CollapseWords(first: string, more: seq<(string, string)>, end: string)
    requires Words(first, more) && (end != "" ==> Gap(end))
    ensures Collapse(Spelled(first, more) + end) == Underscored(first, more) + if end == "" then "" else "_"
    decreases |more|
  {
    hide Collapse, Word, Gap, Alnum;
    if more == [] {
      CollapseOneWord(first, end);
    } else {
      assert more[0] in more && forall m :: m in more[1..] ==> m in more;
      var g, next := more[0].0, Spelled(more[0].1, more[1..]);
      UnderscoredEnds(more[0].1, more[1..]);
      CollapseWords(more[0].1, more[1..], end);
      assert (next + end)[0] == next[0];
      CollapseGap(g, next + end);
      CollapseWord(first, g + (next + end));
      Regroup(first, g, next, end);
      Regroup(first, "_", Underscored(more[0].1, more[1..]), if end == "" then "" else "_");
    }
  }

  lemma Regroup(a: string, b: string, c: string, d: string)
    ensures a + (b + (c + d)) == a + b + c + d
  {
  }

  lemma NothingCollapses()
    ensures Collapse("") == ""
  {
  }

  /**
   * A name of words with anything else between, before and after them becomes the words with one underscore between each two;
   * past forty characters the rest is cut off, and an underscore the cut leaves at the end with it.
   */
  lemma WordsBecomeASlug(before: string, first: string, more: seq<(string, string)>, after: string)
    requires Words(first, more) && (before != "" ==> Gap(before)) && (after != "" ==> Gap(after))
    ensures var u := Underscored(first, more);
            DeriveSlug(before + Spelled(first, more) + after) ==
              if |u| <= 40 then u else if u[39] == '_' then u[..39] else u[..40]
  {
    var u, s := Underscored(first, more), Spelled(first, more) + after;
    CollapseWords(first, more, after);
    UnderscoredEnds(first, more);
    assert s != "" && s[0] == Spelled(first, more)[0];
    hide *;
    assert before + Spelled(first, more) + after == before + s;
    CollapseAfterGap(before, s);
    var end := if after == "" then "" else "_";
    TrimmedIs(u, if before == "" then "" else "_", end);
    SlugOfWords(before + s, u);
  }

  lemma CollapseAfterGap(g: string, s: string)
    requires (g != "" ==> Gap(g)) && s != "" && Alnum(s[0])
    ensures Collapse(g + s) == (if g == "" then "" else "_") + Collapse(s)
  {
    hide Collapse;
    if g == "" {
      assert g + s == s && "" + Collapse(s) == Collapse(s);
    } else {
      CollapseGap(g, s);
    }
  }

  lemma SlugOfWords(name: string, u: string)
    requires TrimRight(TrimLeft(Collapse(name))) == u && u != "" && Alnum(u[0])
    ensures DeriveSlug(name) == if |u| <= 40 then u else if u[39] == '_' then u[..39] else u[..40]
  {
    CollapseCollapses(name);
    if |u| > 40 { CutIs(u, Collapse(name)); }
    hide Collapse, TrimLeft, TrimRight;
  }

  lemma TrimmedIs(u: string, a: string, b: string)
    requires u != "" && Alnum(u[0]) && Alnum(u[|u| - 1]) && (a == "" || a == "_") && (b == "" || b == "_")
    ensures TrimRight(TrimLeft(a + (u + b))) == u
  {
    var tail := u + b;
    assert tail[0] == u[0] && u[0] != '_' && !Separator(u[|u| - 1]);
    hide Alnum, Separator;
    LeftTrim(a, tail);
    hide TrimLeft;
    RightTrim(u, b);
  }

  lemma LeftTrim(a: string, tail: string)
    requires tail != "" && tail[0] != '_' && (a == "" || a == "_")
    ensures TrimLeft(a + tail) == tail
  {
    assert TrimLeft(tail) == tail;
    if a == "" { assert a + tail == tail; } else { assert (a + tail)[1..] == tail; }
  }

  lemma RightTrim(u: string, b: string)
    requires u != "" && !Separator(u[|u| - 1]) && (b == "" || b == "_")
    ensures TrimRight(u + b) == u
  {
    assert TrimRight(u) == u;
    if b == "" { assert u + b == u; } else { assert (u + b)[..|u|] == u; }
  }

  lemma CutIs(u: string, c: string)
    requires |u| > 40 && Collapsed(c) && TrimRight(TrimLeft(c)) == u && Alnum(u[0])
    ensures TrimRight(u[..40]) == if u[39] == '_' then u[..39] else u[..40]
  {
    TrimLeftKeeps(c);
    Prefix(TrimLeft(c), u);
    assert Alnum(u[39]) || u[39] == '_';
    assert u[..40][..39] == u[..39];
    assert u[39] == '_' ==> Alnum(u[38]);
    hide Collapsed, TrimLeft;
  }

  /** What a slug is, character by character: no UUID is one. */
  lemma SlugsAre(s: string)
    ensures ValidSlug(s) <==>
            && 1 <= |s| <= 40
            && (forall i :: 0 <= i < |s| ==> 'a' <= s[i] <= 'z' || '0' <= s[i] <= '9' || s[i] == '_' || s[i] == '-')
            && s[0] != '_' && s[0] != '-' && s[|s| - 1] != '_' && s[|s| - 1] != '-'
            && (forall i :: 0 < i < |s| ==> (s[i - 1] != '_' && s[i - 1] != '-') || (s[i] != '_' && s[i] != '-'))
            && !(|s| == 36 && forall i :: 0 <= i < 36 ==>
                   if i == 8 || i == 13 || i == 18 || i == 23 then s[i] == '-' else 'a' <= s[i] <= 'f' || '0' <= s[i] <= '9')
  {
  }

  /** The words kept for the proxy's own routes give way to their first suffixed candidate. */
  lemma ReservedWordsGiveWay(word: string)
    requires word == "mcp" || word == "api" || word == "health" || word == "metrics"
    ensures Candidates(word, 2) == [word + "-2"]
  {
    assert Itoa(2) == "2";
    assert SlugWithSuffix(word, 2) == word + "-2";
    SuffixedIsNotReserved(word, 2);
    assert Candidates(word, 0) == [];
    assert Candidates(word, 1) == [];
  }

  /** A name with no letter a to z and no digit becomes "up". */
  lemma NoWordsNoSlug(name: string)
    requires name == "" || Gap(name)
    ensures DeriveSlug(name) == "up"
  {
    NothingCollapses();
    if name != "" {
      assert name + "" == name;
      CollapseGap(name, "");
    }
    hide Collapse;
    assert TrimLeft("_") == "" by { assert "_"[1..] == ""; }
  }
}
