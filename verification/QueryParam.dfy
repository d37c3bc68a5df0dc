/**
 * The query credential: the rewrite of a raw query so that exactly one piece names the parameter, and the write gate
 * that refuses a URL the rewrite would take a piece from. `fold` is Unicode case folding, any reflexive relation here.
 */
module QueryParam {
  import opened Text

  const AMP: byte := 0x26
  const SEMI: byte := 0x3B
  const EQUALS: byte := 0x3D
  const PLUS: byte := 0x2B
  const PERCENT: byte := 0x25
  const NUL: byte := 0
  const MAX_QUERY_PARAM_BYTES := 64

  type Fold = (Bytes, Bytes) -> bool

  ghost predicate Reflexive(fold: Fold) {
    forall s :: fold(s, s)
  }

  // ---- Splitting and joining ----

  predicate Without(s: Bytes, sep: byte) {
    forall i :: 0 <= i < |s| ==> s[i] != sep
  }

  function Split(s: Bytes, sep: byte): (ps: seq<Bytes>)
    ensures |ps| >= 1
  {
    if s == [] then [[]]
    else if s[0] == sep then [[]] + Split(s[1..], sep)
    else
      var rest := Split(s[1..], sep);
      [[s[0]] + rest[0]] + rest[1..]
  }

  function Join(ps: seq<Bytes>, sep: byte): Bytes {
    if ps == [] then [] else if |ps| == 1 then ps[0] else ps[0] + [sep] + Join(ps[1..], sep)
  }

  lemma {:induction false} SplitPiecesAreClean(s: Bytes, sep: byte)
    ensures forall p :: p in Split(s, sep) ==> Without(p, sep)
    decreases |s|
  {
    if s != [] {
      SplitPiecesAreClean(s[1..], sep);
      var rest := Split(s[1..], sep);
      assert rest[0] in rest && forall p :: p in rest[1..] ==> p in rest;
    }
  }

  lemma {:induction false} JoinOfSplit(s: Bytes, sep: byte)
    ensures Join(Split(s, sep), sep) == s
    decreases |s|
  {
    if s != [] {
      JoinOfSplit(s[1..], sep);
      var ps, rest := Split(s, sep), Split(s[1..], sep);
      if s[0] == sep {
        assert ps[1..] == rest;
      } else {
        assert ps[1..] == rest[1..];
      }
    }
  }

  lemma {:induction false} SplitOfOne(p: Bytes, sep: byte)
    requires Without(p, sep)
    ensures Split(p, sep) == [p]
    decreases |p|
  {
    if p != [] {
      SplitOfOne(p[1..], sep);
      assert p == [p[0]] + p[1..];
    }
  }

  lemma {:induction false} SplitAfter(p: Bytes, rest: Bytes, sep: byte)
    requires Without(p, sep)
    ensures Split(p + [sep] + rest, sep) == [p] + Split(rest, sep)
    decreases |p|
  {
    var s := p + [sep] + rest;
    if p == [] {
      assert s[1..] == rest;
    } else {
      SplitAfter(p[1..], rest, sep);
      assert s[1..] == p[1..] + [sep] + rest;
      assert p == [p[0]] + p[1..];
      assert Split(s[1..], sep)[1..] == Split(rest, sep);
    }
  }

  lemma {:induction false} SplitOfJoin(ps: seq<Bytes>, sep: byte)
    requires ps != [] && forall p :: p in ps ==> Without(p, sep)
    ensures Split(Join(ps, sep), sep) == ps
    decreases |ps|
  {
    if |ps| == 1 {
      SplitOfOne(ps[0], sep);
    } else {
      SplitOfJoin(ps[1..], sep);
      SplitAfter(ps[0], Join(ps[1..], sep), sep);
    }
  }

  // ---- Escaping ----

  predicate Unreserved(c: byte) {
    || 0x41 <= c <= 0x5A || 0x61 <= c <= 0x7A || 0x30 <= c <= 0x39
    || c == 0x2E || c == 0x5F || c == 0x7E || c == 0x2D
  }

  predicate ValidQueryParam(name: Bytes) {
    1 <= |name| <= MAX_QUERY_PARAM_BYTES && forall i :: 0 <= i < |name| ==> Unreserved(name[i])
  }

  function HexDigit(x: int): byte
    requires 0 <= x < 16
  {
    if x < 10 then 0x30 + x else 0x41 + x - 10
  }

  function HexValue(c: byte): Option<int> {
    if 0x30 <= c <= 0x39 then Some(c - 0x30)
    else if 0x61 <= c <= 0x66 then Some(c - 0x61 + 10)
    else if 0x41 <= c <= 0x46 then Some(c - 0x41 + 10)
    else None
  }

  function QueryEscape(s: Bytes): Bytes {
    if s == [] then []
    else
      (if Unreserved(s[0]) then [s[0]] else if s[0] == SPACE then [PLUS]
       else [PERCENT, HexDigit(s[0] / 16), HexDigit(s[0] % 16)]) + QueryEscape(s[1..])
  }

  function ByteOfHex(a: byte, b: byte): Option<byte> {
    if HexValue(a).Some? && HexValue(b).Some? then Some(HexValue(a).value * 16 + HexValue(b).value) else None
  }

  function QueryUnescape(s: Bytes): Option<Bytes> {
    if s == [] then Some([])
    else if s[0] == PERCENT then
      if |s| < 3 || ByteOfHex(s[1], s[2]) == None then None
      else
        var rest := QueryUnescape(s[3..]);
        if rest == None then None else Some([ByteOfHex(s[1], s[2]).value] + rest.value)
    else
      var rest := QueryUnescape(s[1..]);
      if rest == None then None else Some([if s[0] == PLUS then SPACE else s[0]] + rest.value)
  }

  /** Escaped text holds nothing that splits a query, a piece or a pair. */
  lemma {:induction false} EscapedIsPlain(s: Bytes)
    ensures var e := QueryEscape(s); Without(e, AMP) && Without(e, SEMI) && Without(e, EQUALS)
    decreases |s|
  {
    if s != [] { EscapedIsPlain(s[1..]); }
  }

  lemma HexReads(x: byte)
    ensures ByteOfHex(HexDigit(x / 16), HexDigit(x % 16)) == Some(x)
  {
  }

  /** The upstream reads back the value that was set, whatever its bytes. */
  lemma {:induction false} EscapeRoundTrip(s: Bytes)
    ensures QueryUnescape(QueryEscape(s)) == Some(s)
    decreases |s|
  {
    if s != [] {
      EscapeRoundTrip(s[1..]);
      HexReads(s[0]);
      hide ByteOfHex, HexDigit;
      var e := QueryEscape(s);
      assert s == [s[0]] + s[1..];
      if !Unreserved(s[0]) && s[0] != SPACE {
        assert e[0] == PERCENT && e[1] == HexDigit(s[0] / 16) && e[2] == HexDigit(s[0] % 16);
        assert e[3..] == QueryEscape(s[1..]);
      } else {
        assert e[1..] == QueryEscape(s[1..]);
      }
    }
  }

  lemma {:induction false} NameNeedsNoEscape(name: Bytes)
    requires forall i :: 0 <= i < |name| ==> Unreserved(name[i])
    ensures QueryEscape(name) == name && QueryUnescape(name) == Some(name)
    decreases |name|
  {
    if name != [] { NameNeedsNoEscape(name[1..]); }
  }

  // ---- Naming the parameter ----

  function Before(s: Bytes, c: byte): (r: Bytes) {
    if s == [] || s[0] == c then [] else [s[0]] + Before(s[1..], c)
  }

  function TrimSpaces(s: Bytes): Bytes {
    if s == [] then []
    else if s[0] == SPACE then TrimSpaces(s[1..])
    else if s[|s| - 1] == SPACE then TrimSpaces(s[..|s| - 1])
    else s
  }

  /** A sub-piece's key names the parameter; one that cannot be decoded counts as a match. */
  predicate KeyNames(fold: Fold, key: Bytes, name: Bytes) {
    key != [] && (QueryUnescape(key) == None || fold(TrimSpaces(Before(QueryUnescape(key).value, NUL)), name))
  }

  predicate NamesQueryParam(fold: Fold, piece: Bytes, name: Bytes) {
    exists sub :: sub in Split(piece, SEMI) && KeyNames(fold, Before(sub, EQUALS), name)
  }

  function Pair(name: Bytes, value: Bytes): Bytes {
    QueryEscape(name) + [EQUALS] + QueryEscape(value)
  }

  lemma {:induction false} BeforeStops(s: Bytes, c: byte, rest: Bytes)
    requires Without(s, c)
    ensures Before(s + [c] + rest, c) == s && Before(s, c) == s
    decreases |s|
  {
    if s != [] {
      BeforeStops(s[1..], c, rest);
      assert (s + [c] + rest)[1..] == s[1..] + [c] + rest;
    }
  }

  /** The appended pair names its parameter and is one piece. */
  lemma PairNames(fold: Fold, name: Bytes, value: Bytes)
    requires Reflexive(fold) && ValidQueryParam(name)
    ensures NamesQueryParam(fold, Pair(name, value), name) && Without(Pair(name, value), AMP)
  {
    NameNeedsNoEscape(name);
    EscapedIsPlain(name);
    EscapedIsPlain(value);
    hide QueryEscape, QueryUnescape;
    var p := Pair(name, value);
    assert Without(p, SEMI) && Without(p, AMP);
    SplitOfOne(p, SEMI);
    BeforeStops(name, EQUALS, QueryEscape(value));
    assert Without(name, NUL);
    BeforeStops(name, NUL, []);
    assert TrimSpaces(name) == name;
    assert KeyNames(fold, name, name);
    assert p in Split(p, SEMI);
  }

  // ---- Which pieces name it, said of their bytes ----

  /** What escaping makes of one byte: letters, digits and . _ ~ - stay, a space is a plus, any other is its two hex digits. */
  lemma EscapeOfOneByte(c: byte)
    ensures QueryEscape([c]) ==
            if 65 <= c <= 90 || 97 <= c <= 122 || 48 <= c <= 57 || c == 46 || c == 95 || c == 126 || c == 45 then [c]
            else if c == 32 then [43]
            else
              var hi, lo := c / 16, c % 16;
              [37, if hi < 10 then 48 + hi else 55 + hi, if lo < 10 then 48 + lo else 55 + lo]
  {
    var one := [c];
    assert one[1..] == [] && QueryEscape([]) == [];
  }

  lemma {:induction false} EscapeAppends(a: Bytes, b: Bytes)
    ensures QueryEscape(a + b) == QueryEscape(a) + QueryEscape(b)
    decreases |a|
  {
    hide Unreserved, HexDigit;
    if a == [] {
      assert a + b == b;
    } else {
      assert (a + b)[1..] == a[1..] + b;
      EscapeAppends(a[1..], b);
    }
  }

  function Spaces(n: nat): Bytes {
    seq(n, _ => SPACE)
  }

  /** A key as the upstream compares it: no NUL in it and no space at either end. */
  predicate Core(key: Bytes) {
    key != [] && Without(key, NUL) && key[0] != SPACE && key[|key| - 1] != SPACE
  }

  lemma {:induction false} TrimsToCore(a: nat, key: Bytes, b: nat)
    requires Core(key)
    ensures TrimSpaces(Spaces(a) + key + Spaces(b)) == key
    decreases a + b
  {
    var s := Spaces(a) + key + Spaces(b);
    if a > 0 {
      assert s[0] == SPACE && s[1..] == Spaces(a - 1) + key + Spaces(b);
      TrimsToCore(a - 1, key, b);
    } else if b > 0 {
      assert s[0] == key[0] && s[|s| - 1] == SPACE && s[..|s| - 1] == Spaces(a) + key + Spaces(b - 1);
      TrimsToCore(a, key, b - 1);
    } else {
      assert s == key;
    }
  }

  lemma {:induction false} BeforeNul(d: Bytes, tail: Bytes)
    requires Without(d, NUL) && (tail == [] || tail[0] == NUL)
    ensures Before(d + tail, NUL) == d
  {
    if tail == [] {
      assert d + tail == d;
      BeforeStops(d, NUL, []);
    } else {
      assert d + tail == d + [NUL] + tail[1..];
      BeforeStops(d, NUL, tail[1..]);
    }
  }

  /**
   * A piece names the parameter exactly when its key does: unescaped, cut at a NUL and without the spaces around it. What
   * follows an equals sign does not count.
   */
  lemma PieceNamesItsKey(fold: Fold, a: nat, key: Bytes, b: nat, tail: Bytes, value: Option<Bytes>, name: Bytes)
    requires Core(key) && (tail == [] || tail[0] == NUL) && (value.Some? ==> Without(value.value, SEMI))
    ensures var piece := QueryEscape(Spaces(a) + key + Spaces(b) + tail) + if value.Some? then [EQUALS] + value.value else [];
            NamesQueryParam(fold, piece, name) <==> fold(key, name)
  {
    var d := Spaces(a) + key + Spaces(b) + tail;
    var e, after := QueryEscape(d), if value.Some? then [EQUALS] + value.value else [];
    EscapedIsPlain(d);
    EscapeRoundTrip(d);
    TrimsToCore(a, key, b);
    BeforeNul(Spaces(a) + key + Spaces(b), tail);
    assert d != [] && e != [] by { assert d[a] == key[0]; }
    hide QueryEscape, QueryUnescape, TrimSpaces;
    var piece := e + after;
    assert Before(piece, EQUALS) == e by {
      if value.Some? {
        assert piece == e + [EQUALS] + value.value;
        BeforeStops(e, EQUALS, value.value);
      } else {
        assert piece == e;
        BeforeStops(e, EQUALS, []);
      }
    }
    assert Without(piece, SEMI);
    SplitOfOne(piece, SEMI);
    assert piece in Split(piece, SEMI);
    assert KeyNames(fold, e, name) <==> fold(key, name);
    hide KeyNames, Before;
  }

  /** A piece is judged by its parts between semicolons, one by one. */
  lemma PartsAreJudgedAlone(fold: Fold, part: Bytes, rest: Bytes, name: Bytes)
    requires Without(part, SEMI)
    ensures NamesQueryParam(fold, part + [SEMI] + rest, name) <==> NamesQueryParam(fold, part, name) || NamesQueryParam(fold, rest, name)
  {
    SplitAfter(part, rest, SEMI);
    SplitOfOne(part, SEMI);
    hide KeyNames, Before, Split;
    var all := Split(part + [SEMI] + rest, SEMI);
    assert forall p :: p in all <==> p == part || p in Split(rest, SEMI);
    assert forall p :: p in Split(part, SEMI) <==> p == part;
  }

  /** A key that cannot be unescaped names every parameter; an empty key names none. */
  lemma BrokenKeysName(fold: Fold, key: Bytes, name: Bytes)
    requires Without(key, SEMI) && Without(key, EQUALS)
    ensures key == [] ==> !NamesQueryParam(fold, key, name)
    ensures |key| in {1, 2} && key[0] == 37 ==> NamesQueryParam(fold, key, name)
    ensures |key| > 2 && key[0] == 37 && (71 <= key[1] || key[1] < 48) && !(97 <= key[1] <= 102) ==> NamesQueryParam(fold, key, name)
  {
    SplitOfOne(key, SEMI);
    BeforeStops(key, EQUALS, []);
    assert key in Split(key, SEMI);
    hide Split, Before, TrimSpaces;
  }

  /** The appended pair is the name itself, an equals sign and a text that is read back as the value. */
  lemma PairCarriesTheValue(name: Bytes, value: Bytes)
    requires ValidQueryParam(name)
    ensures var p := Pair(name, value);
            |p| > |name| && p[..|name|] == name && p[|name|] == 61 && QueryUnescape(p[|name| + 1..]) == Some(value)
  {
    NameNeedsNoEscape(name);
    EscapeRoundTrip(value);
    hide QueryEscape, QueryUnescape;
  }

  // ---- The rewrite ----

  function Others(fold: Fold, pieces: seq<Bytes>, name: Bytes): seq<Bytes> {
    if pieces == [] then []
    else
      Others(fold, pieces[..|pieces| - 1], name)
        + if NamesQueryParam(fold, pieces[|pieces| - 1], name) then [] else [pieces[|pieces| - 1]]
  }

  /** The pieces of a query; the empty query has none. */
  function Pieces(rawQuery: Bytes): seq<Bytes> {
    if rawQuery == [] then [] else Split(rawQuery, AMP)
  }

  function Rewritten(fold: Fold, rawQuery: Bytes, name: Bytes, value: Bytes): Bytes {
    Join(Others(fold, Pieces(rawQuery), name) + [Pair(name, value)], AMP)
  }

  method WithQueryParam(fold: Fold, rawQuery: Bytes, name: Bytes, value: Bytes) returns (r: Bytes)
    ensures r == Rewritten(fold, rawQuery, name, value)
  {
    hide NamesQueryParam, Split;
    var kept: seq<Bytes> := [];
    if rawQuery != [] {
      var pieces := Split(rawQuery, AMP);
      for k := 0 to |pieces|
        invariant kept == Others(fold, pieces[..k], name)
      {
        assert pieces[..k + 1][..k] == pieces[..k];
        if !NamesQueryParam(fold, pieces[k], name) {
          kept := kept + [pieces[k]];
        }
      }
      assert pieces[..|pieces|] == pieces;
    }
    kept := kept + [QueryEscape(name) + [EQUALS] + QueryEscape(value)];
    r := Join(kept, AMP);
  }

  lemma {:induction false} OthersAreNot(fold: Fold, pieces: seq<Bytes>, name: Bytes)
    ensures forall p :: p in Others(fold, pieces, name) <==> p in pieces && !NamesQueryParam(fold, p, name)
  {
    hide NamesQueryParam;
    if pieces != [] {
      OthersAreNot(fold, pieces[..|pieces| - 1], name);
      assert pieces == pieces[..|pieces| - 1] + [pieces[|pieces| - 1]];
    }
  }

  lemma {:induction false} NothingToDrop(fold: Fold, pieces: seq<Bytes>, name: Bytes)
    ensures (forall p :: p in pieces ==> !NamesQueryParam(fold, p, name)) <==> Others(fold, pieces, name) == pieces
    ensures |Others(fold, pieces, name)| <= |pieces|
  {
    hide NamesQueryParam;
    if pieces != [] {
      var n := |pieces| - 1;
      NothingToDrop(fold, pieces[..n], name);
      assert pieces == pieces[..n] + [pieces[n]];
      if Others(fold, pieces, name) == pieces {
        assert pieces[n] in pieces;
        assert Others(fold, pieces, name)[..n] == pieces[..n];
      }
    }
  }

  /**
   * The rewritten query splits into the non-naming pieces of the old one, unchanged and in order, and one more piece,
   * which names the parameter and is the only one that does.
   */
  lemma OnePieceNames(fold: Fold, rawQuery: Bytes, name: Bytes, value: Bytes)
    requires Reflexive(fold) && ValidQueryParam(name)
    ensures var r := Rewritten(fold, rawQuery, name, value); var others := Others(fold, Pieces(rawQuery), name);
            && r != [] && Pieces(r) == others + [Pair(name, value)]
            && NamesQueryParam(fold, Pair(name, value), name)
            && forall p :: p in others ==> !NamesQueryParam(fold, p, name)
  {
    var others := Others(fold, Pieces(rawQuery), name);
    OthersAreNot(fold, Pieces(rawQuery), name);
    SplitPiecesAreClean(rawQuery, AMP);
    PairNames(fold, name, value);
    hide NamesQueryParam, Others, ValidQueryParam, QueryEscape, Split;
    SplitOfJoin(others + [Pair(name, value)], AMP);
    JoinEndsWith(others, Pair(name, value));
  }

  lemma JoinEndsWith(ps: seq<Bytes>, p: Bytes)
    requires p != []
    ensures Join(ps + [p], AMP) != []
  {
  }

  lemma {:induction false} OthersOfOthers(fold: Fold, ps: seq<Bytes>, p: Bytes, name: Bytes)
    requires (forall q :: q in ps ==> !NamesQueryParam(fold, q, name)) && NamesQueryParam(fold, p, name)
    ensures Others(fold, ps + [p], name) == ps
  {
    NothingToDrop(fold, ps, name);
    assert (ps + [p])[..|ps|] == ps;
    hide NamesQueryParam;
  }

  /** Setting it again, to the same value or another, is setting it once. */
  lemma LastWriteWins(fold: Fold, rawQuery: Bytes, name: Bytes, first: Bytes, value: Bytes)
    requires Reflexive(fold) && ValidQueryParam(name)
    ensures Rewritten(fold, Rewritten(fold, rawQuery, name, first), name, value) == Rewritten(fold, rawQuery, name, value)
  {
    OnePieceNames(fold, rawQuery, name, first);
    hide NamesQueryParam, Others, Pair, Join, ValidQueryParam, Pieces;
    OthersOfOthers(fold, Others(fold, Pieces(rawQuery), name), Pair(name, first), name);
  }

  // ---- The write gate ----

  method CheckQueryParamRule(fold: Fold, rawQuery: Bytes, isQuery: bool, param: Bytes) returns (refused: bool)
    ensures refused <==> isQuery && param != [] && Others(fold, Pieces(rawQuery), param) != Pieces(rawQuery)
  {
    if !isQuery || param == [] { return false; }
    EmptyNamesNothing(fold, param);
    NothingToDrop(fold, Pieces(rawQuery), param);
    hide NamesQueryParam, Others;
    var pieces := Split(rawQuery, AMP);
    assert rawQuery == [] ==> pieces == [[]];
    hide Split;
    for k := 0 to |pieces|
      invariant forall j :: 0 <= j < k ==> !NamesQueryParam(fold, pieces[j], param)
    {
      if NamesQueryParam(fold, pieces[k], param) {
        assert rawQuery != [] && pieces[k] in Pieces(rawQuery);
        return true;
      }
    }
    return false;
  }

  lemma EmptyNamesNothing(fold: Fold, name: Bytes)
    ensures !NamesQueryParam(fold, [], name)
  {
    assert Split([], SEMI) == [[]];
  }

  /** A query the gate lets through goes out whole: the pair is appended and no stored byte changes. */
  lemma AcceptedQueryIsKept(fold: Fold, rawQuery: Bytes, name: Bytes, value: Bytes)
    ensures Others(fold, Pieces(rawQuery), name) == Pieces(rawQuery) ==>
              Rewritten(fold, rawQuery, name, value) == (if rawQuery == [] then [] else rawQuery + [AMP]) + Pair(name, value)
  {
    if rawQuery != [] {
      JoinOfSplit(rawQuery, AMP);
      JoinAppend(Pieces(rawQuery), Pair(name, value));
    }
  }

  lemma {:induction false} JoinAppend(ps: seq<Bytes>, p: Bytes)
    requires ps != []
    ensures Join(ps + [p], AMP) == Join(ps, AMP) + [AMP] + p
    decreases |ps|
  {
    if |ps| == 1 {
      var one := [p];
      assert (ps + [p])[1..] == one;
      assert Join(one, AMP) == p;
    } else {
      assert (ps + [p])[1..] == ps[1..] + [p];
      JoinAppend(ps[1..], p);
    }
  }
}
