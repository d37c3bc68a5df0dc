/** Exact redaction of a text that one literal stands in, in bytes. */
module OneLiteral {
  import opened Text
  import opened RedactLiterals

  lemma CoveredThere(s: Bytes, lit: Bytes, x: nat, p: nat)
    requires CoveredBy(s, lit, p) && forall i: nat :: OccursAt(s, lit, i) ==> i == x
    ensures x <= p < x + |lit|
  {
  }

  /** A literal of eight bytes or more that stands in the text once is replaced by "[redacted]" and nothing else changes. */
  lemma OneLiteralIsReplaced(a: Bytes, lit: Bytes, b: Bytes)
    requires |lit| >= 8 && forall i: nat :: OccursAt(a + lit + b, lit, i) ==> i == |a|
    ensures Redacted(a + lit + b, [lit]) == a + [91, 114, 101, 100, 97, 99, 116, 101, 100, 93] + b
  {
    var s, x, y := a + lit + b, |a|, |a| + |lit|;
    assert s[x..y] == lit && OccursAt(s, lit, x);
    OccurrenceIsCovered(s, [lit], lit, x);
    forall p: nat | p in Coverage(s, [lit]) ensures x <= p < y {
      CoveredThere(s, lit, x, p) by { hide OccursAt, CoveredBy; }
    }
    hide Coverage, Covered, OccursAt, Redacted;
    MarkedOnce(s, Coverage(s, [lit]), x, y);
    assert s[..x] == a && s[y..] == b;
    RedactedIsMarked(s, [lit]);
  }

  lemma RedactedIsMarked(s: Bytes, literals: seq<Bytes>)
    ensures Redacted(s, literals) == Marked(s, Coverage(s, literals), |s|)
  {
  }

  lemma MarkedOnce(s: Bytes, cov: set<nat>, x: nat, y: nat)
    requires x < y <= |s| && (forall p: nat :: p in cov <==> x <= p < y)
    ensures Marked(s, cov, |s|) == s[..x] + MARKER + s[y..]
  {
    UncoveredStays(s, cov, 0, x);
    RunIsOneMarker(s, cov, x, y);
    UncoveredStays(s, cov, y, |s|);
    assert Marked(s, cov, 0) == [];
    hide Marked;
    assert s[0..x] == s[..x] && s[y..|s|] == s[y..] && [] + s[..x] == s[..x];
  }

  /** Literals shorter than eight bytes are never looked for. */
  lemma ShortLiteralsStay(s: Bytes, literals: seq<Bytes>)
    requires forall lit :: lit in literals ==> |lit| < 8
    ensures Redacted(s, literals) == s
  {
    assert Coverage(s, literals) == {};
    NothingToRedact(s, literals);
  }
}
