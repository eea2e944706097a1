/**
 * `_coverage_ratio` in RAG/app.py: how much of the question's vocabulary
 * occurs anywhere in the evidence. Tokens are the maximal runs of
 * `[A-Za-z0-9]` (`re.findall`), compared after lower-casing, as sets.
 */
module Vocabulary {
  import opened Common
  import opened Rows

  predicate IsAlnum(c: char) { IsAsciiLetter(c) || IsDigit(c) }

  /** Length of the run of `[A-Za-z0-9]` at the start of `s`. */
  function RunLength(s: string): (n: nat)
    ensures n <= |s|
    ensures forall i :: 0 <= i < n ==> IsAlnum(s[i])
    ensures n < |s| ==> !IsAlnum(s[n])
  {
    if s != [] && IsAlnum(s[0]) then 1 + RunLength(s[1..]) else 0
  }

  /** `re.findall(r"[A-Za-z0-9]+", s)`: the maximal alphanumeric runs, left to right. */
  function Tokens(s: string): (r: seq<string>)
    ensures forall t :: t in r ==> t != [] && forall i :: 0 <= i < |t| ==> IsAlnum(t[i])
    decreases |s|
  {
    if s == [] then []
    else if !IsAlnum(s[0]) then Tokens(s[1..])
    else [s[..RunLength(s)]] + Tokens(s[RunLength(s)..])
  }

  /** `{t.lower() for t in _word.findall(s)}`. */
  function Terms(s: string): set<string> {
    set t | t in Tokens(s) :: Lower(t)
  }

  /** The evidence string `" ".join(text for r in ranked)`. */
  function EvidenceText(rows: seq<Row>): string {
    Join(" ", Texts(rows))
  }

  /**
   * `_coverage_ratio(q, ranked)`: 0 when the question has no terms, otherwise
   * the share of its distinct terms that occur among the evidence terms.
   */
  function CoverageRatio(q: string, rows: seq<Row>): (r: real)
    ensures 0.0 <= r <= 1.0
    ensures Terms(q) == {} ==> r == 0.0
  {
    ShareCovered(Terms(q), Terms(EvidenceText(rows)))
  }

  /** `hits / max(1, len(q_terms))` with `hits` the question terms found among `evidence`. */
  function ShareCovered(terms: set<string>, evidence: set<string>): (r: real)
    ensures 0.0 <= r <= 1.0
    ensures terms == {} ==> r == 0.0
  {
    if terms == {} then 0.0
    else
      var hits := terms * evidence;
      SubsetCardinality(hits, terms);
      (|hits| as real) / (Max(1, |terms|) as real)
  }

  // ---------------------------------------------------------------------------
  // Tokenisation

  lemma {:induction false} NoTokensWithoutAlnum(s: string)
    ensures Tokens(s) == [] <==> forall i :: 0 <= i < |s| ==> !IsAlnum(s[i])
    decreases |s|
  {
    if s != [] {
      NoTokensWithoutAlnum(s[1..]);
      if !IsAlnum(s[0]) {
        forall i | 0 <= i < |s| && IsAlnum(s[i]) ensures 1 <= i && IsAlnum(s[1..][i - 1]) { }
      }
    }
  }

  lemma {:induction false} RunStopsAtSeparator(a: string, c: char, b: string)
    requires !IsAlnum(c)
    ensures RunLength(a + [c] + b) == RunLength(a)
  {
    if a == [] {
      assert (a + [c] + b)[0] == c;
    } else {
      assert (a + [c] + b)[0] == a[0];
      if IsAlnum(a[0]) {
        assert (a + [c] + b)[1..] == a[1..] + [c] + b;
        RunStopsAtSeparator(a[1..], c, b);
      }
    }
  }

  /** A separator splits the token list: `findall(a + c + b) == findall(a) + findall(b)`. */
  lemma {:induction false} TokensSplitAtSeparator(a: string, c: char, b: string)
    requires !IsAlnum(c)
    ensures Tokens(a + [c] + b) == Tokens(a) + Tokens(b)
    decreases |a|
  {
    var s := a + [c] + b;
    if a == [] {
      assert s[0] == c && s[1..] == b;
    } else if !IsAlnum(a[0]) {
      assert s[0] == a[0] && s[1..] == a[1..] + [c] + b;
      TokensSplitAtSeparator(a[1..], c, b);
    } else {
      var n := RunLength(a);
      RunStopsAtSeparator(a, c, b);
      assert s[0] == a[0];
      assert s[..n] == a[..n];
      assert s[n..] == a[n..] + [c] + b;
      TokensSplitAtSeparator(a[n..], c, b);
    }
  }

  lemma TermsSplitAtSpace(a: string, b: string)
    ensures Terms(a + " " + b) == Terms(a) + Terms(b)
  {
    TokensSplitAtSeparator(a, ' ', b);
    assert a + " " + b == a + [' '] + b;
  }

  lemma {:induction false} RunLengthOfLower(s: string)
    ensures RunLength(Lower(s)) == RunLength(s)
  {
    if s != [] {
      assert Lower(s)[1..] == Lower(s[1..]);
      RunLengthOfLower(s[1..]);
    }
  }

  /** Lower-casing the text lower-cases each token and keeps their number and order. */
  lemma {:induction false} TokensOfLower(s: string)
    ensures |Tokens(Lower(s))| == |Tokens(s)|
    ensures forall i :: 0 <= i < |Tokens(s)| ==> Tokens(Lower(s))[i] == Lower(Tokens(s)[i])
    decreases |s|
  {
    if s != [] {
      var l := Lower(s);
      if !IsAlnum(s[0]) {
        assert l[1..] == Lower(s[1..]);
        TokensOfLower(s[1..]);
      } else {
        var n := RunLength(s);
        RunLengthOfLower(s);
        assert l[..n] == Lower(s[..n]);
        assert l[n..] == Lower(s[n..]);
        TokensOfLower(s[n..]);
      }
    }
  }

  lemma TermsOfLower(s: string)
    ensures Terms(Lower(s)) == Terms(s)
  {
    TokensOfLower(s);
    var ts, ls := Tokens(s), Tokens(Lower(s));
    forall t | t in Terms(Lower(s)) ensures t in Terms(s) {
      var u :| u in ls && t == Lower(u);
      var i :| 0 <= i < |ls| && ls[i] == u;
      LowerIsIdempotent(ts[i]);
    }
    forall t | t in Terms(s) ensures t in Terms(Lower(s)) {
      var u :| u in ts && t == Lower(u);
      var i :| 0 <= i < |ts| && ts[i] == u;
      LowerIsIdempotent(u);
      assert ls[i] in ls;
    }
  }

  /** The terms of the evidence string are the terms of the row texts taken together. */
  lemma {:induction false} EvidenceTermsAreUnion(rows: seq<Row>)
    ensures Terms(EvidenceText(rows)) == set r, t | r in rows && t in Terms(r.text) :: t
  {
    if |rows| == 1 {
      assert Texts(rows) == [rows[0].text];
    } else if |rows| > 1 {
      var rest := rows[1..];
      assert Texts(rows) == [rows[0].text] + Texts(rest);
      assert Texts(rows)[1..] == Texts(rest);
      EvidenceTermsAreUnion(rest);
      TermsSplitAtSpace(rows[0].text, EvidenceText(rest));
      assert EvidenceText(rows) == rows[0].text + " " + EvidenceText(rest);
      assert forall r :: r in rows <==> r == rows[0] || r in rest;
    }
  }

  // ---------------------------------------------------------------------------
  // Properties of the ratio

  /** A question without an alphanumeric character has coverage 0. */
  lemma CoverageWithoutAlnum(q: string, rows: seq<Row>)
    requires forall i :: 0 <= i < |q| ==> !IsAlnum(q[i])
    ensures CoverageRatio(q, rows) == 0.0
  {
    NoTokensWithoutAlnum(q);
  }

  /** Coverage is 1 exactly when the question has terms and every one of them occurs in the evidence. */
  lemma CoverageIsOneIffAllTermsCovered(q: string, rows: seq<Row>)
    ensures CoverageRatio(q, rows) == 1.0
        <==> Terms(q) != {} && Terms(q) <= Terms(EvidenceText(rows))
  {
    ShareCoveredIsOne(Terms(q), Terms(EvidenceText(rows)));
  }

  /** The share is 1 exactly when there are terms and the evidence holds them all. */
  lemma ShareCoveredIsOne(terms: set<string>, evidence: set<string>)
    ensures ShareCovered(terms, evidence) == 1.0 <==> terms != {} && terms <= evidence
  {
    if terms != {} {
      var hits := terms * evidence;
      SubsetCardinality(hits, terms);
      assert Max(1, |terms|) == |terms|;
      QuotientIsOne(|hits| as real, |terms| as real);
      assert hits == terms <==> terms <= evidence;
    }
  }

  lemma QuotientIsOne(h: real, t: real)
    requires t > 0.0
    ensures h / t == 1.0 <==> h == t
  {
    if h / t == 1.0 {
      assert h == (h / t) * t;
    }
  }

  /** Coverage depends on the question only through its set of lower-cased terms. */
  lemma CoverageIsCaseInsensitive(q: string, rows: seq<Row>)
    ensures CoverageRatio(Lower(q), rows) == CoverageRatio(q, rows)
  {
    TermsOfLower(q);
  }

  /** Swapping two parts of the question does not change the coverage. */
  lemma CoverageIgnoresQuestionOrder(a: string, b: string, rows: seq<Row>)
    ensures CoverageRatio(a + " " + b, rows) == CoverageRatio(b + " " + a, rows)
  {
    TermsSplitAtSpace(a, b);
    TermsSplitAtSpace(b, a);
    SameTermsSameCoverage(a + " " + b, b + " " + a, rows);
  }

  /** Repeating the question does not change the coverage. */
  lemma CoverageIgnoresRepetition(q: string, rows: seq<Row>)
    ensures CoverageRatio(q + " " + q, rows) == CoverageRatio(q, rows)
  {
    TermsSplitAtSpace(q, q);
    SameTermsSameCoverage(q + " " + q, q, rows);
  }

  lemma SameTermsSameCoverage(q: string, p: string, rows: seq<Row>)
    requires Terms(q) == Terms(p)
    ensures CoverageRatio(q, rows) == CoverageRatio(p, rows)
  {
  }

  /** Reordering or repeating the evidence rows does not change the coverage. */
  lemma CoverageIgnoresEvidenceOrder(q: string, rows: seq<Row>, others: seq<Row>)
    requires forall r :: r in rows <==> r in others
    ensures CoverageRatio(q, rows) == CoverageRatio(q, others)
  {
    EvidenceTermsAreUnion(rows);
    EvidenceTermsAreUnion(others);
    var e1 := Terms(EvidenceText(rows));
    var e2 := Terms(EvidenceText(others));
    forall t | t in e1 ensures t in e2 {
      var r :| r in rows && t in Terms(r.text);
      assert r in others;
    }
    forall t | t in e2 ensures t in e1 {
      var r :| r in others && t in Terms(r.text);
      assert r in rows;
    }
    assert e1 == e2;
  }
}
