/**
 * The answer sanitiser applied to every generated text: `_clean_answer` in
 * RAG/app.py and `_clean` in RAG/fallback.py, whose bodies are the same
 * five steps. Each regular expression is an explicit scan:
 *   1. `<[^>]+>` becomes a space,
 *   2. every `▃` becomes a space,
 *   3. `(?i)\b(question|evidence|final answer|answer|output)\s*:\s*` becomes a space,
 *   4. every run of `\s+` becomes one space, then the ends are stripped,
 *   5. a text that still contains `answer in <digit>`, `medically accurate
 *      sentences`, `respond without citations` or `select the answer`
 *      (in any case) is blanked.
 */
module Sanitizer {
  import opened Common

  /** The separator character `▃` (U+2583) that step 2 removes. */
  const Block: char := '\U{2583}'

  /** The labels of step 3, in the order the alternation tries them. */
  const Labels: seq<string> := ["question", "evidence", "final answer", "answer", "output"]

  /** Index of the first `>` in `s`. */
  function FirstGt(s: string): (r: Option<nat>)
    ensures r.Some? ==> r.value < |s| && s[r.value] == '>'
    ensures r.Some? ==> forall i :: 0 <= i < r.value ==> s[i] != '>'
    ensures r.None? ==> '>' !in s
  {
    if s == [] then None
    else if s[0] == '>' then Some(0)
    else match FirstGt(s[1..]) {
      case Some(i) => Some(i + 1)
      case None => None
    }
  }

  /** Length of the match of `<[^>]+>` at the start of `s`, or 0 when it does not match there. */
  function TagLength(s: string): (n: nat)
    ensures n <= |s|
    ensures n > 0 ==> 3 <= n && s[0] == '<' && s[n - 1] == '>'
    ensures n > 0 ==> forall i :: 1 <= i < n - 1 ==> s[i] != '>'
    ensures s != [] && s[0] != '<' ==> n == 0
  {
    if s == [] || s[0] != '<' then 0
    else match FirstGt(s[1..]) {
      case Some(j) => if j == 0 then 0 else j + 2
      case None => 0
    }
  }

  /** Step 1: `re.sub(r"<[^>]+>", " ", s)`. */
  function StripTags(s: string): string
    decreases |s|
  {
    if s == [] then []
    else if TagLength(s) > 0 then " " + StripTags(s[TagLength(s)..])
    else [s[0]] + StripTags(s[1..])
  }

  /** Step 2: `s.replace("▃", " ")`. */
  function ReplaceBlocks(s: string): (r: string)
    ensures |r| == |s|
    ensures forall i :: 0 <= i < |s| ==> r[i] == (if s[i] == Block then ' ' else s[i])
  {
    seq(|s|, i requires 0 <= i < |s| => if s[i] == Block then ' ' else s[i])
  }

  /** A character of `\w` as the word boundary `\b` sees it: `[A-Za-z0-9_]`. */
  predicate IsWordChar(c: char) { IsAsciiLetter(c) || IsDigit(c) || c == '_' }

  /** Length of the match of `name\s*:\s*`, ignoring case, at the start of `s`, or 0. */
  function EchoOf(s: string, name: string): (n: nat)
    ensures n <= |s|
    ensures n > 0 ==> |name| < n && StartsWithIgnoringCase(s, name)
  {
    if !StartsWithIgnoringCase(s, name) then 0
    else
      var rest := s[|name|..];
      var w := LeadingSpaces(rest);
      if w < |rest| && rest[w] == ':' then |name| + w + 1 + LeadingSpaces(rest[w + 1..]) else 0
  }

  /** The alternation tried in order: the first label whose echo matches decides. */
  function EchoFrom(s: string, labels: seq<string>): (n: nat)
    ensures n <= |s|
    ensures n > 0 ==> exists l :: l in labels && |l| < n && StartsWithIgnoringCase(s, l)
  {
    if labels == [] then 0
    else if EchoOf(s, labels[0]) > 0 then EchoOf(s, labels[0])
    else EchoFrom(s, labels[1..])
  }

  /** Length of the match of step 3's pattern (without its `\b`) at the start of `s`, or 0. */
  function EchoLength(s: string): (n: nat)
    ensures n <= |s|
  {
    EchoFrom(s, Labels)
  }

  /**
   * Step 3: `re.sub(r"(?i)\b(question|evidence|final answer|answer|output)\s*:\s*", " ", s)`;
   * `afterWord` says whether the character before `s` is a word character,
   * in which case no `\b` precedes the first character of `s`.
   */
  function StripEchoes(s: string, afterWord: bool): string
    decreases |s|
  {
    if s == [] then []
    else if !afterWord && EchoLength(s) > 0 then " " + StripEchoes(s[EchoLength(s)..], false)
    else [s[0]] + StripEchoes(s[1..], IsWordChar(s[0]))
  }

  /** No whitespace but single spaces, and never two of them in a row. */
  predicate SingleSpaced(s: string) {
    (forall i :: 0 <= i < |s| && IsSpace(s[i]) ==> s[i] == ' ')
    && (forall i :: 0 <= i < |s| - 1 ==> !(IsSpace(s[i]) && IsSpace(s[i + 1])))
  }

  /** Step 4, first half: `re.sub(r"\s+", " ", s)`. */
  function Squeeze(s: string): (r: string)
    ensures SingleSpaced(r)
    ensures s == [] <==> r == []
    ensures s != [] && !IsSpace(s[0]) ==> r[0] == s[0]
    ensures forall c :: c in r ==> c in s || c == ' '
    decreases |s|
  {
    if s == [] then []
    else if IsSpace(s[0]) then " " + Squeeze(s[LeadingSpaces(s)..])
    else [s[0]] + Squeeze(s[1..])
  }

  /** Steps 1 to 4. */
  function Tidy(s: string): string {
    Strip(Squeeze(StripEchoes(ReplaceBlocks(StripTags(s)), false)))
  }

  /** One of step 5's phrases starts `s` (ignoring case). */
  predicate InstructionAt(s: string) {
    (StartsWithIgnoringCase(s, "answer in ") && |s| > 10 && IsDigit(s[10]))
    || StartsWithIgnoringCase(s, "medically accurate sentences")
    || StartsWithIgnoringCase(s, "respond without citations")
    || StartsWithIgnoringCase(s, "select the answer")
  }

  /** Step 5's `re.search`: one of the phrases occurs somewhere in `s`. */
  predicate LooksLikeInstructions(s: string)
    decreases |s|
  {
    s != [] && (InstructionAt(s) || LooksLikeInstructions(s[1..]))
  }

  /** A text with nothing left for the sanitiser to change. */
  predicate Tidied(s: string) {
    SingleSpaced(s) && (s == [] || (!IsSpace(s[0]) && !IsSpace(s[|s| - 1]))) && Block !in s
  }

  lemma SliceOfSingleSpaced(s: string, a: nat, b: nat)
    requires a <= b <= |s| && SingleSpaced(s)
    ensures SingleSpaced(s[a..b])
  {
    var t := s[a..b];
    forall i | 0 <= i < |t| - 1 ensures !(IsSpace(t[i]) && IsSpace(t[i + 1])) {
      assert t[i] == s[a + i] && t[i + 1] == s[a + i + 1];
    }
  }

  lemma {:induction false} StripEchoesKeepsCharacters(s: string, afterWord: bool, c: char)
    requires c in StripEchoes(s, afterWord)
    ensures c in s || c == ' '
    decreases |s|
  {
    if !afterWord && EchoLength(s) > 0 {
      var n := EchoLength(s);
      if c != ' ' {
        StripEchoesKeepsCharacters(s[n..], false, c);
      }
    } else if c != s[0] {
      StripEchoesKeepsCharacters(s[1..], IsWordChar(s[0]), c);
    }
  }

  lemma StripOfSingleSpaced(q: string)
    requires SingleSpaced(q) && Block !in q
    ensures Tidied(Strip(q))
  {
    var a := LeadingSpaces(q);
    var b := |q[a..]| - TrailingSpaces(q[a..]);
    assert Strip(q) == q[a..a + b];
    SliceOfSingleSpaced(q, a, a + b);
    assert forall c :: c in q[a..a + b] ==> c in q;
  }

  /** Steps 1 to 4 leave a trimmed, single-spaced text without `▃`. */
  lemma TidyIsTidied(s: string)
    ensures Tidied(Tidy(s))
  {
    var v := ReplaceBlocks(StripTags(s));
    assert Block !in v;
    var u := StripEchoes(v, false);
    forall c | c in u ensures c != Block {
      StripEchoesKeepsCharacters(v, false, c);
    }
    StripOfSingleSpaced(Squeeze(u));
  }

  /**
   * `_clean_answer(s)` (RAG/app.py) and `_clean(s)` (RAG/fallback.py): the
   * empty text stays empty; a non-empty result is trimmed, single-spaced,
   * free of `▃` and of the instruction phrases; and the result is blank
   * exactly when the input is empty, tidies to nothing, or still reads like
   * instructions after tidying.
   */
  function CleanAnswer(s: string): (r: string)
    ensures s == [] ==> r == []
    ensures r != [] ==> Tidied(r) && !LooksLikeInstructions(r)
    ensures r == [] <==> s == [] || Tidy(s) == [] || LooksLikeInstructions(Tidy(s))
    ensures r != [] ==> r == Tidy(s)
  {
    if s == [] then []
    else
      var t := Tidy(s);
      TidyIsTidied(s);
      if LooksLikeInstructions(t) then [] else t
  }

  // ---------------------------------------------------------------------------
  // Tags: each is replaced by a space wherever it occurs, and none is left.

  lemma {:induction false} FirstGtAfter(x: string, t: string)
    requires '>' !in x
    ensures FirstGt(x + ">" + t) == Some(|x|)
  {
    if x != [] {
      var y := x + ">" + t;
      assert y[0] == x[0] && y[1..] == x[1..] + ">" + t;
      FirstGtAfter(x[1..], t);
    } else {
      assert (x + ">" + t)[0] == '>';
    }
  }

  /** Step 1 on a text with a tag `<x>` after a tag-free prefix: the tag becomes one space. */
  lemma StripTagsAtTag(p: string, x: string, t: string)
    requires '<' !in p && x != [] && '>' !in x
    ensures StripTags(p + "<" + x + ">" + t) == p + " " + StripTags(t)
  {
    var tag := "<" + x + ">" + t;
    StripTagsOfTag(x, t);
    StripTagsSkipsPrefix(p, tag);
    ConcatAssoc(p, "<", x, ">", t);
  }

  lemma StripTagsOfTag(x: string, t: string)
    requires x != [] && '>' !in x
    ensures StripTags("<" + x + ">" + t) == " " + StripTags(t)
  {
    var tag := "<" + x + ">" + t;
    assert tag[0] == '<';
    assert tag[1..] == x + ">" + t;
    FirstGtAfter(x, t);
    assert TagLength(tag) == |x| + 2;
    assert tag[|x| + 2..] == t;
  }

  lemma ConcatAssoc(a: string, b: string, c: string, d: string, e: string)
    ensures a + b + c + d + e == a + (b + c + d + e)
  {
  }

  lemma StripTagsAtSpace(t: string)
    ensures StripTags(" " + t) == " " + StripTags(t)
  {
    assert (" " + t)[1..] == t;
  }

  /**
   * A tag `<x>` anywhere after a tag-free prefix is cleaned as a single
   * space in its place: the text on both sides of it is kept.
   */
  lemma TagIsReplacedBySpace(p: string, x: string, t: string)
    requires '<' !in p && x != [] && '>' !in x
    ensures CleanAnswer(p + "<" + x + ">" + t) == CleanAnswer(p + " " + t)
  {
    var s1 := p + "<" + x + ">" + t;
    var s2 := p + " " + t;
    StripTagsAtTag(p, x, t);
    StripTagsSkipsPrefix(p, " " + t);
    StripTagsAtSpace(t);
    AppendAssoc(p, " ", t);
    AppendAssoc(p, " ", StripTags(t));
    SameTagsSameAnswer(s1, s2);
  }

  /** Steps 2 to 5 see only what step 1 leaves. */
  lemma SameTagsSameAnswer(s1: string, s2: string)
    requires s1 != [] && s2 != [] && StripTags(s1) == StripTags(s2)
    ensures CleanAnswer(s1) == CleanAnswer(s2)
  {
    assert Tidy(s1) == Tidy(s2);
  }

  lemma {:induction false} StripTagsKeepsCharacters(s: string, c: char)
    requires c in StripTags(s)
    ensures c in s || c == ' '
    decreases |s|
  {
    if TagLength(s) > 0 {
      if c != ' ' {
        StripTagsKeepsCharacters(s[TagLength(s)..], c);
      }
    } else if c != s[0] {
      StripTagsKeepsCharacters(s[1..], c);
    }
  }

  lemma StripTagsKeepsHead(s: string)
    requires s != [] && TagLength(s) == 0
    ensures StripTags(s) == [s[0]] + StripTags(s[1..])
  {
  }

  /** After step 1 no `<[^>]+>` matches at any position. */
  lemma {:induction false} StripTagsLeavesNoTag(s: string)
    ensures forall i :: 0 <= i < |StripTags(s)| ==> TagLength(StripTags(s)[i..]) == 0
    decreases |s|
  {
    var r := StripTags(s);
    if s != [] {
      var n := TagLength(s);
      var tail := if n > 0 then s[n..] else s[1..];
      var r' := StripTags(tail);
      StripTagsLeavesNoTag(tail);
      assert r == [r[0]] + r';
      forall i | 0 <= i < |r| ensures TagLength(r[i..]) == 0 {
        if i > 0 {
          assert r[i..] == r'[i - 1..];
        } else if n == 0 && s[0] == '<' {
          HeadLessThanIsNoTag(s, r);
        }
      }
    }
  }

  /** A `<` that step 1 copied opens no tag in its output. */
  lemma HeadLessThanIsNoTag(s: string, r: string)
    requires s != [] && s[0] == '<' && TagLength(s) == 0 && r == StripTags(s)
    ensures TagLength(r[0..]) == 0
  {
    StripTagsKeepsHead(s);
    var r' := StripTags(s[1..]);
    assert r[0..] == r && r[0] == '<' && r[1..] == r';
    match FirstGt(s[1..]) {
      case None =>
        if '>' in r' {
          StripTagsKeepsCharacters(s[1..], '>');
        }
        assert FirstGt(r') == None;
      case Some(j) =>
        assert j == 0 && s[1] == '>';
        StripTagsKeepsHead(s[1..]);
        assert r'[0] == '>';
        assert FirstGt(r') == Some(0);
    }
  }

  // ---------------------------------------------------------------------------
  // A leading label echo is dropped and the rest is kept.

  lemma {:induction false} StripTagsSkipsPrefix(p: string, t: string)
    requires '<' !in p
    ensures StripTags(p + t) == p + StripTags(t)
  {
    if p != [] {
      var r := p[1..];
      assert p == [p[0]] + r;
      AppendAssoc([p[0]], r, t);
      StripTagsAtPlain(p[0], r + t);
      StripTagsSkipsPrefix(r, t);
      AppendAssoc([p[0]], r, StripTags(t));
    } else {
      assert p + t == t;
    }
  }

  lemma StripTagsAtPlain(c: char, t: string)
    requires c != '<'
    ensures StripTags([c] + t) == [c] + StripTags(t)
  {
    assert ([c] + t)[0] == c && ([c] + t)[1..] == t;
  }

  lemma ReplaceBlocksSkipsPrefix(p: string, t: string)
    requires Block !in p
    ensures ReplaceBlocks(p + t) == p + ReplaceBlocks(t)
  {
  }

  lemma {:induction false} LeadingSpacesAfterSpaces(a: string, x: string)
    requires forall i :: 0 <= i < |a| ==> IsSpace(a[i])
    ensures LeadingSpaces(a + x) == |a| + LeadingSpaces(x)
  {
    if a != [] {
      var y := a + x;
      assert y[0] == a[0] && y[1..] == a[1..] + x;
      assert LeadingSpaces(y) == 1 + LeadingSpaces(a[1..] + x);
      LeadingSpacesAfterSpaces(a[1..], x);
    } else {
      assert a + x == x;
    }
  }

  /** Every label starts with a lower-case letter, and no two start with the same one. */
  lemma LabelsStartDistinctly()
    ensures forall l :: l in Labels ==> |l| > 0 && 'a' <= l[0] <= 'z'
    ensures forall i, j :: 0 <= i < j < |Labels| ==> Labels[i][0] != Labels[j][0]
  {
  }

  lemma EchoStartsWithLetter(s: string)
    requires EchoLength(s) > 0
    ensures IsAsciiLetter(s[0])
  {
    LabelsStartDistinctly();
    var l :| l in Labels && |l| < EchoLength(s) && StartsWithIgnoringCase(s, l);
    assert Lower(s[..|l|])[0] == l[0];
  }

  lemma {:induction false} EchoFromSingle(s: string, labels: seq<string>, k: nat)
    requires k < |labels|
    requires forall i :: 0 <= i < |labels| && i != k ==> !StartsWithIgnoringCase(s, labels[i])
    ensures EchoFrom(s, labels) == EchoOf(s, labels[k])
  {
    if k > 0 {
      EchoFromSingle(s, labels[1..], k - 1);
    }
  }

  lemma OnlyOneLabelFits(x: string, k: nat)
    requires k < |Labels| && x != [] && LowerChar(x[0]) == Labels[k][0]
    ensures forall i :: 0 <= i < |Labels| && i != k ==> !StartsWithIgnoringCase(x, Labels[i])
  {
    LabelsStartDistinctly();
    forall i | 0 <= i < |Labels| && i != k ensures !StartsWithIgnoringCase(x, Labels[i]) {
      if StartsWithIgnoringCase(x, Labels[i]) {
        assert false;
      }
    }
  }

  lemma EchoOfMatch(p: string, a: string, b: string, v: string)
    requires forall i :: 0 <= i < |a| ==> IsSpace(a[i])
    requires forall i :: 0 <= i < |b| ==> IsSpace(b[i])
    ensures EchoOf(p + (a + (":" + (b + v))), Lower(p)) == |p| + |a| + 1 + |b| + LeadingSpaces(v)
  {
    var rest := a + (":" + (b + v));
    var x := p + rest;
    assert x[..|p|] == p;
    assert x[|p|..] == rest;
    EchoOfParts(x, Lower(p), a, b, v);
  }

  /** The echo of `name` on a text that continues with whitespace, a colon and whitespace after it. */
  lemma EchoOfParts(x: string, name: string, a: string, b: string, v: string)
    requires |name| <= |x| && Lower(x[..|name|]) == name
    requires x[|name|..] == a + (":" + (b + v))
    requires forall i :: 0 <= i < |a| ==> IsSpace(a[i])
    requires forall i :: 0 <= i < |b| ==> IsSpace(b[i])
    ensures EchoOf(x, name) == |name| + |a| + 1 + |b| + LeadingSpaces(v)
  {
    var rest := x[|name|..];
    var colon := ":" + (b + v);
    assert StartsWithIgnoringCase(x, name);
    assert colon[0] == ':' && colon[1..] == b + v;
    assert LeadingSpaces(colon) == 0;
    LeadingSpacesAfterSpaces(a, colon);
    assert LeadingSpaces(rest) == |a|;
    assert rest[|a|..] == colon;
    assert rest[|a| + 1..] == b + v;
    LeadingSpacesAfterSpaces(b, v);
  }

  /** `p`, read ignoring case, is label `Labels[k]`. */
  lemma EchoOfLabel(p: string, a: string, b: string, v: string, k: nat)
    requires k < |Labels| && Lower(p) == Labels[k]
    requires forall i :: 0 <= i < |a| ==> IsSpace(a[i])
    requires forall i :: 0 <= i < |b| ==> IsSpace(b[i])
    ensures EchoLength(p + (a + (":" + (b + v)))) == |p| + |a| + 1 + |b| + LeadingSpaces(v)
  {
    var x := p + (a + (":" + (b + v)));
    LabelsStartDistinctly();
    assert LowerChar(x[0]) == Labels[k][0] by {
      assert x[0] == p[0];
      assert Lower(p)[0] == LowerChar(p[0]);
    }
    OnlyOneLabelFits(x, k);
    EchoFromSingle(x, Labels, k);
    EchoOfMatch(p, a, b, v);
  }

  /** No label echo starts with whitespace, so the scan copies it and goes on. */
  lemma StripEchoesAtSpace(v: string)
    requires v != [] && IsSpace(v[0])
    ensures StripEchoes(v, false) == [v[0]] + StripEchoes(v[1..], false)
  {
    if EchoLength(v) > 0 {
      EchoStartsWithLetter(v);
      assert false;
    }
    assert !IsWordChar(v[0]);
  }

  lemma StripEchoesSkipsSpaces(v: string)
    ensures StripEchoes(v, false)
         == v[..LeadingSpaces(v)] + StripEchoes(v[LeadingSpaces(v)..], false)
  {
    forall u | u != [] && IsSpace(u[0])
      ensures StripEchoes(u, false) == [u[0]] + StripEchoes(u[1..], false)
    {
      StripEchoesAtSpace(u);
    }
    CopiesLeadingSpaces(u => StripEchoes(u, false), v);
  }

  /** A scan that copies a leading whitespace character and goes on copies all leading whitespace. */
  lemma {:induction false} CopiesLeadingSpaces(f: string -> string, v: string)
    requires forall u {:trigger f(u), u[0]} :: u != [] && IsSpace(u[0]) ==> f(u) == [u[0]] + f(u[1..])
    ensures f(v) == v[..LeadingSpaces(v)] + f(v[LeadingSpaces(v)..])
  {
    var n := LeadingSpaces(v);
    if v != [] && IsSpace(v[0]) {
      var m := LeadingSpaces(v[1..]);
      CopiesLeadingSpaces(f, v[1..]);
      assert v[1..][..m] == v[1..n];
      assert v[1..][m..] == v[n..];
      assert v[..n] == [v[0]] + v[1..n];
    } else {
      assert v[..n] == [] && v[n..] == v;
    }
  }

  lemma StripAfterSpace(z: string)
    requires z == [] || !IsSpace(z[0])
    ensures Strip(" " + z) == Strip(z)
  {
    var y := " " + z;
    assert y[1..] == z;
    assert LeadingSpaces(y) == 1;
    assert LeadingSpaces(z) == 0;
    assert z[0..] == z;
  }

  lemma SqueezeOfSpaces(x: string, y: string)
    requires x != [] && forall i :: 0 <= i < |x| ==> IsSpace(x[i])
    ensures Squeeze(x + y) == " " + Squeeze(y[LeadingSpaces(y)..])
  {
    LeadingSpacesAfterSpaces(x, y);
    assert (x + y)[0] == x[0];
    assert (x + y)[|x| + LeadingSpaces(y)..] == y[LeadingSpaces(y)..];
  }

  lemma SqueezeAfterSpaces(x: string, y: string)
    requires forall i :: 0 <= i < |x| ==> IsSpace(x[i])
    ensures Strip(Squeeze(x + y)) == Strip(Squeeze(y))
  {
    var w := y[LeadingSpaces(y)..];
    var z := Squeeze(w);
    assert w == [] || !IsSpace(w[0]);
    assert z == [] || !IsSpace(z[0]);
    StripAfterSpace(z);
    if y != [] && IsSpace(y[0]) {
      assert Squeeze(y) == " " + z;
    } else {
      assert w == y;
    }
    if x != [] {
      SqueezeOfSpaces(x, y);
    } else {
      assert x + y == y;
    }
  }

  lemma TidyOfEmpty()
    ensures Tidy([]) == []
  {
    assert StripTags([]) == [];
    assert ReplaceBlocks([]) == [];
  }

  lemma LabelPrefixIsPlain(p: string, a: string, b: string, k: nat)
    requires k < |Labels| && Lower(p) == Labels[k]
    requires forall i :: 0 <= i < |a| ==> IsSpace(a[i])
    requires forall i :: 0 <= i < |b| ==> IsSpace(b[i])
    ensures '<' !in p + a + ":" + b && Block !in p + a + ":" + b
  {
    var pre := p + a + ":" + b;
    forall i | 0 <= i < |pre| ensures pre[i] != '<' && pre[i] != Block {
      if i < |p| {
        assert LowerChar(p[i]) == Labels[k][i];
        assert Labels[k] in Labels;
      }
    }
  }

  /** An echo that runs up to `w` characters into `v` leaves the rest of `v` to scan. */
  lemma StripEchoesPastEcho(pre: string, v: string, w: nat)
    requires pre != [] && w <= |v| && EchoLength(pre + v) == |pre| + w
    ensures StripEchoes(pre + v, false) == " " + StripEchoes(v[w..], false)
  {
    forall u | 0 < EchoLength(u) <= |u|
      ensures StripEchoes(u, false) == " " + StripEchoes(u[EchoLength(u)..], false)
    {
      StripEchoesAtEcho(u);
    }
    JumpsPastPrefix(u => StripEchoes(u, false), EchoLength, pre, v, w);
  }

  /** A scan that replaces each match by one space and resumes after it, on a match that ends inside `v`. */
  lemma JumpsPastPrefix(f: string -> string, skip: string -> nat, pre: string, v: string, w: nat)
    requires forall u {:trigger skip(u)} :: 0 < skip(u) <= |u| ==> f(u) == " " + f(u[skip(u)..])
    requires pre != [] && w <= |v| && skip(pre + v) == |pre| + w
    ensures f(pre + v) == " " + f(v[w..])
  {
    SuffixPast(pre, v, w);
  }

  lemma StripEchoesAtEcho(x: string)
    requires EchoLength(x) > 0
    ensures StripEchoes(x, false) == " " + StripEchoes(x[EchoLength(x)..], false)
  {
  }

  lemma SuffixPast(pre: string, v: string, w: nat)
    requires w <= |v|
    ensures (pre + v)[|pre| + w..] == v[w..]
  {
  }

  /**
   * An echoed label at the start (any of the five, in any case, with any
   * whitespace around its colon) is dropped and the text after it is
   * cleaned as if the label had never been there.
   */
  lemma LabelEchoIsDropped(p: string, a: string, b: string, t: string)
    requires Lower(p) in Labels
    requires forall i :: 0 <= i < |a| ==> IsSpace(a[i])
    requires forall i :: 0 <= i < |b| ==> IsSpace(b[i])
    ensures CleanAnswer(p + a + ":" + b + t) == CleanAnswer(t)
  {
    TidyDropsLabel(p, a, b, t);
    TidyOfEmpty();
  }

  lemma TidyDropsLabel(p: string, a: string, b: string, t: string)
    requires Lower(p) in Labels
    requires forall i :: 0 <= i < |a| ==> IsSpace(a[i])
    requires forall i :: 0 <= i < |b| ==> IsSpace(b[i])
    ensures Tidy(p + a + ":" + b + t) == Tidy(t)
  {
    var v := ReplaceBlocks(StripTags(t));
    var w := LeadingSpaces(v);
    var rest := StripEchoes(v[w..], false);
    EchoStageDropsLabel(p, a, b, t);
    StripEchoesSkipsSpaces(v);
    SqueezeAfterSpaces(" ", rest);
    SqueezeAfterSpaces(v[..w], rest);
  }

  /** Steps 1 to 3 turn the echoed label into one space and scan on after its whitespace. */
  lemma EchoStageDropsLabel(p: string, a: string, b: string, t: string)
    requires Lower(p) in Labels
    requires forall i :: 0 <= i < |a| ==> IsSpace(a[i])
    requires forall i :: 0 <= i < |b| ==> IsSpace(b[i])
    ensures var v := ReplaceBlocks(StripTags(t));
      StripEchoes(ReplaceBlocks(StripTags(p + a + ":" + b + t)), false)
      == " " + StripEchoes(v[LeadingSpaces(v)..], false)
  {
    var k :| 0 <= k < |Labels| && Labels[k] == Lower(p);
    var pre := p + a + ":" + b;
    var v := ReplaceBlocks(StripTags(t));
    LabelPrefixIsPlain(p, a, b, k);
    PlainPrefixSurvives(pre, t);
    EchoOfPrefix(p, a, b, v, k);
    StripEchoesPastEcho(pre, v, LeadingSpaces(v));
  }

  /** Steps 1 and 2 leave a prefix without `<` and `▃` as it is. */
  lemma PlainPrefixSurvives(pre: string, t: string)
    requires '<' !in pre && Block !in pre
    ensures ReplaceBlocks(StripTags(pre + t)) == pre + ReplaceBlocks(StripTags(t))
  {
    StripTagsSkipsPrefix(pre, t);
    ReplaceBlocksSkipsPrefix(pre, StripTags(t));
  }

  /** `EchoOfLabel`, with the label and its colon taken as one prefix. */
  lemma EchoOfPrefix(p: string, a: string, b: string, v: string, k: nat)
    requires k < |Labels| && Lower(p) == Labels[k]
    requires forall i :: 0 <= i < |a| ==> IsSpace(a[i])
    requires forall i :: 0 <= i < |b| ==> IsSpace(b[i])
    ensures EchoLength(p + a + ":" + b + v) == |p + a + ":" + b| + LeadingSpaces(v)
  {
    assert p + (a + (":" + (b + v))) == p + a + ":" + b + v;
    EchoOfLabel(p, a, b, v, k);
  }

  // ---------------------------------------------------------------------------
  // A label echo after other text is dropped too, and the text around it is kept.

  /** Label letters are lower-case ASCII; the one space is the one inside "final answer". */
  lemma LabelCharacters()
    ensures forall l, i :: l in Labels && 0 <= i < |l| && !('a' <= l[i] <= 'z') ==> l == "final answer" && i == 5
  {
  }

  /** `u` ends with "final " in any case, so that "final answer" could run across its end. */
  predicate EndsWithFinalSpace(u: string) {
    |u| >= 6 && Lower(u[|u| - 6..]) == "final "
  }

  /** After its leading whitespace `y` does not go on with a colon. */
  predicate NoColonAfterSpaces(y: string) {
    LeadingSpaces(y) == |y| || y[LeadingSpaces(y)] != ':'
  }

  lemma {:induction false} EchoFromZero(s: string, labels: seq<string>)
    ensures EchoFrom(s, labels) == 0 <==> forall l :: l in labels ==> EchoOf(s, l) == 0
  {
    if labels != [] {
      EchoFromZero(s, labels[1..]);
      assert forall l :: l in labels <==> l == labels[0] || l in labels[1..];
    }
  }

  lemma LeadingSpacesStopsInside(r: string, y: string)
    requires LeadingSpaces(r) < |r|
    ensures LeadingSpaces(r + y) == LeadingSpaces(r)
  {
    var w := LeadingSpaces(r);
    assert r == r[..w] + r[w..];
    LeadingSpacesAfterSpaces(r[..w], r[w..] + y);
    assert r + y == r[..w] + (r[w..] + y);
    assert (r[w..] + y)[0] == r[w];
  }

  /**
   * No echo of `name` starts at `x + y` when none starts at `x`, `x` ends in
   * a non-word character other than the space of "final ", and `y` does not
   * supply a colon after whitespace.
   */
  lemma EchoOfExtends(x: string, y: string, name: string)
    requires name in Labels && EchoOf(x, name) == 0
    requires x != [] && !IsWordChar(x[|x| - 1]) && !EndsWithFinalSpace(x)
    requires NoColonAfterSpaces(y)
    ensures EchoOf(x + y, name) == 0
  {
    var s := x + y;
    if |name| <= |x| {
      assert s[..|name|] == x[..|name|];
      if StartsWithIgnoringCase(x, name) {
        var rx := x[|name|..];
        assert s[|name|..] == rx + y;
        if LeadingSpaces(rx) < |rx| {
          LeadingSpacesStopsInside(rx, y);
          assert (rx + y)[LeadingSpaces(rx)] == rx[LeadingSpaces(rx)];
        } else {
          LeadingSpacesAfterSpaces(rx, y);
          if LeadingSpaces(y) < |y| {
            assert (rx + y)[|rx| + LeadingSpaces(y)] == y[LeadingSpaces(y)];
          }
        }
      }
    } else if StartsWithIgnoringCase(s, name) {
      LongLabelSpansFinal(x, y, name);
    }
  }

  /** A label longer than `x` that matches at `x + y` must be "final answer" with `x` its "final ". */
  lemma LongLabelSpansFinal(x: string, y: string, name: string)
    requires name in Labels && x != [] && !IsWordChar(x[|x| - 1])
    requires |name| > |x| && StartsWithIgnoringCase(x + y, name)
    ensures EndsWithFinalSpace(x)
  {
    var s := x + y;
    var m := |x| - 1;
    assert Lower(s[..|name|])[m] == LowerChar(s[m]);
    assert s[m] == x[m];
    assert name[m] == x[m];
    LabelCharacters();
    assert name == "final answer" && m == 5;
    forall i | 0 <= i < 6 ensures Lower(x)[i] == "final "[i] {
      assert Lower(s[..|name|])[i] == LowerChar(x[i]);
    }
    assert x[|x| - 6..] == x;
  }

  lemma EchoLengthExtends(x: string, y: string)
    requires EchoLength(x) == 0
    requires x != [] && !IsWordChar(x[|x| - 1]) && !EndsWithFinalSpace(x)
    requires NoColonAfterSpaces(y)
    ensures EchoLength(x + y) == 0
  {
    EchoFromZero(x, Labels);
    forall l | l in Labels ensures EchoOf(x + y, l) == 0 {
      EchoOfExtends(x, y, l);
    }
    EchoFromZero(x + y, Labels);
  }

  /** What step 3 needs of a prefix to copy it: no echo at its word boundaries, and an end between words. */
  predicate CopyablePrefix(u: string, afterWord: bool) {
    EchoFree(u, afterWord) && u != [] && !IsWordChar(u[|u| - 1]) && !EndsWithFinalSpace(u)
  }

  /** Step 3 copies an echo-free prefix that ends between words and scans on after it. */
  lemma StripEchoesOverPrefix(u: string, y: string, afterWord: bool)
    requires CopyablePrefix(u, afterWord) && NoColonAfterSpaces(y)
    ensures StripEchoes(u + y, afterWord) == u + StripEchoes(y, false)
  {
    forall x, w | CopyablePrefix(x, w)
      ensures x != [] && StripEchoes(x + y, w) == [x[0]] + StripEchoes(x[1..] + y, IsWordChar(x[0]))
      ensures |x| >= 2 ==> CopyablePrefix(x[1..], IsWordChar(x[0]))
      ensures |x| == 1 ==> !IsWordChar(x[0])
    {
      CopyOneCharacter(x, y, w);
    }
    CopiesPrefix((x, w) => StripEchoes(x, w), CopyablePrefix, u, y, afterWord);
  }

  lemma CopyOneCharacter(x: string, y: string, w: bool)
    requires CopyablePrefix(x, w) && NoColonAfterSpaces(y)
    ensures StripEchoes(x + y, w) == [x[0]] + StripEchoes(x[1..] + y, IsWordChar(x[0]))
    ensures |x| >= 2 ==> CopyablePrefix(x[1..], IsWordChar(x[0]))
  {
    assert x + y == [x[0]] + (x[1..] + y);
    if !w {
      assert x[0..] == x;
      EchoLengthExtends(x, y);
    }
    StripEchoesCopies(x[0], x[1..] + y, w);
    if |x| >= 2 {
      EchoFreeTail(x, w);
    }
  }

  /** A scan that copies one character of a copyable prefix at a time copies the whole prefix. */
  lemma {:induction false} CopiesPrefix(f: (string, bool) -> string, ok: (string, bool) -> bool,
                                        u: string, y: string, w: bool)
    requires ok(u, w)
    requires forall x, v {:trigger ok(x, v)} :: ok(x, v) ==>
      && x != [] && f(x + y, v) == [x[0]] + f(x[1..] + y, IsWordChar(x[0]))
      && (|x| >= 2 ==> ok(x[1..], IsWordChar(x[0])))
      && (|x| == 1 ==> !IsWordChar(x[0]))
    ensures f(u + y, w) == u + f(y, false)
    decreases |u|
  {
    var r := u[1..];
    if |u| >= 2 {
      CopiesPrefix(f, ok, r, y, IsWordChar(u[0]));
    } else {
      assert r + y == y;
    }
    assert u == [u[0]] + r;
  }

  lemma StripEchoesCopies(c: char, rest: string, afterWord: bool)
    requires afterWord || EchoLength([c] + rest) == 0
    ensures StripEchoes([c] + rest, afterWord) == [c] + StripEchoes(rest, IsWordChar(c))
  {
    assert ([c] + rest)[0] == c && ([c] + rest)[1..] == rest;
  }

  /** What the scan needs of `u` holds of `u[1..]` after its first character. */
  lemma EchoFreeTail(u: string, afterWord: bool)
    requires EchoFree(u, afterWord) && |u| >= 2
    requires !IsWordChar(u[|u| - 1]) && !EndsWithFinalSpace(u)
    ensures var r := u[1..];
      EchoFree(r, IsWordChar(u[0])) && !IsWordChar(r[|r| - 1]) && !EndsWithFinalSpace(r)
  {
    var r := u[1..];
    forall i | 0 <= i < |r| && (if i == 0 then !IsWordChar(u[0]) else !IsWordChar(r[i - 1]))
      ensures EchoLength(r[i..]) == 0
    {
      assert r[i..] == u[i + 1..];
    }
    if |r| >= 6 {
      assert r[|r| - 6..] == u[|u| - 6..];
    }
  }

  /**
   * An echoed label after other text (any of the five, in any case, with
   * any whitespace around its colon) is cleaned as one space in its place.
   * The text before it must be free of tags, `▃` and echoes, end between
   * words and not end in "final " (else "final answer" would match across
   * the join). The text after it must not start with whitespace, a colon, a
   * tag or `▃`: otherwise the space put in the label's place could complete
   * an echo that the single pass of step 3 never saw.
   */
  lemma LabelEchoIsDroppedMidText(u: string, p: string, a: string, b: string, t: string)
    requires Lower(p) in Labels
    requires forall i :: 0 <= i < |a| ==> IsSpace(a[i])
    requires forall i :: 0 <= i < |b| ==> IsSpace(b[i])
    requires '<' !in u && Block !in u && EchoFree(u, false)
    requires u != [] && !IsWordChar(u[|u| - 1]) && !EndsWithFinalSpace(u)
    requires t == [] || (!IsSpace(t[0]) && t[0] != ':' && t[0] != '<' && t[0] != Block)
    ensures Tidy(u + p + a + ":" + b + t) == Tidy(u + " " + t)
    ensures CleanAnswer(u + p + a + ":" + b + t) == CleanAnswer(u + " " + t)
  {
    EchoStageDropsLabelMidText(u, p, a, b, t);
    EchoStageKeepsSpaceMidText(u, t);
    assert Tidy(u + p + a + ":" + b + t) == Tidy(u + " " + t);
  }

  /** Steps 1 to 3 on the label side: `u`, one space for the echo, then the scan of the rest. */
  lemma EchoStageDropsLabelMidText(u: string, p: string, a: string, b: string, t: string)
    requires Lower(p) in Labels
    requires forall i :: 0 <= i < |a| ==> IsSpace(a[i])
    requires forall i :: 0 <= i < |b| ==> IsSpace(b[i])
    requires '<' !in u && Block !in u && CopyablePrefix(u, false)
    requires t == [] || (!IsSpace(t[0]) && t[0] != '<' && t[0] != Block)
    ensures StripEchoes(ReplaceBlocks(StripTags(u + p + a + ":" + b + t)), false)
      == u + " " + StripEchoes(ReplaceBlocks(StripTags(t)), false)
  {
    var v := ReplaceBlocks(StripTags(t));
    var pre := p + a + ":" + b;
    var k :| 0 <= k < |Labels| && Labels[k] == Lower(p);
    LabelPrefixIsPlain(p, a, b, k);
    PlainStart(t);
    ConcatAssoc(u, p, a, ":", b);
    PlainPrefixSurvives(u + pre, t);
    ScanAfterLabel(u, p, a, b, v, k);
  }

  lemma ScanAfterLabel(u: string, p: string, a: string, b: string, v: string, k: nat)
    requires k < |Labels| && Lower(p) == Labels[k]
    requires forall i :: 0 <= i < |a| ==> IsSpace(a[i])
    requires forall i :: 0 <= i < |b| ==> IsSpace(b[i])
    requires CopyablePrefix(u, false) && LeadingSpaces(v) == 0
    ensures StripEchoes(u + (p + a + ":" + b) + v, false) == u + " " + StripEchoes(v, false)
  {
    var pre := p + a + ":" + b;
    EchoOfPrefix(p, a, b, v, k);
    StripEchoesPastEcho(pre, v, 0);
    assert v[0..] == v;
    LabelStartsWithLetter(p, a, b, v, k);
    StripEchoesOverPrefix(u, pre + v, false);
    AppendAssoc(u, pre, v);
    AppendAssoc(u, " ", StripEchoes(v, false));
  }

  /** Steps 1 to 3 on the space side: `u`, the space, then the same scan of the rest. */
  lemma EchoStageKeepsSpaceMidText(u: string, t: string)
    requires '<' !in u && Block !in u && CopyablePrefix(u, false)
    requires t == [] || (!IsSpace(t[0]) && t[0] != ':' && t[0] != '<' && t[0] != Block)
    ensures StripEchoes(ReplaceBlocks(StripTags(u + " " + t)), false)
      == u + " " + StripEchoes(ReplaceBlocks(StripTags(t)), false)
  {
    var v := ReplaceBlocks(StripTags(t));
    PlainStart(t);
    PlainPrefixSurvives(u + " ", t);
    ScanAfterSpace(u, v);
  }

  lemma ScanAfterSpace(u: string, v: string)
    requires CopyablePrefix(u, false)
    requires LeadingSpaces(v) == 0 && (v == [] || v[0] != ':')
    ensures StripEchoes(u + " " + v, false) == u + " " + StripEchoes(v, false)
  {
    var y := " " + v;
    SpaceBeforePlain(v);
    StripEchoesOverPrefix(u, y, false);
    StripEchoesAtSpace(y);
    assert y[1..] == v;
    AppendAssoc(u, " ", v);
    AppendAssoc(u, " ", StripEchoes(v, false));
  }

  lemma AppendAssoc(a: string, b: string, c: string)
    ensures a + b + c == a + (b + c)
  {
  }

  /** Steps 1 and 2 keep a first character that is not whitespace, `<` or `▃`. */
  lemma PlainStart(t: string)
    requires t == [] || (!IsSpace(t[0]) && t[0] != '<' && t[0] != Block)
    ensures var v := ReplaceBlocks(StripTags(t));
      LeadingSpaces(v) == 0 && (t == [] ==> v == []) && (t != [] ==> v != [] && v[0] == t[0])
  {
    if t != [] {
      StripTagsKeepsHead(t);
    }
  }

  lemma LabelStartsWithLetter(p: string, a: string, b: string, v: string, k: nat)
    requires k < |Labels| && Lower(p) == Labels[k]
    ensures NoColonAfterSpaces(p + a + ":" + b + v)
  {
    var y := p + a + ":" + b + v;
    LabelsStartDistinctly();
    assert Labels[k] in Labels;
    assert y[0] == p[0];
    assert LowerChar(p[0]) == Labels[k][0];
    assert !IsSpace(y[0]);
  }

  lemma SpaceBeforePlain(v: string)
    requires LeadingSpaces(v) == 0 && (v == [] || v[0] != ':')
    ensures NoColonAfterSpaces(" " + v)
  {
    var y := " " + v;
    assert y[1..] == v;
    assert LeadingSpaces(y) == 1;
  }

  // ---------------------------------------------------------------------------
  // A text with nothing to clean comes through unchanged.

  /** No label echo starts at any word boundary of `s`. */
  predicate EchoFree(s: string, afterWord: bool) {
    forall i :: 0 <= i < |s| && (if i == 0 then !afterWord else !IsWordChar(s[i - 1]))
      ==> EchoLength(s[i..]) == 0
  }

  lemma {:induction false} StripEchoesKeepsEchoFree(s: string, afterWord: bool)
    requires EchoFree(s, afterWord)
    ensures StripEchoes(s, afterWord) == s
  {
    if s != [] {
      assert !afterWord ==> EchoLength(s[0..]) == 0;
      assert s[0..] == s;
      forall i | 0 <= i < |s[1..]| && (if i == 0 then !IsWordChar(s[0]) else !IsWordChar(s[1..][i - 1]))
        ensures EchoLength(s[1..][i..]) == 0
      {
        assert s[1..][i..] == s[i + 1..];
      }
      StripEchoesKeepsEchoFree(s[1..], IsWordChar(s[0]));
    }
  }

  lemma {:induction false} SqueezeKeepsSingleSpaced(s: string)
    requires SingleSpaced(s)
    ensures Squeeze(s) == s
  {
    if s != [] {
      var r := s[1..];
      SliceOfSingleSpaced(s, 1, |s|);
      SqueezeKeepsSingleSpaced(r);
      if IsSpace(s[0]) {
        assert LeadingSpaces(s) == 1 by {
          if |s| > 1 { assert !IsSpace(s[1]); }
        }
        assert s[0] == ' ';
        assert Squeeze(s) == " " + Squeeze(r);
      } else {
        assert Squeeze(s) == [s[0]] + Squeeze(r);
      }
      assert s == [s[0]] + r;
    }
  }

  /**
   * A text without tags or label echoes that is already trimmed and
   * single-spaced is returned verbatim, unless it reads like instructions.
   */
  lemma CleanAnswerKeepsPlainText(t: string)
    requires '<' !in t && EchoFree(t, false) && Tidied(t)
    ensures CleanAnswer(t) == if LooksLikeInstructions(t) then [] else t
  {
    StripTagsSkipsPrefix(t, []);
    assert StripTags(t) == t by { assert t + [] == t; }
    ReplaceBlocksSkipsPrefix(t, []);
    assert ReplaceBlocks(t) == t by { assert t + [] == t; }
    StripEchoesKeepsEchoFree(t, false);
    SqueezeKeepsSingleSpaced(t);
    assert LeadingSpaces(t) == 0;
    assert TrailingSpaces(t) == 0;
    assert Tidy(t) == t;
  }

  /** A leading `Answer:` is stripped and the remaining content is preserved verbatim. */
  lemma AnswerLabelStrippedVerbatim(t: string)
    requires '<' !in t && EchoFree(t, false) && Tidied(t) && !LooksLikeInstructions(t)
    ensures CleanAnswer("Answer: " + t) == t
  {
    AnswerIsALabel();
    LabelEchoIsDropped("Answer", "", " ", t);
    CleanAnswerKeepsPlainText(t);
  }

  lemma AnswerIsALabel()
    ensures Lower("Answer") in Labels
    ensures "Answer" + "" + ":" + " " == "Answer: "
  {
    assert Lower("Answer") == "answer" by {
      assert LowerChar('A') == 'a';
    }
  }
}
