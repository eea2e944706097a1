/**
 * The older `/ml/qa` handler of app.py: retrieve, rerank and cut to `k`, ask
 * the language model once, fall back to an extract of the top passages,
 * label the confidence, warn below the safety threshold, and cite every
 * ranked row. Unlike RAG/app.py it catches only the language model's
 * failure: a failing retrieval, rerank or confidence makes the handler raise.
 */
module LegacyQa {
  import opened Common
  import opened Rows
  import opened Scoring
  import opened Llm

  /** app.py's `QARequest`; the defaults are `k = 6`, `alpha = 0.65`, `blend_ce = 1.0`. */
  datatype LegacyRequest = LegacyRequest(q: string, k: int, alpha: real, blendCe: real)

  /** A citation record; the pass-through keys `source`, `patient_id`, `encounter_id`, `code`, `ts` are not modelled. */
  datatype Citation = Citation(ref: string, docId: Option<string>, score: real, snippet: string)

  /** The JSON reply; the echoed request fields, the answer, the confidence and the citations. */
  datatype LegacyReply = LegacyReply(
    q: string, k: int, alpha: real, blendCe: real,
    answerText: string, confidence: real, citations: seq<Citation>)

  /**
   * The handler's collaborators: the retriever, the scoring models, the
   * language model, whether one is configured, and `f"{conf:.2f}"`.
   */
  datatype LegacyServices = LegacyServices(
    candidates: (string, int, real, real) -> Outcome<seq<Row>>,
    models: Models,
    llm: Completion,
    llmConfigured: bool,
    twoDecimals: real -> string)

  const HighBand: real := 0.75
  const MediumBand: real := 0.55
  const SafetyThreshold: real := 0.58
  const ExtractRows: int := 3
  const ExtractChars: int := 180
  const SnippetChars: int := 280

  // ---------------------------------------------------------------------------
  // The confidence level.

  function Label(conf: real): string {
    if conf >= HighBand then "High" else if conf >= MediumBand then "Medium" else "Low"
  }

  /** The three bands partition the confidence scale at 0.55 and 0.75. */
  lemma LabelBands(conf: real)
    ensures Label(conf) == "High" <==> conf >= 0.75
    ensures Label(conf) == "Medium" <==> 0.55 <= conf < 0.75
    ensures Label(conf) == "Low" <==> conf < 0.55
  {
  }

  // ---------------------------------------------------------------------------
  // The extractive answer.

  /** The first three ranked texts, each cut to 180 characters. */
  function ExtractParts(ranked: seq<Row>): (parts: seq<string>)
    ensures |parts| == Min(3, |ranked|)
    ensures forall i :: 0 <= i < |parts| ==> parts[i] == Take(ranked[i].text, ExtractChars)
  {
    var top := Take(ranked, ExtractRows);
    seq(|top|, i requires 0 <= i < |top| => Take(top[i].text, ExtractChars))
  }

  /** `" ".join(r["text"][:180] for r in ranked[:3])`. */
  function Extract(ranked: seq<Row>): string {
    Join(" ", ExtractParts(ranked))
  }

  lemma {:induction false} JoinLength(sep: string, parts: seq<string>, n: nat)
    requires forall i :: 0 <= i < |parts| ==> |parts[i]| <= n
    ensures |Join(sep, parts)| <= |parts| * (n + |sep|)
  {
    if |parts| > 1 {
      JoinLength(sep, parts[1..], n);
    }
  }

  /** The extract holds at most three pieces of at most 180 characters, so it stays within 3 × 181 characters. */
  lemma ExtractIsShort(ranked: seq<Row>)
    ensures |Extract(ranked)| <= 3 * (ExtractChars + 1)
    ensures ranked == [] ==> Extract(ranked) == ""
  {
    var parts := ExtractParts(ranked);
    JoinLength(" ", parts, ExtractChars);
    assert |parts| * (ExtractChars + 1) <= 3 * (ExtractChars + 1);
  }

  // ---------------------------------------------------------------------------
  // The confidence marker: `(?i)\*\*Confidence.*?\*\*:` and its rewrite
  // `(?i)\*\*Confidence.*?\*\*:\s*(High|Medium|Low)`. `.` matches anything
  // but a newline; `.*?` takes the shortest stretch that lets the rest match.

  /** Length of `(High|Medium|Low)`, in any case, at the start of `s`, or 0. */
  function ValueLength(s: string): (n: nat)
    ensures n <= |s|
  {
    if StartsWithIgnoringCase(s, "high") then 4
    else if StartsWithIgnoringCase(s, "medium") then 6
    else if StartsWithIgnoringCase(s, "low") then 3
    else 0
  }

  /** Whether `\s*(High|Medium|Low)` matches at the start of `s`, and its length. */
  function ValueAfter(s: string): (r: Option<nat>)
    ensures r.Some? ==> r.value <= |s|
  {
    var w := LeadingSpaces(s);
    if ValueLength(s[w..]) > 0 then Some(w + ValueLength(s[w..])) else None
  }

  /**
   * The end of the shortest match of `.*?\*\*:` (followed by a value when
   * `valued`) that starts at position `j` of `s`, or `None`.
   */
  function LazyEnd(s: string, j: nat, valued: bool): (r: Option<nat>)
    requires j <= |s|
    ensures r.Some? ==> j + 3 <= r.value <= |s|
    decreases |s| - j
  {
    if StartsWithIgnoringCase(s[j..], "**:") && (!valued || ValueAfter(s[j + 3..]).Some?) then
      Some(if valued then j + 3 + ValueAfter(s[j + 3..]).value else j + 3)
    else if j < |s| && s[j] != '\n' then LazyEnd(s, j + 1, valued)
    else None
  }

  /** The match of the marker (with a value when `valued`) at the start of `s`. */
  function MarkerMatch(s: string, valued: bool): (r: Option<nat>)
    ensures r.Some? ==> 15 <= r.value <= |s|
  {
    if StartsWithIgnoringCase(s, "**confidence") then LazyEnd(s, 12, valued) else None
  }

  /** `re.search(r"(?i)\*\*Confidence.*?\*\*:", s)` finds something. */
  predicate HasMarker(s: string)
    decreases |s|
  {
    s != [] && (MarkerMatch(s, false).Some? || HasMarker(s[1..]))
  }

  /** Some marker in `s` is followed by a value, so the rewrite finds something. */
  predicate HasValuedMarker(s: string)
    decreases |s|
  {
    s != [] && (MarkerMatch(s, true).Some? || HasValuedMarker(s[1..]))
  }

  /** `re.sub(...)`: every marker followed by a value, left to right, becomes `repl`. */
  function RewriteMarkers(s: string, repl: string): string
    decreases |s|
  {
    if s == [] then []
    else match MarkerMatch(s, true)
      case Some(n) => repl + RewriteMarkers(s[n..], repl)
      case None => [s[0]] + RewriteMarkers(s[1..], repl)
  }

  function LabelLine(level: string): string {
    "**Confidence Level:** " + level
  }

  /** Rewrite an existing marker, or append the label line when there is none. */
  function Annotate(answer: string, level: string): string {
    if HasMarker(answer) then RewriteMarkers(answer, LabelLine(level))
    else answer + "\n\n" + LabelLine(level)
  }

  /** The safety warning, with the confidence written to two decimals. */
  function Warning(conf: real, level: string, twoDecimals: real -> string): string {
    "\n\n\U{26A0}\U{FE0F} Model confidence **" + twoDecimals(conf) + " (" + level
      + ")** is below the safety threshold. Please verify with external clinical sources."
  }

  predicate OccursAt(t: string, s: string, i: int) {
    0 <= i <= |s| - |t| && s[i..i + |t|] == t
  }

  /** `t` occurs somewhere in `s`. */
  predicate Occurs(t: string, s: string) {
    exists i :: 0 <= i <= |s| - |t| && OccursAt(t, s, i)
  }

  lemma {:induction false} ValuedMatchIsMatch(s: string, j: nat)
    requires j <= |s| && LazyEnd(s, j, true).Some?
    ensures LazyEnd(s, j, false).Some?
    decreases |s| - j
  {
    if !(StartsWithIgnoringCase(s[j..], "**:") && ValueAfter(s[j + 3..]).Some?) {
      ValuedMatchIsMatch(s, j + 1);
    }
  }

  lemma {:induction false} ValuedMarkerIsMarker(s: string)
    requires HasValuedMarker(s)
    ensures HasMarker(s)
    decreases |s|
  {
    if MarkerMatch(s, true).Some? {
      ValuedMatchIsMatch(s, 12);
    } else {
      ValuedMarkerIsMarker(s[1..]);
    }
  }

  lemma {:induction false} RewritePutsReplacement(s: string, repl: string)
    requires HasValuedMarker(s)
    ensures Occurs(repl, RewriteMarkers(s, repl))
    decreases |s|
  {
    var r := RewriteMarkers(s, repl);
    if MarkerMatch(s, true).Some? {
      assert OccursAt(repl, r, 0);
    } else {
      RewritePutsReplacement(s[1..], repl);
      var rest := RewriteMarkers(s[1..], repl);
      var i :| 0 <= i <= |rest| - |repl| && OccursAt(repl, rest, i);
      assert r == [s[0]] + rest;
      assert r[i + 1..i + 1 + |repl|] == rest[i..i + |repl|];
      assert OccursAt(repl, r, i + 1);
    }
  }

  lemma {:induction false} RewriteWithoutValuedMarker(s: string, repl: string)
    requires !HasValuedMarker(s)
    ensures RewriteMarkers(s, repl) == s
    decreases |s|
  {
    if s != [] {
      RewriteWithoutValuedMarker(s[1..], repl);
    }
  }

  /**
   * The computed level reaches the answer whenever the answer has no marker
   * (the level line is appended) or has a marker followed by a value (the
   * marker and its value are replaced by the level line).
   */
  lemma LabelIsShown(answer: string, level: string)
    requires !HasMarker(answer) || HasValuedMarker(answer)
    ensures Occurs(LabelLine(level), Annotate(answer, level))
  {
    var line := LabelLine(level);
    if HasMarker(answer) {
      RewritePutsReplacement(answer, line);
    } else {
      var r := answer + "\n\n" + line;
      assert r[|r| - |line|..|r|] == line;
      assert OccursAt(line, r, |r| - |line|);
    }
  }

  /** A marker that no value follows is left as it is, and no level line is added. */
  lemma ValuelessMarkerHidesLabel(answer: string, level: string)
    requires HasMarker(answer) && !HasValuedMarker(answer)
    ensures Annotate(answer, level) == answer
  {
    RewriteWithoutValuedMarker(answer, LabelLine(level));
  }

  lemma {:induction false} ShortTextHasNoValuedMarker(s: string)
    requires |s| < 12
    ensures !HasValuedMarker(s)
    decreases |s|
  {
    if s != [] {
      ShortTextHasNoValuedMarker(s[1..]);
    }
  }

  /** An answer with a bare marker: `**Confidence**:` and nothing after it. */
  const BareMarker: string := "**Confidence**:"

  lemma BareMarkerStartsAMarker()
    ensures StartsWithIgnoringCase(BareMarker, "**confidence")
  {
    assert BareMarker[..12] == "**Confidence";
    assert Lower("**Confidence") == "**confidence";
  }

  lemma BareMarkerHasMarker()
    ensures HasMarker(BareMarker)
  {
    BareMarkerStartsAMarker();
    assert BareMarker[12..][..3] == "**:";
    assert MarkerMatch(BareMarker, false) == Some(15);
  }

  lemma BareMarkerHasNoValue()
    ensures MarkerMatch(BareMarker, true).None?
  {
    var a := BareMarker;
    assert LazyEnd(a, 15, true).None? by {
      assert a[15..] == "";
    }
    assert LazyEnd(a, 14, true).None? by {
      assert a[14..] == ":";
      assert a[14] == ':';
    }
    assert LazyEnd(a, 13, true).None? by {
      assert a[13..] == "*:";
      assert a[13] == '*';
    }
    assert LazyEnd(a, 12, true).None? by {
      assert a[15..] == "";
      assert ValueAfter(a[15..]).None?;
      assert a[12] == '*';
    }
  }

  lemma MismatchAt(s: string, lit: string, i: nat)
    requires i < |lit| && i < |s| && LowerChar(s[i]) != lit[i]
    ensures !StartsWithIgnoringCase(s, lit)
  {
    if |lit| <= |s| {
      assert Lower(s[..|lit|])[i] != lit[i];
    }
  }

  lemma BareMarkerHasNoValuedMarker()
    ensures !HasValuedMarker(BareMarker)
  {
    var a := BareMarker;
    BareMarkerHasNoValue();
    var b, c, d := a[1..], a[2..], a[3..];
    assert b[1] == 'C' && c[0] == 'C' && d[0] == 'o';
    MismatchAt(b, "**confidence", 1);
    MismatchAt(c, "**confidence", 0);
    MismatchAt(d, "**confidence", 0);
    ShortTextHasNoValuedMarker(a[4..]);
    assert d[1..] == a[4..] && c[1..] == d && b[1..] == c;
    assert !HasValuedMarker(d);
    assert !HasValuedMarker(c);
    assert !HasValuedMarker(b);
  }

  /**
   * Such answers exist: `**Confidence**:` has a marker but no value, so the
   * answer keeps no label at all, whatever the confidence.
   */
  lemma ValuelessMarkerExample(level: string)
    ensures HasMarker(BareMarker) && !HasValuedMarker(BareMarker)
    ensures Annotate(BareMarker, level) == BareMarker
    ensures !Occurs(LabelLine(level), Annotate(BareMarker, level))
  {
    BareMarkerHasMarker();
    BareMarkerHasNoValuedMarker();
    ValuelessMarkerHidesLabel(BareMarker, level);
  }

  // ---------------------------------------------------------------------------
  // Citations.

  /** `r.get("snippet", r["text"][:280])`. */
  function SnippetOf(r: Row): string {
    if r.snippet.Some? then r.snippet.value else Take(r.text, SnippetChars)
  }

  /**
   * The citation loop: one record per ranked row, in rank order, labelled
   * `"[i+1]"`, scored by `_final`, else `_ce`, else `score`, else 0.0.
   */
  method Cite(ranked: seq<Row>) returns (citations: seq<Citation>)
    ensures citations == Citations(ranked)
  {
    citations := [];
    for i := 0 to |ranked|
      invariant citations == Citations(ranked[..i])
    {
      var r := ranked[i];
      assert ranked[..i + 1] == ranked[..i] + [r];
      citations := citations + [Citation("[" + NatToString(i + 1) + "]", r.docId, ChainScore(r), SnippetOf(r))];
    }
    assert ranked[..|ranked|] == ranked;
  }

  function Citations(ranked: seq<Row>): (c: seq<Citation>)
    ensures |c| == |ranked|
    ensures forall i :: 0 <= i < |ranked| ==>
      c[i] == Citation("[" + NatToString(i + 1) + "]", ranked[i].docId, ChainScore(ranked[i]), SnippetOf(ranked[i]))
  {
    seq(|ranked|, i requires 0 <= i < |ranked| =>
      Citation("[" + NatToString(i + 1) + "]", ranked[i].docId, ChainScore(ranked[i]), SnippetOf(ranked[i])))
  }

  /** The cited scores follow the rerank order: non-increasing whenever every row carries `_final`. */
  lemma CitationsFollowRank(ranked: seq<Row>)
    requires DescendingByFinal(ranked)
    ensures forall i, j :: 0 <= i < j < |ranked| ==> Citations(ranked)[i].score >= Citations(ranked)[j].score
  {
  }

  // ---------------------------------------------------------------------------
  // The handler.

  /** The reranked candidates cut to `k`, or `Raised` when retrieval or reranking raised. */
  function LegacyRanked(req: LegacyRequest, svc: LegacyServices): (r: Outcome<seq<Row>>)
    requires WellBehaved(svc.models)
    ensures r.Returned? && req.k >= 0 ==> |r.value| <= req.k
  {
    match svc.candidates(req.q, Max(req.k, 12), req.alpha, req.blendCe)
    case Raised => Raised
    case Returned(cands) =>
      match Reranked(req.q, cands, req.blendCe, 1000, svc.models)
      case Raised => Raised
      case Returned(sorted) => Returned(Take(sorted, req.k))
  }

  function LegacyPrompt(req: LegacyRequest, ranked: seq<Row>): Prompt {
    Legacy(req.q, seq(|ranked|, i requires 0 <= i < |ranked| => Take(ranked[i].text, 350)))
  }

  /** The stripped model answer; `""` when no model is configured or the call raised. */
  function Generated(req: LegacyRequest, svc: LegacyServices, ranked: seq<Row>): string {
    if !svc.llmConfigured then ""
    else match svc.llm(LegacyPrompt(req, ranked))
      case Raised => ""
      case Returned(text) => Strip(text)
  }

  /** The answer before labelling: the model's, or the extract when that is empty. */
  function BaseAnswer(req: LegacyRequest, svc: LegacyServices, ranked: seq<Row>): string {
    var a := Generated(req, svc, ranked);
    if a != "" then a else Extract(ranked)
  }

  /** The labelled answer, with the warning appended below the safety threshold. */
  function AnswerText(answer: string, conf: real, twoDecimals: real -> string): string {
    var labelled := Annotate(answer, Label(conf));
    if conf < SafetyThreshold then labelled + Warning(conf, Label(conf), twoDecimals) else labelled
  }

  /** What `ml_qa` returns, or `Raised` when retrieval, reranking or the confidence raised. */
  function LegacyQaReply(req: LegacyRequest, svc: LegacyServices): Outcome<LegacyReply>
    requires WellBehaved(svc.models)
  {
    match LegacyRanked(req, svc)
    case Raised => Raised
    case Returned(ranked) => ReplyFor(req, svc, ranked)
  }

  /** The reply built from the ranked rows, or `Raised` when the confidence raised. */
  function ReplyFor(req: LegacyRequest, svc: LegacyServices, ranked: seq<Row>): Outcome<LegacyReply>
    requires WellBehaved(svc.models)
  {
    var answer := BaseAnswer(req, svc, ranked);
    match Confidence(req.q, answer, ranked, req.k, DefaultWeights, svc.models)
    case Raised => Raised
    case Returned(conf) =>
      Returned(LegacyReply(req.q, req.k, req.alpha, req.blendCe,
        AnswerText(answer, conf, svc.twoDecimals), conf, Citations(ranked)))
  }

  /** The prompts sent: the one prompt when a model is configured and the ranking succeeded. */
  function LegacyPrompts(req: LegacyRequest, svc: LegacyServices): seq<Prompt>
    requires WellBehaved(svc.models)
  {
    match LegacyRanked(req, svc)
    case Raised => []
    case Returned(ranked) => if svc.llmConfigured then [LegacyPrompt(req, ranked)] else []
  }

  /** Retrieve with `max(k, 12)`, rerank, cut to `k`; either call raising makes the handler raise. */
  method Rank(req: LegacyRequest, svc: LegacyServices) returns (ranked: Outcome<seq<Row>>)
    requires WellBehaved(svc.models)
    ensures ranked == LegacyRanked(req, svc)
  {
    var cands: seq<Row>;
    match svc.candidates(req.q, Max(req.k, 12), req.alpha, req.blendCe) {
      case Raised => return Raised;
      case Returned(c) => cands := c;
    }
    var reranked, _ := Rerank(req.q, cands, req.blendCe, 1000, svc.models);
    if reranked.Raised? {
      return Raised;
    }
    ranked := Returned(Take(reranked.value, req.k));
  }

  /** Ask the model when one is configured, and fall back to the extract when the answer is empty. */
  method Answer(req: LegacyRequest, svc: LegacyServices, ranked: seq<Row>) returns (answer: string, prompts: seq<Prompt>)
    ensures answer == BaseAnswer(req, svc, ranked)
    ensures prompts == if svc.llmConfigured then [LegacyPrompt(req, ranked)] else []
  {
    answer := "";
    prompts := [];
    if svc.llmConfigured {
      var prompt := LegacyPrompt(req, ranked);
      prompts := [prompt];
      match svc.llm(prompt) {
        case Raised => answer := "";
        case Returned(text) => answer := Strip(text);
      }
    }
    if answer == "" {
      answer := Extract(ranked);
    }
  }

  /** Label the answer (rewrite or append) and append the warning below the threshold. */
  method LabelAnswer(answer: string, conf: real, twoDecimals: real -> string) returns (text: string)
    ensures text == AnswerText(answer, conf, twoDecimals)
  {
    var level := Label(conf);
    text := answer;
    if HasMarker(text) {
      text := RewriteMarkers(text, LabelLine(level));
    } else {
      text := text + "\n\n" + LabelLine(level);
    }
    if conf < SafetyThreshold {
      text := text + Warning(conf, level, twoDecimals);
    }
  }

  /** `ml_qa(req)`: the reply, or `Raised`, and the prompts sent. */
  method LegacyMlQa(req: LegacyRequest, svc: LegacyServices) returns (reply: Outcome<LegacyReply>, prompts: seq<Prompt>)
    requires WellBehaved(svc.models)
    ensures reply == LegacyQaReply(req, svc)
    ensures prompts == LegacyPrompts(req, svc)
  {
    var ranked := Rank(req, svc);
    if ranked.Raised? {
      return Raised, [];
    }
    reply, prompts := Respond(req, svc, ranked.value);
  }

  /** Answer, score, label and cite, once the rows are ranked. */
  method Respond(req: LegacyRequest, svc: LegacyServices, ranked: seq<Row>) returns (reply: Outcome<LegacyReply>, prompts: seq<Prompt>)
    requires WellBehaved(svc.models)
    ensures reply == ReplyFor(req, svc, ranked)
    ensures prompts == if svc.llmConfigured then [LegacyPrompt(req, ranked)] else []
  {
    var answer;
    answer, prompts := Answer(req, svc, ranked);
    var scored := Confidence(req.q, answer, ranked, req.k, DefaultWeights, svc.models);
    if scored.Raised? {
      return Raised, prompts;
    }
    var text := LabelAnswer(answer, scored.value, svc.twoDecimals);
    var citations := Cite(ranked);
    reply := Returned(LegacyReply(req.q, req.k, req.alpha, req.blendCe, text, scored.value, citations));
  }

  // ---------------------------------------------------------------------------
  // What the handler promises.

  /**
   * When the model gives nothing (none configured, the call raised, or only
   * whitespace), the answer is the extract of the top three passages;
   * otherwise it is the model's stripped text.
   */
  lemma ExtractWhenModelSilent(req: LegacyRequest, svc: LegacyServices, ranked: seq<Row>)
    ensures Generated(req, svc, ranked) == "" ==> BaseAnswer(req, svc, ranked) == Extract(ranked)
    ensures Generated(req, svc, ranked) != "" ==> BaseAnswer(req, svc, ranked) == Generated(req, svc, ranked)
    ensures !svc.llmConfigured ==> BaseAnswer(req, svc, ranked) == Extract(ranked)
    ensures svc.llmConfigured && svc.llm(LegacyPrompt(req, ranked)).Raised? ==> BaseAnswer(req, svc, ranked) == Extract(ranked)
  {
  }

  /**
   * The reply's text ends with the safety warning exactly when the confidence
   * is below 0.58, and the warning then carries the level `Medium` or `Low`;
   * the confidence it reports lies in [0, 1] and the request is echoed.
   */
  lemma WarningBelowThreshold(req: LegacyRequest, svc: LegacyServices)
    requires WellBehaved(svc.models) && LegacyQaReply(req, svc).Returned?
    ensures var r := LegacyQaReply(req, svc).value;
      var ranked := LegacyRanked(req, svc).value;
      var labelled := Annotate(BaseAnswer(req, svc, ranked), Label(r.confidence));
      && 0.0 <= r.confidence <= 1.0
      && (r.confidence < 0.58 ==> r.answerText == labelled + Warning(r.confidence, Label(r.confidence), svc.twoDecimals)
                                  && Label(r.confidence) != "High")
      && (r.confidence >= 0.58 ==> r.answerText == labelled)
      && r.q == req.q && r.k == req.k && r.alpha == req.alpha && r.blendCe == req.blendCe
  {
    var ranked := LegacyRanked(req, svc).value;
    var answer := BaseAnswer(req, svc, ranked);
    assert ReplyFor(req, svc, ranked).Returned?;
    var c := Confidence(req.q, answer, ranked, req.k, DefaultWeights, svc.models);
    assert c.Returned?;
    var r := LegacyQaReply(req, svc).value;
    assert r.confidence == c.value && r.answerText == AnswerText(answer, c.value, svc.twoDecimals);
    AnswerTextBands(answer, c.value, svc.twoDecimals);
  }

  /** Below the threshold the warning follows the labelled answer, whose level is not "High". */
  lemma AnswerTextBands(answer: string, conf: real, twoDecimals: real -> string)
    ensures var labelled := Annotate(answer, Label(conf));
      && (conf < 0.58 ==> AnswerText(answer, conf, twoDecimals) == labelled + Warning(conf, Label(conf), twoDecimals)
                          && Label(conf) != "High")
      && (conf >= 0.58 ==> AnswerText(answer, conf, twoDecimals) == labelled)
  {
  }

  /** One citation per ranked row, at most `k`, with refs `"[1]"` to `"[n]"`. */
  lemma CitationPerRankedRow(req: LegacyRequest, svc: LegacyServices)
    requires WellBehaved(svc.models) && LegacyQaReply(req, svc).Returned?
    ensures var r := LegacyQaReply(req, svc).value;
      && |r.citations| == |LegacyRanked(req, svc).value|
      && (req.k >= 0 ==> |r.citations| <= req.k)
      && forall i :: 0 <= i < |r.citations| ==> r.citations[i].ref == "[" + NatToString(i + 1) + "]"
  {
  }

  /** The handler raises exactly when retrieval, reranking or the confidence raised. */
  lemma RaisesOnlyOutsideTheModel(req: LegacyRequest, svc: LegacyServices)
    requires WellBehaved(svc.models)
    ensures LegacyQaReply(req, svc).Raised?
        <==> || svc.candidates(req.q, Max(req.k, 12), req.alpha, req.blendCe).Raised?
             || LegacyRanked(req, svc).Raised?
             || Confidence(req.q, BaseAnswer(req, svc, LegacyRanked(req, svc).value), LegacyRanked(req, svc).value,
                           req.k, DefaultWeights, svc.models).Raised?
  {
  }
}
