/**
 * The `/ml/qa` handler of RAG/app.py: retrieve candidates, rerank and cut to
 * `k`, ask the language model (once more with a simpler prompt when the
 * answer cleaned to nothing), measure coverage and confidence, decide
 * whether to fall back, run the fallback generator, refuse when nothing is
 * left, and shape the reply by role. Every call into code outside the model
 * is an oracle whose failure degrades to `[]`, `""` or `0.0`, as the
 * handler's `try`/`except` blocks do.
 */
module QaService {
  import opened Common
  import opened Rows
  import opened Sanitizer
  import opened Vocabulary
  import opened Scoring
  import opened Llm
  import opened Fallback

  /** `QARequest`; the defaults are `k = 6`, `alpha = 0.65`, `blend_ce = 1.0`, `role = "general"`. */
  datatype QaRequest = QaRequest(q: string, k: int, alpha: real, blendCe: real, role: string)

  function DefaultRequest(q: string): QaRequest {
    QaRequest(q, 6, 0.65, 1.0, "general")
  }

  /** The JSON reply: clinicians get the confidence and the citation labels, everyone else only the answer. */
  datatype Payload =
    | AnswerOnly(answer: string)
    | Clinical(answer: string, confidence: real, citations: seq<string>)

  /**
   * The handler's collaborators: `RetrievalClient().candidates` (its
   * construction raising counts as the call raising), the scoring models,
   * `Settings.llm`, whether `Settings.llm` is set, and `int`/`float` parsing.
   */
  datatype Services = Services(
    candidates: (string, int, real, real) -> Outcome<seq<Row>>,
    models: Models,
    llm: Completion,
    llmConfigured: bool,
    parse: Parsers)

  /** Fewest candidates asked of the retriever. */
  const MinCandidates: int := 12
  /** `rerank`'s default `max_chars`, which the handler does not override. */
  const RerankChars: int := 1000
  /** Characters of each passage shown to the language model. */
  const EvidenceChars: int := 350
  const CoverageFloor: real := 0.25
  const ConfidenceFloor: real := 0.50

  // ---------------------------------------------------------------------------
  // The stages, as functions of the request and the collaborators.

  /** Step 1: the candidates, or `[]` when retrieval raised. */
  function Candidates(req: QaRequest, svc: Services): seq<Row> {
    match svc.candidates(req.q, Max(req.k, MinCandidates), req.alpha, req.blendCe)
    case Raised => []
    case Returned(c) => c
  }

  /** Step 2: the reranked candidates cut to `req.k` (Python's `[:k]`), or `[]` when reranking raised. */
  function Ranked(req: QaRequest, svc: Services): (r: seq<Row>)
    requires WellBehaved(svc.models)
    ensures req.k >= 0 ==> |r| <= req.k
  {
    var rr := Reranked(req.q, Candidates(req, svc), req.blendCe, RerankChars, svc.models);
    match rr
    case Raised => []
    case Returned(sorted) => Take(sorted, req.k)
  }

  /** Step 3: each ranked passage cut to 350 characters, in rank order. */
  function EvidenceOf(ranked: seq<Row>): (e: seq<string>)
    ensures |e| == |ranked|
    ensures forall i :: 0 <= i < |ranked| ==> e[i] == Take(ranked[i].text, EvidenceChars)
  {
    seq(|ranked|, i requires 0 <= i < |ranked| => Take(ranked[i].text, EvidenceChars))
  }

  predicate IsClinician(role: string) {
    role == "doctor" || role == "clinician"
  }

  /** Step 4: the reasoning variant is used for doctors and clinicians when `ENABLE_COT` is `true` in any case. */
  predicate ReasoningRequested(req: QaRequest, env: Env) {
    IsClinician(Lower(req.role)) && Lower(GetEnv(env, "ENABLE_COT", "false")) == "true"
  }

  function PrimaryPrompt(req: QaRequest, env: Env, ranked: seq<Row>): Prompt {
    Primary(req.q, EvidenceOf(ranked), ReasoningRequested(req, env))
  }

  /** Step 5: the cleaned first answer, or the cleaned retry when it is empty. */
  function PrimaryAnswer(req: QaRequest, env: Env, llm: Completion, ranked: seq<Row>): string {
    var first := Cleaned(llm, PrimaryPrompt(req, env, ranked));
    if first != "" then first else Cleaned(llm, PrimaryRetry(req.q))
  }

  /** `conf_score(q, answer, ranked, k)` with the default weights, or 0.0 when it raised. */
  function ConfidenceOrZero(req: QaRequest, answer: string, ranked: seq<Row>, m: Models): (c: real)
    requires WellBehaved(m)
    ensures 0.0 <= c <= 1.0
  {
    match Confidence(req.q, answer, ranked, req.k, DefaultWeights, m)
    case Raised => 0.0
    case Returned(c) => c
  }

  /** Step 6: the confidence of the primary answer; 0.0 when the answer is empty. */
  function PrimaryConfidence(req: QaRequest, answer: string, ranked: seq<Row>, m: Models): (c: real)
    requires WellBehaved(m)
    ensures 0.0 <= c <= 1.0
    ensures answer == "" ==> c == 0.0
  {
    if answer == "" then 0.0 else ConfidenceOrZero(req, answer, ranked, m)
  }

  /** The fallback decision. */
  predicate ShouldFallback(ranked: seq<Row>, cov: real, conf: real, answer: string) {
    ranked == [] || cov < CoverageFloor || conf < ConfidenceFloor || answer == ""
  }

  /** `FALLBACK_ON`: `FALLBACK_PROVIDER` is set to something other than whitespace. */
  predicate FallbackOn(env: Env) {
    Strip(GetEnv(env, "FALLBACK_PROVIDER", "")) != ""
  }

  /** The citation labels `"[1]"`, `"[2]"`, ... */
  function Citations(n: nat): (r: seq<string>)
    ensures |r| == n
    ensures forall i :: 0 <= i < n ==> r[i] == "[" + NatToString(i + 1) + "]"
  {
    seq(n, i requires 0 <= i < n => "[" + NatToString(i + 1) + "]")
  }

  /** `(req.role or x_user_role or "general").lower()`. */
  function ResolvedRole(req: QaRequest, header: string): string {
    Lower(if req.role != "" then req.role else if header != "" then header else "general")
  }

  /** The answer and confidence after step 7, and the prompts sent so far. */
  datatype Stage = Stage(answer: string, conf: real, prompts: seq<Prompt>)

  /** Steps 5 and 6: the primary answer, its confidence and the one or two prompts sent. */
  function Primaries(req: QaRequest, env: Env, svc: Services, ranked: seq<Row>): (s: Stage)
    requires WellBehaved(svc.models)
  {
    var first := PrimaryPrompt(req, env, ranked);
    var prompts := if Cleaned(svc.llm, first) != "" then [first] else [first, PrimaryRetry(req.q)];
    var answer := PrimaryAnswer(req, env, svc.llm, ranked);
    Stage(answer, PrimaryConfidence(req, answer, ranked, svc.models), prompts)
  }

  /** Whether step 7 runs the fallback generator (it is built without raising). */
  predicate FallbackRuns(req: QaRequest, env: Env, svc: Services, ranked: seq<Row>, s: Stage) {
    && ShouldFallback(ranked, CoverageRatio(req.q, ranked), s.conf, s.answer)
    && FallbackOn(env)
    && Configure(env, svc.llmConfigured, svc.parse).Ok?
  }

  /** Step 7: the fallback's cleaned answer replaces the answer, and the confidence is recomputed, only when it is non-empty. */
  function AfterFallback(req: QaRequest, env: Env, svc: Services, ranked: seq<Row>, s: Stage): Stage
    requires WellBehaved(svc.models)
  {
    if !FallbackRuns(req, env, svc, ranked, s) then s
    else
      var fbAnswer := CleanAnswer(Generated(req.q, svc.llm));
      var sent := s.prompts + GeneratePrompts(req.q, svc.llm);
      if fbAnswer != "" then Stage(fbAnswer, ConfidenceOrZero(req, fbAnswer, ranked, svc.models), sent)
      else Stage(s.answer, s.conf, sent)
  }

  /** Steps 5 to 7. */
  function Answering(req: QaRequest, env: Env, svc: Services, ranked: seq<Row>): Stage
    requires WellBehaved(svc.models)
  {
    AfterFallback(req, env, svc, ranked, Primaries(req, env, svc, ranked))
  }

  /** The reply `ml_qa` returns, and every prompt it sent, in order. */
  datatype Reply = Reply(payload: Payload, prompts: seq<Prompt>)

  function QaReply(req: QaRequest, header: string, env: Env, svc: Services): (r: Reply)
    requires WellBehaved(svc.models)
  {
    var ranked := Ranked(req, svc);
    var s := Answering(req, env, svc, ranked);
    var answer := if s.answer != "" then s.answer else Refusal;
    if IsClinician(ResolvedRole(req, header)) then Reply(Clinical(answer, s.conf, Citations(|ranked|)), s.prompts)
    else Reply(AnswerOnly(answer), s.prompts)
  }

  // ---------------------------------------------------------------------------
  // The handler, stage by stage.

  /** Steps 1 and 2: retrieve with `max(k, 12)`, rerank, cut to `k`; a raising call leaves `[]`. */
  method Retrieve(req: QaRequest, svc: Services) returns (ranked: seq<Row>)
    requires WellBehaved(svc.models)
    ensures ranked == Ranked(req, svc)
  {
    var cands: seq<Row>;
    match svc.candidates(req.q, Max(req.k, MinCandidates), req.alpha, req.blendCe) {
      case Raised => cands := [];
      case Returned(c) => cands := c;
    }
    var reranked, _ := Rerank(req.q, cands, req.blendCe, RerankChars, svc.models);
    match reranked {
      case Raised => ranked := [];
      case Returned(sorted) => ranked := Take(sorted, req.k);
    }
  }

  /** Steps 3 to 6: prompt, primary call, one simpler retry when the answer is empty, confidence. */
  method AskPrimary(req: QaRequest, env: Env, svc: Services, ranked: seq<Row>) returns (s: Stage)
    requires WellBehaved(svc.models)
    ensures s == Primaries(req, env, svc, ranked)
  {
    var prompt := Primary(req.q, EvidenceOf(ranked), ReasoningRequested(req, env));
    var answer := "";
    var prompts := [prompt];
    match svc.llm(prompt) {
      case Raised => answer := "";
      case Returned(out) => answer := CleanAnswer(out);
    }
    if answer == "" {
      prompts := [prompt, PrimaryRetry(req.q)];
      match svc.llm(PrimaryRetry(req.q)) {
        case Raised => answer := "";
        case Returned(out2) => answer := CleanAnswer(out2);
      }
    }
    var conf := 0.0;
    if answer != "" {
      match Confidence(req.q, answer, ranked, req.k, DefaultWeights, svc.models) {
        case Raised => conf := 0.0;
        case Returned(c) => conf := c;
      }
    }
    s := Stage(answer, conf, prompts);
  }

  /** Step 7: decide, build the fallback generator, and take its cleaned answer when non-empty. */
  method TryFallback(req: QaRequest, env: Env, svc: Services, ranked: seq<Row>, s: Stage) returns (t: Stage)
    requires WellBehaved(svc.models)
    ensures t == AfterFallback(req, env, svc, ranked, s)
  {
    var answer, conf, prompts := s.answer, s.conf, s.prompts;
    var cov := CoverageRatio(req.q, ranked);
    var shouldFallback := ranked == [] || cov < CoverageFloor || conf < ConfidenceFloor || answer == "";
    if shouldFallback && FallbackOn(env) {
      var fb := FallbackModel.Create(env, svc.llmConfigured, svc.parse);
      match fb {
        case Err(_) =>
          assert !FallbackRuns(req, env, svc, ranked, s);
        case Ok(model) =>
          assert FallbackRuns(req, env, svc, ranked, s);
          var text, sent := model.Generate(req.q, svc.llm);
          prompts := prompts + sent;
          var fbAnswer := CleanAnswer(text);
          if fbAnswer != "" {
            answer := fbAnswer;
            match Confidence(req.q, answer, ranked, req.k, DefaultWeights, svc.models) {
              case Raised => conf := 0.0;
              case Returned(c) => conf := c;
            }
            assert conf == ConfidenceOrZero(req, fbAnswer, ranked, svc.models);
          }
      }
    } else {
      assert !FallbackRuns(req, env, svc, ranked, s);
    }
    t := Stage(answer, conf, prompts);
  }

  /** `ml_qa(req, x_user_role)`: the reply, and the prompts sent to the language model in order. */
  method MlQa(req: QaRequest, header: string, env: Env, svc: Services) returns (payload: Payload, prompts: seq<Prompt>)
    requires WellBehaved(svc.models)
    ensures Reply(payload, prompts) == QaReply(req, header, env, svc)
  {
    var ranked := Retrieve(req, svc);
    var primary := AskPrimary(req, env, svc, ranked);
    var stage := TryFallback(req, env, svc, ranked, primary);
    var answer := stage.answer;
    if answer == "" {
      answer := Refusal;
    }
    prompts := stage.prompts;
    var citations := Citations(|ranked|);
    var role := ResolvedRole(req, header);
    if IsClinician(role) {
      payload := Clinical(answer, stage.conf, citations);
    } else {
      payload := AnswerOnly(answer);
    }
  }

  // ---------------------------------------------------------------------------
  // What the handler promises.

  /** The three ways step 7 can end. */
  lemma AfterFallbackCases(req: QaRequest, env: Env, svc: Services, ranked: seq<Row>, s: Stage)
    requires WellBehaved(svc.models)
    ensures var t := AfterFallback(req, env, svc, ranked, s);
      var fb := CleanAnswer(Generated(req.q, svc.llm));
      && (!FallbackRuns(req, env, svc, ranked, s) ==> t == s)
      && (FallbackRuns(req, env, svc, ranked, s) && fb != ""
          ==> t == Stage(fb, ConfidenceOrZero(req, fb, ranked, svc.models), s.prompts + GeneratePrompts(req.q, svc.llm)))
      && (FallbackRuns(req, env, svc, ranked, s) && fb == ""
          ==> t == Stage(s.answer, s.conf, s.prompts + GeneratePrompts(req.q, svc.llm)))
  {
  }

  /** How the reply is put together from the answering stage. */
  lemma ReplyParts(req: QaRequest, header: string, env: Env, svc: Services)
    requires WellBehaved(svc.models)
    ensures var ranked := Ranked(req, svc);
      var a := Answering(req, env, svc, ranked);
      var r := QaReply(req, header, env, svc);
      && r.prompts == a.prompts
      && r.payload.answer == (if a.answer != "" then a.answer else Refusal)
      && (r.payload.Clinical? <==> IsClinician(ResolvedRole(req, header)))
      && (r.payload.Clinical? ==> r.payload.confidence == a.conf && r.payload.citations == Citations(|ranked|))
  {
  }

  /**
   * The answer is never empty. It is the fallback's cleaned answer when the
   * fallback ran and produced one; otherwise the primary answer, or the
   * refusal when that is empty. Either way it is the refusal or a cleaned
   * text.
   */
  lemma AnswerSource(req: QaRequest, header: string, env: Env, svc: Services)
    requires WellBehaved(svc.models)
    ensures var ranked := Ranked(req, svc);
      var p := Primaries(req, env, svc, ranked);
      var fb := CleanAnswer(Generated(req.q, svc.llm));
      var replaced := FallbackRuns(req, env, svc, ranked, p) && fb != "";
      var a := QaReply(req, header, env, svc).payload.answer;
      && a != ""
      && (replaced ==> a == fb)
      && (!replaced ==> a == if p.answer != "" then p.answer else Refusal)
      && (a == Refusal || (Tidied(a) && !LooksLikeInstructions(a)))
  {
    var ranked := Ranked(req, svc);
    var p := Primaries(req, env, svc, ranked);
    ReplyParts(req, header, env, svc);
    AfterFallbackCases(req, env, svc, ranked, p);
    assert p.answer == "" || (Tidied(p.answer) && !LooksLikeInstructions(p.answer));
  }

  /**
   * When retrieval found something, coverage is at least 0.25, confidence at
   * least 0.5 and the answer non-empty, the fallback is never consulted: the
   * reply carries the primary answer and confidence.
   */
  lemma NoFallbackWhenGatesPass(req: QaRequest, header: string, env: Env, svc: Services)
    requires WellBehaved(svc.models)
    requires var ranked := Ranked(req, svc);
      var p := Primaries(req, env, svc, ranked);
      ranked != [] && CoverageRatio(req.q, ranked) >= CoverageFloor && p.conf >= ConfidenceFloor && p.answer != ""
    ensures var ranked := Ranked(req, svc);
      var p := Primaries(req, env, svc, ranked);
      var r := QaReply(req, header, env, svc);
      && r.prompts == p.prompts
      && r.payload.answer == p.answer
      && (r.payload.Clinical? ==> r.payload.confidence == p.conf)
  {
    var ranked := Ranked(req, svc);
    var p := Primaries(req, env, svc, ranked);
    ReplyParts(req, header, env, svc);
    AfterFallbackCases(req, env, svc, ranked, p);
    assert !FallbackRuns(req, env, svc, ranked, p);
  }

  /**
   * The fallback's prompts follow the primary ones exactly when the fallback
   * ran: some gate failed, `FALLBACK_PROVIDER` is set, and the generator
   * could be built.
   */
  lemma FallbackGate(req: QaRequest, header: string, env: Env, svc: Services)
    requires WellBehaved(svc.models)
    ensures var ranked := Ranked(req, svc);
      var p := Primaries(req, env, svc, ranked);
      var r := QaReply(req, header, env, svc);
      && p.prompts <= r.prompts
      && (FallbackRuns(req, env, svc, ranked, p) <==> |r.prompts| > |p.prompts|)
      && (FallbackRuns(req, env, svc, ranked, p) ==> r.prompts == p.prompts + GeneratePrompts(req.q, svc.llm))
  {
    var ranked := Ranked(req, svc);
    var p := Primaries(req, env, svc, ranked);
    ReplyParts(req, header, env, svc);
    AfterFallbackCases(req, env, svc, ranked, p);
    RetryOnlyWhenFirstIsEmpty(req.q, svc.llm);
  }

  /**
   * The first prompt is the primary one, and the simpler second prompt is
   * sent exactly when the first answer cleaned to nothing (or the call raised).
   */
  lemma RetryOnlyWhenEmpty(req: QaRequest, header: string, env: Env, svc: Services)
    requires WellBehaved(svc.models)
    ensures var ranked := Ranked(req, svc);
      var ps := QaReply(req, header, env, svc).prompts;
      && ps != [] && ps[0] == PrimaryPrompt(req, env, ranked)
      && ((|ps| >= 2 && ps[1] == PrimaryRetry(req.q)) <==> Cleaned(svc.llm, PrimaryPrompt(req, env, ranked)) == "")
  {
    var ranked := Ranked(req, svc);
    var p := Primaries(req, env, svc, ranked);
    var first := PrimaryPrompt(req, env, ranked);
    PrimaryPrompts(req, env, svc, ranked);
    FallbackGate(req, header, env, svc);
    RetryOnlyWhenFirstIsEmpty(req.q, svc.llm);
    var ps := QaReply(req, header, env, svc).prompts;
    var g := GeneratePrompts(req.q, svc.llm);
    assert ps == p.prompts || ps == p.prompts + g;
    PromptsAfterPrimary(first, PrimaryRetry(req.q), p.prompts, g, ps, req.q);
  }

  /** Steps 5 and 6 send the primary prompt, then the retry exactly when the first answer cleaned to nothing. */
  lemma PrimaryPrompts(req: QaRequest, env: Env, svc: Services, ranked: seq<Row>)
    requires WellBehaved(svc.models)
    ensures Primaries(req, env, svc, ranked).prompts
         == if Cleaned(svc.llm, PrimaryPrompt(req, env, ranked)) != "" then [PrimaryPrompt(req, env, ranked)]
            else [PrimaryPrompt(req, env, ranked), PrimaryRetry(req.q)]
  {
  }

  lemma PromptsAfterPrimary(first: Prompt, retry: Prompt, p: seq<Prompt>, g: seq<Prompt>, ps: seq<Prompt>, q: string)
    requires retry == PrimaryRetry(q)
    requires p == [first] || p == [first, retry]
    requires g != [] && g[0] == FallbackFirst(q)
    requires ps == p || ps == p + g
    ensures ps != [] && ps[0] == first
    ensures (|ps| >= 2 && ps[1] == retry) <==> p == [first, retry]
  {
    if p == [first] && ps == p + g {
      assert ps[1] == g[0];
    }
  }

  /**
   * The handler's own refusal carries confidence 0: when no answer is left
   * after the fallback step, the confidence was never computed on a text.
   */
  lemma RefusalHasZeroConfidence(req: QaRequest, env: Env, svc: Services, ranked: seq<Row>)
    requires WellBehaved(svc.models)
    ensures Answering(req, env, svc, ranked).answer == "" ==> Answering(req, env, svc, ranked).conf == 0.0
    ensures 0.0 <= Answering(req, env, svc, ranked).conf <= 1.0
  {
    var p := Primaries(req, env, svc, ranked);
    AfterFallbackCases(req, env, svc, ranked, p);
  }

  /**
   * Doctors and clinicians (by request role, else by header, any case) get
   * the confidence and one citation label per ranked row, `"[1]"` to
   * `"[n]"`, at most `k` of them; every other role gets the answer alone.
   */
  lemma ReplyShapeByRole(req: QaRequest, header: string, env: Env, svc: Services)
    requires WellBehaved(svc.models)
    ensures var r := QaReply(req, header, env, svc).payload;
      && (r.Clinical? <==> IsClinician(ResolvedRole(req, header)))
      && (r.Clinical? ==> 0.0 <= r.confidence <= 1.0)
      && (r.Clinical? ==> |r.citations| == |Ranked(req, svc)|)
      && (r.Clinical? && req.k >= 0 ==> |r.citations| <= req.k)
      && (r.Clinical? ==> forall i :: 0 <= i < |r.citations| ==> r.citations[i] == "[" + NatToString(i + 1) + "]")
  {
    RefusalHasZeroConfidence(req, env, svc, Ranked(req, svc));
  }

  /**
   * The retriever is asked once, for `max(k, 12)` candidates: two retrievers
   * that agree on that one call lead to the same reply.
   */
  lemma RetrieverAskedForAtLeastTwelve(req: QaRequest, header: string, env: Env, svc: Services,
                                       other: (string, int, real, real) -> Outcome<seq<Row>>)
    requires WellBehaved(svc.models)
    requires other(req.q, Max(req.k, MinCandidates), req.alpha, req.blendCe)
          == svc.candidates(req.q, Max(req.k, MinCandidates), req.alpha, req.blendCe)
    ensures QaReply(req, header, env, svc.(candidates := other)) == QaReply(req, header, env, svc)
  {
    var svc2 := svc.(candidates := other);
    var ranked := Ranked(req, svc);
    RankedFromTheOneCall(req, svc, other);
    AnsweringIgnoresRetriever(req, env, svc, ranked, other);
    SameStagesSameReply(req, header, env, svc, svc2);
  }

  /** The reply is a function of the ranking, the stages after it and the role. */
  lemma SameStagesSameReply(req: QaRequest, header: string, env: Env, svc: Services, svc2: Services)
    requires WellBehaved(svc.models) && WellBehaved(svc2.models)
    requires Ranked(req, svc2) == Ranked(req, svc)
    requires Answering(req, env, svc2, Ranked(req, svc)) == Answering(req, env, svc, Ranked(req, svc))
    ensures QaReply(req, header, env, svc2) == QaReply(req, header, env, svc)
  {
  }

  /** The ranking depends on the retriever only through the one call it makes. */
  lemma RankedFromTheOneCall(req: QaRequest, svc: Services,
                             other: (string, int, real, real) -> Outcome<seq<Row>>)
    requires WellBehaved(svc.models)
    requires other(req.q, Max(req.k, MinCandidates), req.alpha, req.blendCe)
          == svc.candidates(req.q, Max(req.k, MinCandidates), req.alpha, req.blendCe)
    ensures Ranked(req, svc.(candidates := other)) == Ranked(req, svc)
  {
    var svc2 := svc.(candidates := other);
    assert Candidates(req, svc2) == Candidates(req, svc);
  }

  /** Steps 5 to 7 use the ranked rows but never the retriever itself. */
  lemma AnsweringIgnoresRetriever(req: QaRequest, env: Env, svc: Services, ranked: seq<Row>,
                                  other: (string, int, real, real) -> Outcome<seq<Row>>)
    requires WellBehaved(svc.models)
    ensures Answering(req, env, svc.(candidates := other), ranked) == Answering(req, env, svc, ranked)
  {
    var svc2 := svc.(candidates := other);
    var p := Primaries(req, env, svc, ranked);
    assert Primaries(req, env, svc2, ranked) == p;
    assert FallbackRuns(req, env, svc2, ranked, p) == FallbackRuns(req, env, svc, ranked, p);
    AfterFallbackCases(req, env, svc, ranked, p);
    AfterFallbackCases(req, env, svc2, ranked, p);
  }

  /**
   * The language model sees at most `k` passages, the best-ranked ones in
   * rank order, each cut to 350 characters.
   */
  lemma EvidenceIsTopRanked(req: QaRequest, env: Env, svc: Services)
    requires WellBehaved(svc.models)
    ensures var ranked := Ranked(req, svc);
      var e := PrimaryPrompt(req, env, ranked).evidence;
      && (req.k >= 0 ==> |e| <= req.k)
      && (forall i :: 0 <= i < |e| ==> |e[i]| <= EvidenceChars && e[i] <= ranked[i].text)
      && (Reranked(req.q, Candidates(req, svc), req.blendCe, RerankChars, svc.models).Returned?
          ==> ranked <= Reranked(req.q, Candidates(req, svc), req.blendCe, RerankChars, svc.models).value)
  {
  }

  /**
   * `FALLBACK_ON` strips the provider but the generator's guard does not: a
   * provider written with surrounding spaces switches the fallback on and
   * then makes every attempt to build it raise, so it never runs; and with
   * no provider set the fallback is off although the guard would accept
   * its default.
   */
  lemma ProviderSpellingDecidesFallback(req: QaRequest, env: Env, svc: Services, ranked: seq<Row>, s: Stage)
    ensures GetEnv(env, "FALLBACK_PROVIDER", "") == " gemini" ==> FallbackOn(env) && !FallbackRuns(req, env, svc, ranked, s)
    ensures "FALLBACK_PROVIDER" !in env ==> !FallbackRuns(req, env, svc, ranked, s)
  {
    if GetEnv(env, "FALLBACK_PROVIDER", "") == " gemini" {
      assert GetEnv(env, "FALLBACK_PROVIDER", "gemini") == " gemini";
      SpacedProvider();
      assert !Configure(env, svc.llmConfigured, svc.parse).Ok?;
    }
    if "FALLBACK_PROVIDER" !in env {
      assert Strip("") == "";
      assert !FallbackOn(env);
    }
  }

  /** `" gemini"` strips to something but does not lower-case to `"gemini"`. */
  lemma SpacedProvider()
    ensures Strip(" gemini") != "" && Lower(" gemini") != "gemini"
  {
    assert LeadingSpaces(" gemini") == 1;
    assert Lower(" gemini")[0] == ' ';
  }

  /**
   * Reasoning is asked for on the request's own role only: a doctor known
   * only from the `x-user-role` header gets the clinician reply but the
   * plain prompt.
   */
  lemma HeaderRoleGetsPlainPrompt(req: QaRequest, header: string, env: Env)
    requires req.role == "" && header == "doctor"
    ensures IsClinician(ResolvedRole(req, header))
    ensures !ReasoningRequested(req, env)
  {
    assert Lower("doctor") == "doctor";
  }
}
