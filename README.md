# MedWhisper answer trust, in Dafny

MedWhisper answers clinical questions over retrieved EHR passages. This
project models the part of it that decides how far an answer can be
trusted, and proves what that part promises:

- **Scoring** (`scoring.py`). Min–max normalisation, cross-encoder
  reranking blended with the retriever's scores, and the confidence blend
  of retrieval strength, faithfulness and document coverage.
- **Answer sanitiser** (`_clean_answer` in `RAG/app.py`, `_clean` in
  `RAG/fallback.py`). The two bodies are the same, so there is one
  definition. Each regular expression is an explicit scan over characters.
- **Query-vocabulary coverage** (`_coverage_ratio` in `RAG/app.py`).
- **Fallback generator** (`FallbackModel` in `RAG/fallback.py`). The
  constructor's configuration guard, one retry on an empty answer, and the
  fixed refusal as the last resort.
- **The gated QA handler** (`ml_qa` in `RAG/app.py`). Retrieve, rerank and
  cut to `k`; primary answer with one simpler retry; coverage and
  confidence; the OR-ed fallback decision; the refusal; a reply shaped by
  role.
- **The legacy QA handler** (`ml_qa` in `app.py`). The extractive fallback,
  confidence bands, the confidence marker rewrite, the safety warning, and
  citation records.
- **Offline retrieval metrics** (`evaluate_metrics.py`):
  - column resolution (`first_present`, the missing-column error);
  - rank coercion and the top-K trim;
  - `compute_scores`: MRR, MAP and nDCG, averaged and capped.

Every external model is a function-typed parameter or field that states
only the range facts the code relies on:

- the cross-encoder, the sentence embedder, `np.exp`, `np.linalg.norm`,
  `np.log2`;
- the retrieval client and the language model;
- number parsing and `{:.2f}` formatting.

A call that can raise returns `Outcome<T>` (`Returned(v)` or `Raised`), and
the handlers' `try`/`except` paths are modelled from it. Scores are Dafny
`real`s; the `1e-12` guards are the positive constant `Scoring.Eps`.

Each stateful step is a method whose `ensures` ties its result to a
specification function:

- `Scoring.Rerank` (the attach loop);
- `Fallback.FallbackModel` (a class, with fields set by its constructor);
- the stages of both `ml_qa` handlers;
- the citation loop;
- `first_present`;
- the metric loops.

The lemmas state the promised properties about those functions.

Modules:

- `Common`: Option, Outcome, Python slicing and `strip`, ASCII lower-casing.
- `StableSort`: Python's stable `sorted` and a stable filter `Where`.
- `RealArith`: small facts about real division and blending.
- `Rows`, `Vocabulary`, `Scoring`, `Sanitizer`, `Llm`, `Fallback`,
  `QaService`, `LegacyQa`, `ValidationTable`, `RetrievalMetrics`.

Two behaviours of the code that a reader might not expect:

- A constant score channel normalises to 0.5 everywhere
  (`scoring.py:18-19`), not to 1.0 or 0.0.
- Ties in rerank keep their input order (`scoring.py:51`, Python's stable
  `sorted`). They are not broken by document id.

## Model

| member | source | states |
|---|---|---|
| Common.Take | RAG/app.py:181 | Python's `s[:n]`: a prefix of `s`, of length `n` clamped between 0 and the length of `s`, with a negative `n` dropping that many from the end |
| Common.Strip | RAG/app.py:89 | `str.strip()`: the result neither starts nor ends with whitespace |
| Common.StripRemovesOuterSpaces | RAG/app.py:89 | the input is a whitespace run, then the stripped text, then a whitespace run; with `Strip`'s ensures, exactly the outer whitespace is removed and the middle is kept |
| StableSort.SortByPermutesAndSorts | scoring.py:51 | sorting by a key keeps the length and the multiset of elements and yields ascending keys |
| StableSort.SortByIsStable | scoring.py:51 | elements with equal keys keep their input order |
| StableSort.SortByIsTheStableSort | scoring.py:51 | any permutation that is sorted and keeps equal-keyed elements in input order is the sort's result |
| StableSort.WhereOfSortBy | evaluate_metrics.py:93 | selecting the rows of one query after sorting by rank gives the same list as sorting that query's rows |
| Scoring.Normalize | scoring.py:14-20 | `_normalize` keeps the length; the empty array stays empty |
| Scoring.NormalizeFlat | scoring.py:17-19 | when max − min < 1e-12 every normalised value is exactly 0.5 |
| Scoring.NormalizeSpread | scoring.py:17-20 | otherwise every value lies in [0, 1), the minimum maps to 0, and strict order is kept |
| Scoring.NormalizeMonotone | scoring.py:14-20 | `x[i] <= x[j]` implies `n[i] <= n[j]`, and every normalised value lies in [0, 1] |
| Scoring.Pairs | scoring.py:38-39 | the cross-encoder sees the query with each text cut to `max_chars`, one pair per row in order |
| Scoring.Incoming | scoring.py:44 | the incoming score of each row is its `score`, 0.0 when absent |
| Scoring.FinalScores | scoring.py:40-46 | `_final` is the normalised cross-encoder score from a blend of 1 up, else `b·ce_n + (1−b)·inc_n` |
| Scoring.Annotated | scoring.py:48-50 | row `i` gets `_ce = ce[i]` and `_final = final[i]` |
| Scoring.Rerank | scoring.py:34-51 | returns `Reranked`; with no rows it returns `[]` and the cross-encoder is never called, otherwise it is called once with all pairs |
| Scoring.RerankedIsStableSortByFinal | scoring.py:48-51 | the output is a permutation of the input rows with `_ce` and `_final` set and no other key changed, sorted by `_final` non-increasing, ties in input order |
| Scoring.FinalScoresInUnit | scoring.py:40-46 | for a blend weight ≥ 0 every `_final` lies in [0, 1] |
| Scoring.FinalScoresBlend | scoring.py:41-46 | blend ≥ 1 gives the normalised cross-encoder scores, blend 0 the normalised incoming scores, and in between each `_final` lies between the two |
| Scoring.RerankedFollowsCrossEncoder | scoring.py:39-51 | with blend ≥ 1 and cross-encoder scores that are not flat, the output is in non-increasing raw `_ce` order |
| Scoring.Reranked | scoring.py:34-51 | `rerank` as a value: `[]` without rows, `Raised` when the cross-encoder raises, otherwise the annotated rows sorted by `_final`; its meaning is stated by `RerankedIsStableSortByFinal` |
| Scoring.Softmax | scoring.py:22-27 | `_softmax` keeps the length, and each value is `exp(x[i] − max x)` over the sum of those plus 1e-12; `SoftmaxInOpenUnit` bounds it |
| Scoring.SoftmaxInOpenUnit | scoring.py:22-27 | every softmax value lies strictly between 0 and 1 |
| Scoring.Cos | scoring.py:29-32 | `_cos`: the dot product of the two vectors, each divided by its norm plus 1e-12, or `Raised` for vectors of different lengths; `CosIsSymmetric` states its properties |
| Scoring.CosIsSymmetric | scoring.py:29-32 | the similarity is the same with its arguments swapped, and raises exactly on a length mismatch |
| Scoring.RetrievalStrengthBounds | scoring.py:58-63 | retrieval strength is 0 without scores and in (0, 1) otherwise, whichever top-scoring index the descending argsort puts first |
| Scoring.Clamp01 | scoring.py:68 | `max(0, min(1, x))` lies in [0, 1] and is `x` itself when `x` already is |
| Scoring.DocIdsAtMostRows | scoring.py:70 | there are no more distinct non-empty `doc_id`s than rows |
| Scoring.EvidenceCoverageBounds | scoring.py:70-71 | coverage over `rows[:k]` is 0 for `k == 0`; for `k > 0` it is distinct `doc_id`s over `k` and lies in [0, 1]; it is at most 0 for negative `k` |
| Scoring.ChainScores | scoring.py:57 | each row's score is `_final`, else `_ce`, else `score`, else 0.0 |
| Scoring.Confidence | scoring.py:53-74 | the confidence lies in [0, 1], and it raises exactly when an embedding or the dot product raised |
| Scoring.Weighted | scoring.py:72-74 | the weighted sum is clamped to [0, 1], and a failure is passed on |
| Scoring.SignalsInRange | scoring.py:55-71 | retrieval strength is 0 with no rows and in (0, 1) otherwise; faithfulness is in [0, 1]; coverage is 0 for `k == 0` and in [0, 1] for `k > 0` |
| Scoring.DefaultWeightsNeedNoClamp | scoring.py:72-74 | with weights (0.5, 0.3, 0.2) and `k >= 0` the clamp changes nothing |
| Scoring.ConfidenceReadsTopK | scoring.py:55 | the confidence depends only on `rows[:k]` |
| Vocabulary.Tokens | RAG/app.py:68 | every token is a non-empty run of `[A-Za-z0-9]` |
| Vocabulary.NoTokensWithoutAlnum | RAG/app.py:71-73 | `findall` finds no token exactly when the text has no ASCII letter or digit |
| Vocabulary.TokensSplitAtSeparator | RAG/app.py:74-75 | a separator character splits the token list into the tokens on either side |
| Vocabulary.EvidenceTermsAreUnion | RAG/app.py:74-75 | the terms of the space-joined evidence are the union of the terms of each row's text |
| Vocabulary.CoverageRatio | RAG/app.py:69-77 | the coverage lies in [0, 1] and is 0 when the question has no terms |
| Vocabulary.CoverageWithoutAlnum | RAG/app.py:71-73 | a question without an ASCII letter or digit has coverage 0 |
| Vocabulary.CoverageIsOneIffAllTermsCovered | RAG/app.py:71-77 | coverage is 1 exactly when the question has terms and all of them occur in the evidence |
| Vocabulary.CoverageIsCaseInsensitive | RAG/app.py:71 | lower-casing the question does not change the coverage |
| Vocabulary.CoverageIgnoresQuestionOrder | RAG/app.py:71 | swapping two parts of the question does not change the coverage |
| Vocabulary.CoverageIgnoresRepetition | RAG/app.py:71 | repeating the question does not change the coverage |
| Vocabulary.CoverageIgnoresEvidenceOrder | RAG/app.py:74-76 | reordering or repeating evidence rows does not change the coverage |
| Sanitizer.ReplaceBlocks | RAG/app.py:85 | every `▃` becomes a space and nothing else changes |
| Sanitizer.StripTags | RAG/app.py:84 | step 1, a left-to-right scan replacing each `<…>` (at least one character, no `>` inside) by a space; `StripTagsLeavesNoTag`, `StripTagsAtTag` and `StripTagsKeepsCharacters` state its meaning |
| Sanitizer.StripTagsLeavesNoTag | RAG/app.py:84 | no tag is left anywhere in the result |
| Sanitizer.StripTagsAtTag | RAG/app.py:84 | after a prefix without `<`, a tag becomes one space: the prefix is kept and the text after the tag is scanned on |
| Sanitizer.StripTagsKeepsCharacters | RAG/app.py:84 | every character of the result is an input character or the space |
| Sanitizer.TagIsReplacedBySpace | RAG/app.py:79-93 | a tag anywhere after a prefix without `<` cleans exactly as a space in its place |
| Sanitizer.StripEchoes | RAG/app.py:87 | step 3, a left-to-right scan that at each word boundary replaces the first label of the alternation followed by optional whitespace, a colon and optional whitespace by a space; `LabelEchoIsDropped`, `LabelEchoIsDroppedMidText` and `CleanAnswerKeepsPlainText` state its meaning |
| Sanitizer.Tidy | RAG/app.py:84-89 | steps 1 to 4 in order; `TidyIsTidied` states what they leave |
| Sanitizer.Squeeze | RAG/app.py:89 | every run of whitespace becomes one space: no two adjacent whitespace characters remain, and no character is introduced except the space |
| Sanitizer.TidyIsTidied | RAG/app.py:84-89 | after the first four steps the text is trimmed, single-spaced and free of `▃` |
| Sanitizer.CleanAnswer | RAG/app.py:79-93 | `""` stays `""`; a non-empty result is trimmed, single-spaced, free of `▃` and of the instruction phrases; the result is blank exactly when the tidied text is empty or still holds an instruction phrase |
| Sanitizer.LabelEchoIsDropped | RAG/app.py:87 | at the start of the text, a `question`/`evidence`/`final answer`/`answer`/`output` label in any case, with whitespace around its colon, is removed and the rest is cleaned as if it were alone |
| Sanitizer.LabelEchoIsDroppedMidText | RAG/app.py:79-93 | after text that is free of tags, `▃` and echoes and ends between words (not in "final "), a label echo cleans exactly as one space in its place when the text after it does not start with whitespace, a colon, `<` or `▃` |
| Sanitizer.CleanAnswerKeepsPlainText | RAG/app.py:79-93 | text with no tags, no label echo and nothing to squeeze is returned verbatim, unless it reads like instructions, when it is blanked |
| Sanitizer.AnswerLabelStrippedVerbatim | RAG/fallback.py:12-26 | `"Answer: " + t` cleans to `t` for plain text `t` |
| Fallback.Configure | RAG/fallback.py:35-48 | the constructor's checks as a value: the configuration, or the first error in source order; `ConfigureGuard` states when each applies |
| Fallback.ConfigureGuard | RAG/fallback.py:35-48 | construction succeeds exactly when the lower-cased provider (default `gemini`) is `gemini`, `Settings.llm` is set and both numbers parse; a wrong provider is reported first, then a missing model, then a bad number |
| Fallback.DefaultProviderIsAccepted | RAG/fallback.py:35 | without `FALLBACK_PROVIDER` the provider check never fails |
| Fallback.ProviderIsCaseInsensitive | RAG/fallback.py:35-37 | `GEMINI` in any case configures like `gemini` |
| Fallback.FallbackModel.Create | RAG/fallback.py:34-49 | construction raises exactly when the guard rejects the environment, with the guard's error; otherwise it builds a fresh model holding the provider's model id (default `gemini-2.5-flash`), max tokens and temperature |
| Fallback.FallbackModel.constructor | RAG/fallback.py:47-49 | the fields hold the configured max tokens, temperature and model id |
| Fallback.Generated | RAG/fallback.py:63-73 | `generate` never returns `""`: it returns the refusal or a cleaned, tidied text without instruction phrases |
| Fallback.FallbackModel.Generate | RAG/fallback.py:51-73 | returns `Generated`, having sent exactly `GeneratePrompts`: the first prompt, then the retry only after an empty first answer |
| Fallback.RetryOnlyWhenFirstIsEmpty | RAG/fallback.py:64-69 | the first prompt is always sent, and the second exactly when the first call returned a text that cleaned to nothing |
| Fallback.FirstUsableAnswerIsKept | RAG/fallback.py:65-66 | a first answer that cleans to something is returned as cleaned, whatever the retry would answer |
| Fallback.RefusalWhenNothingUsable | RAG/fallback.py:70-73 | a raising first call, or an empty first answer with a raising or empty retry, gives the refusal |
| QaService.Ranked | RAG/app.py:172-183 | at most `k` rows are ranked |
| QaService.EvidenceOf | RAG/app.py:186 | each ranked passage is cut to 350 characters, in rank order |
| QaService.ConfidenceOrZero | RAG/app.py:237-240 | the confidence is in [0, 1], and 0.0 when scoring raised |
| QaService.PrimaryConfidence | RAG/app.py:238 | the confidence is in [0, 1] and is 0.0 whenever the answer is empty |
| QaService.Citations | RAG/app.py:261 | `n` labels, the `i`-th being `"[i+1]"` |
| QaService.ShouldFallback | RAG/app.py:242 | the OR of the four gates: no ranked rows, coverage below 0.25, confidence below 0.5, an empty answer; `NoFallbackWhenGatesPass` and `FallbackGate` use it |
| QaService.AfterFallback | RAG/app.py:245-256 | the fallback step as a value; `AfterFallbackCases` states its three outcomes |
| QaService.QaReply | RAG/app.py:169-268 | the handler as a value; `ReplyParts`, `AnswerSource`, `ReplyShapeByRole` and `RefusalHasZeroConfidence` state its properties |
| QaService.Retrieve | RAG/app.py:172-183 | asks for `max(k, 12)` candidates, reranks and cuts to `k`; a raising call leaves `[]` |
| QaService.AskPrimary | RAG/app.py:186-240 | the primary answer, its retry when the first cleaned to nothing, and the confidence, as `Primaries` |
| QaService.TryFallback | RAG/app.py:242-256 | the fallback decision and its effect, as `AfterFallback` |
| QaService.MlQa | RAG/app.py:169-268 | the reply and the prompts sent, as `QaReply` |
| QaService.AfterFallbackCases | RAG/app.py:245-256 | without a fallback run nothing changes; with a non-empty cleaned fallback answer it replaces the answer and the confidence is recomputed on it; with an empty one only the prompts grow |
| QaService.ReplyParts | RAG/app.py:258-268 | the answer is the refusal when empty; clinicians get the confidence and one label per ranked row, others get the answer alone |
| QaService.AnswerSource | RAG/app.py:245-259 | the answer is never empty; it is the fallback's when that ran and produced text, otherwise the primary answer or the refusal |
| QaService.NoFallbackWhenGatesPass | RAG/app.py:242-245 | with rows, coverage ≥ 0.25, confidence ≥ 0.5 and a non-empty answer, the primary answer and confidence are returned and no fallback prompt is sent |
| QaService.FallbackGate | RAG/app.py:242-248 | fallback prompts follow the primary ones exactly when some gate failed, the fallback is on and the generator could be built |
| QaService.RetryOnlyWhenEmpty | RAG/app.py:216-230 | the primary prompt comes first, and the simpler retry is sent exactly when the first answer cleaned to nothing or the call raised |
| QaService.PrimaryPrompts | RAG/app.py:216-230 | the primary stage sends the prompt, then the retry exactly when the first answer is empty |
| QaService.RefusalHasZeroConfidence | RAG/app.py:238-259 | when no answer is left after the fallback step the confidence is 0.0; the confidence is always in [0, 1] |
| QaService.ReplyShapeByRole | RAG/app.py:262-268 | doctors and clinicians, by request role and else by header in any case, get the confidence and citations `"[1]"`..`"[n]"` with `n ≤ k`; every other role gets the answer alone |
| QaService.RetrieverAskedForAtLeastTwelve | RAG/app.py:174 | the retriever is consulted only for `max(k, 12)` candidates with the request's `alpha` and `blend_ce` |
| QaService.EvidenceIsTopRanked | RAG/app.py:181-186 | the language model sees at most `k` passages, the best-ranked in rank order, each cut to 350 characters |
| QaService.ProviderSpellingDecidesFallback | RAG/app.py:65 | `FALLBACK_ON` strips the provider but the generator's guard does not: `" gemini"` switches the fallback on and it never runs; an unset provider keeps it off |
| QaService.HeaderRoleGetsPlainPrompt | RAG/app.py:194 | a doctor known only from the `x-user-role` header gets the clinician reply but the plain prompt |
| LegacyQa.Label | app.py:121 | the level string; `LabelBands` states its bands |
| LegacyQa.LabelBands | app.py:121 | `High` iff conf ≥ 0.75, `Medium` iff 0.55 ≤ conf < 0.75, `Low` otherwise |
| LegacyQa.ExtractParts | app.py:117 | the extract is built from the first `min(3, n)` ranked texts, each cut to 180 characters |
| LegacyQa.ExtractIsShort | app.py:117 | the extract holds at most three pieces and stays within 3 × 181 characters |
| LegacyQa.ValuedMarkerIsMarker | app.py:122-123 | a marker followed by a value is a marker that the search finds |
| LegacyQa.RewriteMarkers | app.py:123 | `re.sub` of the valued confidence marker by the level line, scanning left to right; `RewritePutsReplacement` and `RewriteWithoutValuedMarker` state its meaning |
| LegacyQa.RewritePutsReplacement | app.py:123 | when a marker is followed by `High`/`Medium`/`Low`, the rewrite puts the level line into the answer |
| LegacyQa.RewriteWithoutValuedMarker | app.py:123 | without a valued marker the rewrite changes nothing |
| LegacyQa.Annotate | app.py:122-125 | the rewrite when a marker is found, else the level line appended; `LabelIsShown` and `ValuelessMarkerHidesLabel` state its meaning |
| LegacyQa.LabelIsShown | app.py:122-125 | the level line reaches the answer when there is no marker (it is appended) or a valued marker (it is rewritten) |
| LegacyQa.ValuelessMarkerHidesLabel | app.py:122-123 | a marker that no value follows is left as it is and no level line is added |
| LegacyQa.ValuelessMarkerExample | app.py:122-123 | `**Confidence**:` is such a marker, so that answer keeps no label at all |
| LegacyQa.Cite | app.py:130-142 | the loop's records equal `Citations(ranked)` |
| LegacyQa.Citations | app.py:130-142 | one record per ranked row, in order, ref `"[i+1]"`, the row's `doc_id`, score `_final` else `_ce` else `score` else 0.0, and snippet `snippet` else the text cut to 280 |
| LegacyQa.CitationsFollowRank | app.py:140 | cited scores are non-increasing when every row carries `_final` in descending order |
| LegacyQa.LegacyRanked | app.py:79-83 | at most `k` ranked rows, or `Raised` |
| LegacyQa.Rank | app.py:79-83 | asks for `max(k, 12)` candidates, reranks and cuts to `k`; either call raising makes the handler raise |
| LegacyQa.Answer | app.py:109-117 | the model's stripped text, or the extract when that is empty; the one prompt is sent only when a model is configured |
| LegacyQa.LabelAnswer | app.py:121-127 | the labelled answer, with the warning appended below 0.58 |
| LegacyQa.LegacyMlQa | app.py:67-154 | the reply, or `Raised`, and the prompts sent, as `LegacyQaReply` and `LegacyPrompts` |
| LegacyQa.Respond | app.py:109-154 | the reply built from the ranked rows, as `ReplyFor` |
| LegacyQa.ExtractWhenModelSilent | app.py:109-117 | without a model, on a raising call or an empty answer, the answer is the extract; otherwise it is the model's stripped text |
| LegacyQa.WarningBelowThreshold | app.py:126-127 | the text ends with the safety warning exactly when conf < 0.58, with level `Medium` or `Low`; the confidence lies in [0, 1] and the request is echoed |
| LegacyQa.Warning | app.py:127 | the warning text, built from the two-decimal confidence and the level; `WarningBelowThreshold` states when it is appended |
| LegacyQa.CitationPerRankedRow | app.py:130-142 | one citation per ranked row, at most `k`, refs `"[1]"`..`"[n]"` |
| LegacyQa.RaisesOnlyOutsideTheModel | app.py:79-120 | the handler raises exactly when retrieval, reranking or the confidence raised, never because of the language model |
| ValidationTable.FirstIn | evaluate_metrics.py:51-55 | a found name is both a column and a candidate |
| ValidationTable.FirstPresent | evaluate_metrics.py:51-55 | the loop returns `FirstIn(cols, candidates)` |
| ValidationTable.FirstPresentIsFirstCandidate | evaluate_metrics.py:51-55 | `None` exactly when no candidate is a column; otherwise the present candidate at the lowest position |
| ValidationTable.ResolveColumns | evaluate_metrics.py:48-68 | column resolution as a value; `ResolveFailsIffColumnMissing` states it |
| ValidationTable.ResolveFailsIffColumnMissing | evaluate_metrics.py:48-68 | resolution fails exactly when a standard column has none of its names among the lower-cased columns; the error names exactly those columns, in order, and lists the columns found; on success each chosen column is present and accepted |
| ValidationTable.ColumnCaseIsIgnored | evaluate_metrics.py:48 | column names are matched without regard to case |
| ValidationTable.TruncateToInt | evaluate_metrics.py:75 | `astype(int)` truncates toward zero |
| ValidationTable.CoerceRank | evaluate_metrics.py:75 | a parsed rank truncated toward zero, else 10^9; `TruncateToInt` and `NonNumericRankSortsLast` state it |
| ValidationTable.NonNumericRankSortsLast | evaluate_metrics.py:75 | a rank that is not a number becomes 10^9 and sorts after every numeric rank below that |
| ValidationTable.Standardized | evaluate_metrics.py:62-75 | one standardized row per table row, or the missing-column error exactly when resolution fails |
| ValidationTable.HeadPerGroupByGroup | evaluate_metrics.py:79 | `groupby.head(K)` keeps, of each group, its first rows up to the group's limit |
| ValidationTable.TrimTopK | evaluate_metrics.py:76-79 | a stable sort by rank, then `head(K)` per (query, engine) group; `TrimKeepsBestRanked` states what each group keeps |
| ValidationTable.TrimKeepsBestRanked | evaluate_metrics.py:75-79 | each (query, engine) group of the trimmed table is that group sorted by rank and cut by `head(K)`: for `K ≥ 0`, its `min(K, size)` best-ranked rows in rank order |
| RetrievalMetrics.DropDuplicates | evaluate_metrics.py:86 | `drop_duplicates` keeping the first row of each (query, engine, doc_id); the three lemmas below state it |
| RetrievalMetrics.DropDuplicatesKeepsFirst | evaluate_metrics.py:86 | after de-duplication no two rows share (query, engine, doc_id), every kept row is an input row, and every input triple is still present |
| RetrievalMetrics.DropDuplicatesKeepsFirstInOrder | evaluate_metrics.py:86 | the kept rows are the input rows at increasing positions, each the first of its triple, and every first row of a triple is among them |
| RetrievalMetrics.DropDuplicatesKeepsExactlyFirsts | evaluate_metrics.py:86 | a row is kept exactly when no earlier row has its triple |
| RetrievalMetrics.FirstRelevant | evaluate_metrics.py:99-102 | `None` iff no retrieved document is relevant, otherwise the first relevant position |
| RetrievalMetrics.ReciprocalRank | evaluate_metrics.py:98-102 | RR lies in [0, 1]; it is 0 iff nothing relevant was retrieved, and 1 iff the first document is relevant |
| RetrievalMetrics.ReciprocalRankOf | evaluate_metrics.py:98-102 | the loop with `break` computes `ReciprocalRank` |
| RetrievalMetrics.AveragePrecision | evaluate_metrics.py:105-110 | the precision sum over the number of relevant documents (at least 1); `AveragePrecisionBounds` bounds it |
| RetrievalMetrics.AveragePrecisionOf | evaluate_metrics.py:105-110 | the hit-counting loop computes `AveragePrecision` |
| RetrievalMetrics.Hits | evaluate_metrics.py:108 | there are no more hits than retrieved documents |
| RetrievalMetrics.HitsCountDistinctRelevant | evaluate_metrics.py:105-108 | without repeats the hits are the distinct relevant documents retrieved |
| RetrievalMetrics.PrecisionSumAtMostHits | evaluate_metrics.py:109 | each added precision is at most 1, so the sum is at most the hit count |
| RetrievalMetrics.AveragePrecisionBounds | evaluate_metrics.py:105-110 | AP is non-negative, and at most 1 when no document repeats |
| RetrievalMetrics.RepeatedDocumentPushesPrecisionAboveOne | evaluate_metrics.py:86 | a repeated relevant document would push AP to 2, which is why duplicates are dropped first |
| RetrievalMetrics.IdealDcgGrows | evaluate_metrics.py:116 | the ideal DCG grows with the ideal length and is positive exactly for a non-empty ideal list |
| RetrievalMetrics.DcgAtMostIdeal | evaluate_metrics.py:113-116 | the DCG is non-negative and at most the ideal DCG of the same number of relevant documents |
| RetrievalMetrics.Ndcg | evaluate_metrics.py:113-117 | DCG over the ideal DCG of `min(relevant, retrieved)` documents, 0 when that is 0; `NdcgBounds` bounds it |
| RetrievalMetrics.NdcgBounds | evaluate_metrics.py:113-117 | nDCG is 0 when the ideal DCG is 0 (no relevant, nothing retrieved, or no hit), non-negative always, and at most 1 without repeats |
| RetrievalMetrics.QueryDocsAreDistinct | evaluate_metrics.py:86-93 | in one engine's de-duplicated frame a query's document list has no repeats |
| RetrievalMetrics.ComputedScores | evaluate_metrics.py:82-126 | `compute_scores` as a value: the totals over the de-duplicated frame, each divided by `max(len(queries), 1)` and capped at 1; `ScoresInUnitRange` and `CapNeverBindsForOneEngine` state it |
| RetrievalMetrics.ComputeScores | evaluate_metrics.py:82-126 | the accumulating loop, with its `continue`s, computes `ComputedScores` |
| RetrievalMetrics.ScoresInUnitRange | evaluate_metrics.py:123-125 | every reported score lies in [0, 1] |
| RetrievalMetrics.CapNeverBindsForOneEngine | evaluate_metrics.py:123-125 | for one engine's frame each score is the plain mean over all ground-truth queries, so the 1.0 cap never applies |
| RetrievalMetrics.TotalsDependOnPrefix | evaluate_metrics.py:89-121 | the running totals after `n` queries depend only on the first `n` queries |
| RetrievalMetrics.UnscorableQueryDilutes | evaluate_metrics.py:89-95 | a query with no relevant documents, or nothing retrieved, adds 0 to every metric but still counts in the denominator |
| RetrievalMetrics.EngineScores | evaluate_metrics.py:129-132 | one engine's scores: `compute_scores` on that engine's rows; `EngineScoresAreMeans` states them |
| RetrievalMetrics.EngineScoresAreMeans | evaluate_metrics.py:129-132 | each engine's reported scores are the uncapped means, each in [0, 1] |

## Left out

- I/O and wiring are not modelled. This covers loading `.env` and configuring Gemini, FastAPI/CORS, the `/ml/qa/debug` endpoint and the CLI loop in `app.py`. It also covers the YAML/parquet/DuckDB loading, building the ground-truth map, and the `metrics.json` write in `evaluate_metrics.py`.
- Concurrency is not modelled: the async LLM gate, the semaphore and thread off-loading. The handler is modelled as sequential.
- The model behind each oracle is not modelled: the cross-encoder, the sentence embedder, the retrieval client, the LLM, `np.exp`, `np.linalg.norm`, `np.log2`, number parsing and `{:.2f}` formatting. Each is a function parameter with only its range facts.
- Prompt wording is not modelled: prompts are the constructors of `Llm.Prompt`, carrying only the question and the evidence they are built from.
- Rounding is not modelled: `round(conf, 3)`, `confidence_percent`, `round(min(avg, 1.0), 3)` and `latency_sec`. Values are reported unrounded, and there is no clock.
- `getattr(out, "text", "") or str(out)`: a completion is its text. The `str(out)` of a completion object with empty text is not modelled.
- Fallback.FallbackModel.Generate: the `role` argument is ignored by the source and is not a parameter.
- The citation pass-through keys `source`, `patient_id`, `encounter_id`, `code` and `ts` are not modelled, because they are copied without any logic.
- Case folding is ASCII only, for `.lower()`, `(?i)` and `\b`/`\d`. Unicode case equivalences are not modelled. Whitespace for `\s` and `strip()` is Python's full set.
- QaService.AnswerSource: it does not prove that the fixed refusal is left unchanged by the second cleaning at line 248. That answer is stated as either the refusal or a cleaned text.
- RetrievalMetrics.QueryDocs: it sorts a query's rows stably by rank, while the single-key `sort_values("rank")` at `evaluate_metrics.py:93` uses pandas' default quicksort, which need not keep the order of rows with equal ranks (repeated ranks, or ranks coerced to 10^9). Where ranks tie, the document order, and so MRR, MAP and nDCG, may differ from pandas'.
- ValidationTable.TrimTopK: it sorts the whole table stably by rank alone, where `evaluate_metrics.py:76` sorts by (query, engine, rank). Rows of different groups therefore interleave in rank order rather than grouped by query and engine; for example `[(q2, e, 1), (q1, e, 2)]` stays as it is, where pandas puts the `q1` row first. Within each group the order is the same as pandas' (whose multi-key sort is stable), and `compute_scores` only drops duplicates within a (query, engine) group and reads one query's rows at a time, so no metric depends on the order across groups.
- Duplicate column labels are not modelled: the first column of a name is used. Infinite ranks are not modelled either: a parsed rank is a finite real.
- The per-engine loop's `sorted` order of engines and its `print` are not modelled. Each engine's scores are the function `EngineScores`.
- client.py, the scaffold gateway and bot, the speech and chat wrappers, the index scripts and the UI are not part of this model.
