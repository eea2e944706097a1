/**
 * `compute_scores` of `evaluate_metrics.py`: mean reciprocal rank, mean
 * average precision and nDCG with binary relevance for one engine's
 * retrieved documents against the ground truth, each averaged over all
 * ground-truth queries and capped at 1. `log2` is the only oracle.
 */
module RetrievalMetrics {
  import opened Common
  import opened StableSort
  import opened RealArith
  import opened ValidationTable

  /** The ground truth: its queries in file order, and the relevant document ids of each. */
  datatype GroundTruth = GroundTruth(queries: seq<string>, relevant: map<string, set<string>>)

  /** `gt_map.get(q, set())`. */
  function RelevantTo(gt: GroundTruth, q: string): set<string> {
    if q in gt.relevant then gt.relevant[q] else {}
  }

  /** The three metrics, in the order of the `scores` dictionary. */
  datatype Scores = Scores(mrr: real, meanAp: real, ndcg: real)

  /** `np.log2` is at least 1 from 2 on, and increasing there. */
  ghost predicate Log2Behaves(log2: real -> real) {
    && (forall x :: 2.0 <= x ==> 1.0 <= log2(x))
    && (forall x, y :: 2.0 <= x <= y ==> log2(x) <= log2(y))
  }

  predicate NoDuplicates(docs: seq<string>) {
    forall i, j :: 0 <= i < j < |docs| ==> docs[i] != docs[j]
  }

  // ---------------------------------------------------------------------------
  // The documents of one query

  predicate SameEntry(a: Retrieved, b: Retrieved) {
    a.query == b.query && a.engine == b.engine && a.docId == b.docId
  }

  predicate Seen(s: seq<Retrieved>, x: Retrieved) {
    exists i :: 0 <= i < |s| && SameEntry(s[i], x)
  }

  /** `drop_duplicates(subset=["query", "engine", "doc_id"])`: keep the first row of each triple. */
  function DropDuplicates(s: seq<Retrieved>): seq<Retrieved> {
    if s == [] then []
    else
      var init := s[..|s| - 1];
      DropDuplicates(init) + (if Seen(init, s[|s| - 1]) then [] else [s[|s| - 1]])
  }

  predicate DistinctEntries(s: seq<Retrieved>) {
    forall i, j :: 0 <= i < j < |s| ==> !SameEntry(s[i], s[j])
  }

  /**
   * After dropping duplicates no two rows share a (query, engine, doc_id)
   * triple, every kept row is an input row, and every input triple is kept.
   */
  lemma {:induction false} DropDuplicatesKeepsFirst(s: seq<Retrieved>)
    ensures DistinctEntries(DropDuplicates(s))
    ensures forall x :: x in DropDuplicates(s) ==> x in s
    ensures forall x :: x in s ==> Seen(DropDuplicates(s), x)
  {
    if s != [] {
      var init, last := s[..|s| - 1], s[|s| - 1];
      var d := DropDuplicates(init);
      DropDuplicatesKeepsFirst(init);
      assert s == init + [last];
      if !Seen(init, last) {
        var r := d + [last];
        forall i, j | 0 <= i < j < |r| ensures !SameEntry(r[i], r[j]) {
          if j == |d| {
            assert r[i] == d[i] && d[i] in init;
            var m :| 0 <= m < |init| && init[m] == d[i];
            assert !SameEntry(init[m], last);
          }
        }
        forall x | x in s ensures Seen(r, x) {
          if x in init {
            var m :| 0 <= m < |d| && SameEntry(d[m], x);
            assert r[m] == d[m];
          } else {
            assert r[|d|] == x;
          }
        }
      } else {
        assert DropDuplicates(s) == d;
        forall x | x in s ensures Seen(d, x) {
          if x == last {
            var m :| 0 <= m < |init| && SameEntry(init[m], last);
            assert init[m] in init;
            var p :| 0 <= p < |d| && SameEntry(d[p], init[m]);
            assert SameEntry(d[p], x);
          } else {
            assert x in init;
          }
        }
      }
    }
  }

  /** The positions of the rows `drop_duplicates` keeps: those whose triple no earlier row has. */
  function FirstIndices(s: seq<Retrieved>): (idx: seq<nat>)
    ensures forall k :: 0 <= k < |idx| ==> idx[k] < |s|
  {
    if s == [] then []
    else
      var init := s[..|s| - 1];
      FirstIndices(init) + (if Seen(init, s[|s| - 1]) then [] else [|s| - 1])
  }

  /**
   * The kept rows are exactly the first row of each triple, in input order:
   * the k-th kept row is the input row at `FirstIndices(s)[k]`, those
   * positions increase, each holds a triple no earlier row has, and every
   * such position is among them.
   */
  lemma {:induction false} DropDuplicatesKeepsFirstInOrder(s: seq<Retrieved>)
    ensures |FirstIndices(s)| == |DropDuplicates(s)|
    ensures forall k :: 0 <= k < |FirstIndices(s)| ==>
      DropDuplicates(s)[k] == s[FirstIndices(s)[k]] && !Seen(s[..FirstIndices(s)[k]], s[FirstIndices(s)[k]])
    ensures forall k, l :: 0 <= k < l < |FirstIndices(s)| ==> FirstIndices(s)[k] < FirstIndices(s)[l]
    ensures forall i :: 0 <= i < |s| && !Seen(s[..i], s[i]) ==> i in FirstIndices(s)
  {
    KeptRowsAreFirsts(s);
    FirstIndicesIncrease(s);
    FirstsAreKept(s);
  }

  lemma {:induction false} KeptRowsAreFirsts(s: seq<Retrieved>)
    ensures |FirstIndices(s)| == |DropDuplicates(s)|
    ensures forall k :: 0 <= k < |FirstIndices(s)| ==>
      DropDuplicates(s)[k] == s[FirstIndices(s)[k]] && !Seen(s[..FirstIndices(s)[k]], s[FirstIndices(s)[k]])
  {
    if s != [] {
      var init, last := s[..|s| - 1], s[|s| - 1];
      KeptRowsAreFirsts(init);
      var d, idx := DropDuplicates(init), FirstIndices(init);
      var r, ix := DropDuplicates(s), FirstIndices(s);
      if Seen(init, last) {
        assert r == d && ix == idx;
      } else {
        assert r == d + [last] && ix == idx + [|s| - 1];
      }
      forall k | 0 <= k < |ix| ensures r[k] == s[ix[k]] && !Seen(s[..ix[k]], s[ix[k]]) {
        if k < |idx| {
          assert r[k] == d[k] && ix[k] == idx[k];
          PrefixOfInit(s, idx[k]);
        }
      }
    }
  }

  lemma {:induction false} FirstIndicesIncrease(s: seq<Retrieved>)
    ensures forall k, l :: 0 <= k < l < |FirstIndices(s)| ==> FirstIndices(s)[k] < FirstIndices(s)[l]
  {
    if s != [] {
      FirstIndicesIncrease(s[..|s| - 1]);
    }
  }

  lemma {:induction false} FirstsAreKept(s: seq<Retrieved>)
    ensures forall i :: 0 <= i < |s| && !Seen(s[..i], s[i]) ==> i in FirstIndices(s)
  {
    if s != [] {
      var init := s[..|s| - 1];
      FirstsAreKept(init);
      forall i | 0 <= i < |s| && !Seen(s[..i], s[i]) ensures i in FirstIndices(s) {
        if i < |init| {
          PrefixOfInit(s, i);
        } else {
          assert s[..i] == init;
        }
      }
    }
  }

  lemma PrefixOfInit(s: seq<Retrieved>, i: nat)
    requires i < |s| - 1
    ensures s[..|s| - 1][..i] == s[..i] && s[..|s| - 1][i] == s[i]
  {
  }

  /** A row is kept exactly when it is the first of its triple. */
  lemma DropDuplicatesKeepsExactlyFirsts(s: seq<Retrieved>)
    ensures forall x :: x in DropDuplicates(s) <==> exists i :: 0 <= i < |s| && s[i] == x && !Seen(s[..i], x)
  {
    DropDuplicatesKeepsFirstInOrder(s);
    var r, ix := DropDuplicates(s), FirstIndices(s);
    forall x | x in r ensures exists i :: 0 <= i < |s| && s[i] == x && !Seen(s[..i], x) {
      var k :| 0 <= k < |r| && r[k] == x;
      assert s[ix[k]] == x;
    }
    forall x | exists i :: 0 <= i < |s| && s[i] == x && !Seen(s[..i], x) ensures x in r {
      var i :| 0 <= i < |s| && s[i] == x && !Seen(s[..i], x);
      var k :| 0 <= k < |ix| && ix[k] == i;
      assert r[k] == x;
    }
  }

  function QueryOf(r: Retrieved): string { r.query }

  function DocIds(s: seq<Retrieved>): (ids: seq<string>)
    ensures |ids| == |s|
    ensures forall i :: 0 <= i < |s| ==> ids[i] == s[i].docId
  {
    seq(|s|, i requires 0 <= i < |s| => s[i].docId)
  }

  /** `df[df["query"] == q].sort_values("rank")["doc_id"].tolist()`. */
  function QueryDocs(deduped: seq<Retrieved>, q: string): seq<string> {
    DocIds(SortBy(Where(deduped, QueryOf, q), RankKey))
  }

  // ---------------------------------------------------------------------------
  // Per-query metrics

  /** The index of the first relevant document, or `None`. */
  function FirstRelevant(docs: seq<string>, rel: set<string>): (r: Option<nat>)
    ensures r.None? <==> forall i :: 0 <= i < |docs| ==> docs[i] !in rel
    ensures r.Some? ==> r.value < |docs| && docs[r.value] in rel
                        && forall i :: 0 <= i < r.value ==> docs[i] !in rel
  {
    if docs == [] then None
    else if docs[0] in rel then Some(0)
    else match FirstRelevant(docs[1..], rel)
      case None => None
      case Some(i) => Some(i + 1)
  }

  /** `1 / r` for the first 1-based rank `r` holding a relevant document, else 0. */
  function ReciprocalRank(docs: seq<string>, rel: set<string>): (rr: real)
    ensures 0.0 <= rr <= 1.0
    ensures rr == 0.0 <==> forall i :: 0 <= i < |docs| ==> docs[i] !in rel
    ensures rr == 1.0 <==> docs != [] && docs[0] in rel
  {
    match FirstRelevant(docs, rel)
    case None => 0.0
    case Some(i) =>
      Reciprocal(i + 1);
      1.0 / (i + 1) as real
  }

  lemma Reciprocal(n: nat)
    requires n >= 1
    ensures 0.0 < 1.0 / n as real <= 1.0
    ensures 1.0 / n as real == 1.0 <==> n == 1
  {
    if n > 1 {
      DivBelowOne(1.0, n as real);
    }
  }

  /** The number of relevant documents among `docs`. */
  function Hits(docs: seq<string>, rel: set<string>): (h: nat)
    ensures h <= |docs|
  {
    if docs == [] then 0
    else Hits(docs[..|docs| - 1], rel) + (if docs[|docs| - 1] in rel then 1 else 0)
  }

  /** `prec_sum`: the precision at each relevant position, summed. */
  function PrecisionSum(docs: seq<string>, rel: set<string>): real {
    if docs == [] then 0.0
    else
      PrecisionSum(docs[..|docs| - 1], rel)
        + (if docs[|docs| - 1] in rel then Hits(docs, rel) as real / |docs| as real else 0.0)
  }

  /** `prec_sum / max(len(rel_docs), 1)`. */
  function AveragePrecision(docs: seq<string>, rel: set<string>): real {
    PrecisionSum(docs, rel) / Max(|rel|, 1) as real
  }

  /** `2**rel - 1` for binary relevance. */
  function Gain(d: string, rel: set<string>): real {
    if d in rel then 1.0 else 0.0
  }

  /** `dcg`: gains discounted by `log2(i + 2)` at 0-based position `i`. */
  function Dcg(docs: seq<string>, rel: set<string>, log2: real -> real): real
    requires Log2Behaves(log2)
  {
    if docs == [] then 0.0
    else Dcg(docs[..|docs| - 1], rel, log2) + Gain(docs[|docs| - 1], rel) / log2((|docs| + 1) as real)
  }

  /** `ideal`: the discounted gain of `n` relevant documents at the top. */
  function IdealDcg(n: nat, log2: real -> real): real
    requires Log2Behaves(log2)
  {
    if n == 0 then 0.0 else IdealDcg(n - 1, log2) + 1.0 / log2((n + 1) as real)
  }

  /** `dcg / ideal if ideal > 0 else 0.0`, the ideal list being `min(len(rel), len(docs))` long. */
  function Ndcg(docs: seq<string>, rel: set<string>, log2: real -> real): real
    requires Log2Behaves(log2)
  {
    var ideal := IdealDcg(Min(|rel|, |docs|), log2);
    if ideal > 0.0 then Dcg(docs, rel, log2) / ideal else 0.0
  }

  // ---------------------------------------------------------------------------
  // The loops of compute_scores

  /** The reciprocal-rank loop: stop at the first relevant document. */
  method ReciprocalRankOf(docs: seq<string>, rel: set<string>) returns (rr: real)
    ensures rr == ReciprocalRank(docs, rel)
  {
    rr := 0.0;
    var r := 0;
    while r < |docs|
      invariant 0 <= r <= |docs|
      invariant forall i :: 0 <= i < r ==> docs[i] !in rel
    {
      if docs[r] in rel {
        rr := 1.0 / (r + 1) as real;
        break;
      }
      r := r + 1;
    }
  }

  /** The average-precision loop: count hits and add the precision at each of them. */
  method AveragePrecisionOf(docs: seq<string>, rel: set<string>) returns (ap: real)
    ensures ap == AveragePrecision(docs, rel)
  {
    var hits, precSum := 0, 0.0;
    for r := 0 to |docs|
      invariant hits == Hits(docs[..r], rel)
      invariant precSum == PrecisionSum(docs[..r], rel)
    {
      assert docs[..r + 1][..r] == docs[..r];
      if docs[r] in rel {
        hits := hits + 1;
        precSum := precSum + hits as real / (r + 1) as real;
      }
    }
    assert docs[..|docs|] == docs;
    ap := precSum / Max(|rel|, 1) as real;
  }

  /** What one ground-truth query adds: nothing when it has no relevant set or no retrieved documents. */
  function QueryScores(deduped: seq<Retrieved>, gt: GroundTruth, q: string, log2: real -> real): Scores
    requires Log2Behaves(log2)
  {
    var rel := RelevantTo(gt, q);
    var docs := QueryDocs(deduped, q);
    if rel == {} || docs == [] then Scores(0.0, 0.0, 0.0)
    else Scores(ReciprocalRank(docs, rel), AveragePrecision(docs, rel), Ndcg(docs, rel, log2))
  }

  function Add(a: Scores, b: Scores): Scores {
    Scores(a.mrr + b.mrr, a.meanAp + b.meanAp, a.ndcg + b.ndcg)
  }

  /** The accumulated `scores` after the first `n` ground-truth queries. */
  function Totals(deduped: seq<Retrieved>, gt: GroundTruth, n: nat, log2: real -> real): Scores
    requires n <= |gt.queries|
    requires Log2Behaves(log2)
  {
    if n == 0 then Scores(0.0, 0.0, 0.0)
    else Add(Totals(deduped, gt, n - 1, log2), QueryScores(deduped, gt, gt.queries[n - 1], log2))
  }

  /** `min(total / max(count, 1), 1.0)`. */
  function Mean(total: real, count: nat): real {
    RMin(total / Max(count, 1) as real, 1.0)
  }

  /** The scores `compute_scores` returns, before rounding. */
  function ComputedScores(df: seq<Retrieved>, gt: GroundTruth, log2: real -> real): Scores
    requires Log2Behaves(log2)
  {
    var t := Totals(DropDuplicates(df), gt, |gt.queries|, log2);
    var n := |gt.queries|;
    Scores(Mean(t.mrr, n), Mean(t.meanAp, n), Mean(t.ndcg, n))
  }

  /** `compute_scores(df, gt_map)`: accumulate over the ground-truth queries, then average and cap. */
  method ComputeScores(df: seq<Retrieved>, gt: GroundTruth, log2: real -> real) returns (scores: Scores)
    requires Log2Behaves(log2)
    ensures scores == ComputedScores(df, gt, log2)
  {
    var deduped := DropDuplicates(df);
    var mrr, meanAp, ndcg := 0.0, 0.0, 0.0;
    for i := 0 to |gt.queries|
      invariant Scores(mrr, meanAp, ndcg) == Totals(deduped, gt, i, log2)
    {
      var q := gt.queries[i];
      var rel := RelevantTo(gt, q);
      if rel == {} {
        continue;
      }
      var docs := QueryDocs(deduped, q);
      if docs == [] {
        continue;
      }
      var rr := ReciprocalRankOf(docs, rel);
      var ap := AveragePrecisionOf(docs, rel);
      var nd := Ndcg(docs, rel, log2);
      mrr, meanAp, ndcg := mrr + rr, meanAp + ap, ndcg + nd;
    }
    var n := Max(|gt.queries|, 1) as real;
    scores := Scores(RMin(mrr / n, 1.0), RMin(meanAp / n, 1.0), RMin(ndcg / n, 1.0));
  }

  // ---------------------------------------------------------------------------
  // Average precision

  function RelevantAmong(docs: seq<string>, rel: set<string>): set<string> {
    set d | d in docs && d in rel
  }

  lemma {:induction false} HitsCountDistinctRelevant(docs: seq<string>, rel: set<string>)
    requires NoDuplicates(docs)
    ensures Hits(docs, rel) == |RelevantAmong(docs, rel)|
  {
    if docs != [] {
      var init, x := docs[..|docs| - 1], docs[|docs| - 1];
      assert docs == init + [x];
      assert NoDuplicates(init) by {
        forall i, j | 0 <= i < j < |init| ensures init[i] != init[j] {
          assert init[i] == docs[i] && init[j] == docs[j];
        }
      }
      assert x !in init by {
        forall i | 0 <= i < |init| ensures init[i] != x {
          assert init[i] == docs[i];
        }
      }
      HitsCountDistinctRelevant(init, rel);
      RelevantAmongSnoc(init, x, rel);
    }
  }

  /** Appending a document not seen before adds it to the relevant ones found exactly when it is relevant. */
  lemma RelevantAmongSnoc(init: seq<string>, x: string, rel: set<string>)
    requires x !in init
    ensures |RelevantAmong(init + [x], rel)| == |RelevantAmong(init, rel)| + (if x in rel then 1 else 0)
  {
    var before := RelevantAmong(init, rel);
    assert x !in before;
    if x in rel {
      assert RelevantAmong(init + [x], rel) == before + {x};
    } else {
      assert RelevantAmong(init + [x], rel) == before;
    }
  }

  /** Without repeated documents there are no more hits than relevant documents. */
  lemma HitsAtMostRelevant(docs: seq<string>, rel: set<string>)
    requires NoDuplicates(docs)
    ensures Hits(docs, rel) <= |rel|
  {
    HitsCountDistinctRelevant(docs, rel);
    SubsetCardinality(RelevantAmong(docs, rel), rel);
  }

  /** Each precision added is at most 1, and one is added per hit. */
  lemma {:induction false} PrecisionSumAtMostHits(docs: seq<string>, rel: set<string>)
    ensures 0.0 <= PrecisionSum(docs, rel) <= Hits(docs, rel) as real
  {
    if docs != [] {
      var init := docs[..|docs| - 1];
      PrecisionSumAtMostHits(init, rel);
      if docs[|docs| - 1] in rel {
        FractionBounds(Hits(docs, rel) as real, |docs| as real);
      }
    }
  }

  /**
   * Average precision is never negative, and at most 1 when no document is
   * repeated.
   */
  lemma AveragePrecisionBounds(docs: seq<string>, rel: set<string>)
    ensures 0.0 <= AveragePrecision(docs, rel)
    ensures NoDuplicates(docs) ==> AveragePrecision(docs, rel) <= 1.0
  {
    PrecisionSumAtMostHits(docs, rel);
    var m := Max(|rel|, 1) as real;
    DivMonotone(0.0, PrecisionSum(docs, rel), m);
    ZeroOver(m);
    if NoDuplicates(docs) {
      HitsAtMostRelevant(docs, rel);
      FractionBounds(PrecisionSum(docs, rel), m);
    }
  }

  /** A repeated relevant document counts twice: the duplicates must be dropped first. */
  lemma RepeatedDocumentPushesPrecisionAboveOne()
    ensures AveragePrecision(["a", "a"], {"a"}) == 2.0
  {
    var docs := ["a", "a"];
    assert docs[..1] == ["a"] && docs[..1][..0] == [];
    assert Hits(docs[..1], {"a"}) == 1;
    assert Hits(docs, {"a"}) == 2;
    assert PrecisionSum(docs[..1], {"a"}) == 1.0;
    assert PrecisionSum(docs, {"a"}) == 2.0;
  }

  // ---------------------------------------------------------------------------
  // nDCG

  /** The ideal gain is positive exactly for a non-empty ideal list, and grows with its length. */
  lemma {:induction false} IdealDcgGrows(m: nat, n: nat, log2: real -> real)
    requires Log2Behaves(log2)
    requires m <= n
    ensures 0.0 <= IdealDcg(m, log2) <= IdealDcg(n, log2)
    ensures IdealDcg(n, log2) > 0.0 <==> n > 0
    decreases n
  {
    if n > 0 {
      assert 1.0 <= log2((n + 1) as real);
      ReciprocalAntitone(1.0, log2((n + 1) as real));
      if m < n {
        IdealDcgGrows(m, n - 1, log2);
      } else {
        IdealDcgGrows(n - 1, n - 1, log2);
      }
    }
  }

  /**
   * The discounted gain is never negative and never more than that of the
   * same number of relevant documents placed at the top.
   */
  lemma {:induction false} DcgAtMostIdeal(docs: seq<string>, rel: set<string>, log2: real -> real)
    requires Log2Behaves(log2)
    ensures 0.0 <= Dcg(docs, rel, log2) <= IdealDcg(Hits(docs, rel), log2)
  {
    if docs != [] {
      var init, x := docs[..|docs| - 1], docs[|docs| - 1];
      DcgAtMostIdeal(init, rel, log2);
      var l := log2((|docs| + 1) as real);
      assert 1.0 <= l;
      if x in rel {
        var h := Hits(init, rel);
        assert 2.0 <= (h + 2) as real <= (|docs| + 1) as real;
        assert 1.0 <= log2((h + 2) as real) <= l;
        ReciprocalAntitone(log2((h + 2) as real), l);
        assert IdealDcg(h + 1, log2) == IdealDcg(h, log2) + 1.0 / log2((h + 2) as real);
      } else {
        ZeroOver(l);
      }
    }
  }

  /**
   * nDCG lies in [0, 1] when no document is repeated; it is 0 when the
   * query has no relevant documents or nothing was retrieved, and when
   * nothing retrieved is relevant.
   */
  lemma NdcgBounds(docs: seq<string>, rel: set<string>, log2: real -> real)
    requires Log2Behaves(log2)
    ensures 0.0 <= Ndcg(docs, rel, log2)
    ensures NoDuplicates(docs) ==> Ndcg(docs, rel, log2) <= 1.0
    ensures rel == {} || docs == [] ==> Ndcg(docs, rel, log2) == 0.0
    ensures (forall i :: 0 <= i < |docs| ==> docs[i] !in rel) ==> Ndcg(docs, rel, log2) == 0.0
  {
    var n := Min(|rel|, |docs|);
    var ideal := IdealDcg(n, log2);
    DcgAtMostIdeal(docs, rel, log2);
    IdealDcgGrows(n, n, log2);
    if ideal > 0.0 {
      DivMonotone(0.0, Dcg(docs, rel, log2), ideal);
      ZeroOver(ideal);
      if NoDuplicates(docs) {
        HitsAtMostRelevant(docs, rel);
        IdealDcgGrows(Hits(docs, rel), n, log2);
        FractionBounds(Dcg(docs, rel, log2), ideal);
      }
      if forall i :: 0 <= i < |docs| ==> docs[i] !in rel {
        NoHitsWithoutRelevant(docs, rel);
        IdealDcgGrows(0, 0, log2);
      }
    }
  }

  lemma {:induction false} NoHitsWithoutRelevant(docs: seq<string>, rel: set<string>)
    requires forall i :: 0 <= i < |docs| ==> docs[i] !in rel
    ensures Hits(docs, rel) == 0
  {
    if docs != [] {
      NoHitsWithoutRelevant(docs[..|docs| - 1], rel);
    }
  }

  // ---------------------------------------------------------------------------
  // One engine's documents for a query are distinct

  predicate DistinctIds(s: seq<Retrieved>) {
    forall i, j :: 0 <= i < j < |s| ==> s[i].docId != s[j].docId
  }

  lemma {:induction false} WhereKeepsDistinctEntries(s: seq<Retrieved>, q: string)
    requires DistinctEntries(s)
    ensures DistinctEntries(Where(s, QueryOf, q))
  {
    if s != [] {
      var rest := s[1..];
      assert DistinctEntries(rest) by {
        forall i, j | 0 <= i < j < |rest| ensures !SameEntry(rest[i], rest[j]) {
          assert rest[i] == s[i + 1] && rest[j] == s[j + 1];
        }
      }
      WhereKeepsDistinctEntries(rest, q);
      var u := Where(rest, QueryOf, q);
      if QueryOf(s[0]) == q {
        var r := [s[0]] + u;
        forall i, j | 0 <= i < j < |r| ensures !SameEntry(r[i], r[j]) {
          if i == 0 {
            WhereMember(rest, QueryOf, q, r[j]);
            var m :| 0 <= m < |rest| && rest[m] == r[j];
            assert s[m + 1] == r[j];
          } else {
            assert r[i] == u[i - 1] && r[j] == u[j - 1];
          }
        }
      }
    }
  }

  lemma {:induction false} InsertKeepsDistinctIds(x: Retrieved, s: seq<Retrieved>, key: Retrieved -> real)
    requires DistinctIds(s)
    requires forall y :: y in s ==> y.docId != x.docId
    ensures DistinctIds(Insert(x, s, key))
  {
    if s == [] || key(x) <= key(s[0]) {
      DistinctIdsCons(x, s);
    } else {
      var rest := s[1..];
      DistinctIdsTail(s);
      InsertKeepsDistinctIds(x, rest, key);
      InsertPermutes(x, rest, key);
      var u := Insert(x, rest, key);
      forall y | y in u ensures y.docId != s[0].docId {
        assert y in multiset(u);
        if y != x {
          assert y in multiset(rest);
          var m :| 0 <= m < |rest| && rest[m] == y;
          assert s[m + 1] == y;
        }
      }
      DistinctIdsCons(s[0], u);
    }
  }

  /** A document whose id is new may go in front. */
  lemma DistinctIdsCons(x: Retrieved, s: seq<Retrieved>)
    requires DistinctIds(s)
    requires forall y :: y in s ==> y.docId != x.docId
    ensures DistinctIds([x] + s)
  {
    var r := [x] + s;
    forall i, j | 0 <= i < j < |r| ensures r[i].docId != r[j].docId {
      assert r[j] == s[j - 1];
      if i > 0 { assert r[i] == s[i - 1]; }
    }
  }

  lemma DistinctIdsTail(s: seq<Retrieved>)
    requires DistinctIds(s) && s != []
    ensures DistinctIds(s[1..])
  {
    var rest := s[1..];
    forall i, j | 0 <= i < j < |rest| ensures rest[i].docId != rest[j].docId {
      assert rest[i] == s[i + 1] && rest[j] == s[j + 1];
    }
  }

  lemma {:induction false} SortKeepsDistinctIds(s: seq<Retrieved>, key: Retrieved -> real)
    requires DistinctIds(s)
    ensures DistinctIds(SortBy(s, key))
  {
    if s != [] {
      var rest := s[1..];
      DistinctIdsTail(s);
      SortKeepsDistinctIds(rest, key);
      SortByPermutesAndSorts(rest, key);
      forall y | y in SortBy(rest, key) ensures y.docId != s[0].docId {
        assert y in multiset(rest);
        var m :| 0 <= m < |rest| && rest[m] == y;
        assert s[m + 1] == y;
      }
      InsertKeepsDistinctIds(s[0], SortBy(rest, key), key);
    }
  }

  /**
   * In one engine's frame, after dropping duplicates, the documents listed
   * for a query are all different.
   */
  lemma QueryDocsAreDistinct(df: seq<Retrieved>, q: string, engine: string)
    requires forall r :: r in df ==> r.engine == engine
    ensures NoDuplicates(QueryDocs(DropDuplicates(df), q))
  {
    var dd := DropDuplicates(df);
    DropDuplicatesKeepsFirst(df);
    WhereKeepsDistinctEntries(dd, q);
    var w := Where(dd, QueryOf, q);
    forall i, j | 0 <= i < j < |w| ensures w[i].docId != w[j].docId {
      WhereMember(dd, QueryOf, q, w[i]);
      WhereMember(dd, QueryOf, q, w[j]);
    }
    SortKeepsDistinctIds(w, RankKey);
  }

  // ---------------------------------------------------------------------------
  // The averages

  lemma QueryScoresNonnegative(deduped: seq<Retrieved>, gt: GroundTruth, q: string, log2: real -> real)
    requires Log2Behaves(log2)
    ensures var s := QueryScores(deduped, gt, q, log2);
      0.0 <= s.mrr && 0.0 <= s.meanAp && 0.0 <= s.ndcg
  {
    var docs := QueryDocs(deduped, q);
    AveragePrecisionBounds(docs, RelevantTo(gt, q));
    NdcgBounds(docs, RelevantTo(gt, q), log2);
  }

  /** For one engine every query adds at most 1 to each metric. */
  lemma QueryScoresAtMostOne(df: seq<Retrieved>, gt: GroundTruth, q: string, log2: real -> real, engine: string)
    requires Log2Behaves(log2)
    requires forall r :: r in df ==> r.engine == engine
    ensures var s := QueryScores(DropDuplicates(df), gt, q, log2);
      && 0.0 <= s.mrr <= 1.0 && 0.0 <= s.meanAp <= 1.0 && 0.0 <= s.ndcg <= 1.0
  {
    var docs := QueryDocs(DropDuplicates(df), q);
    QueryDocsAreDistinct(df, q, engine);
    AveragePrecisionBounds(docs, RelevantTo(gt, q));
    NdcgBounds(docs, RelevantTo(gt, q), log2);
  }

  lemma {:induction false} TotalsNonnegative(deduped: seq<Retrieved>, gt: GroundTruth, n: nat, log2: real -> real)
    requires n <= |gt.queries|
    requires Log2Behaves(log2)
    ensures var t := Totals(deduped, gt, n, log2);
      0.0 <= t.mrr && 0.0 <= t.meanAp && 0.0 <= t.ndcg
  {
    if n > 0 {
      TotalsNonnegative(deduped, gt, n - 1, log2);
      QueryScoresNonnegative(deduped, gt, gt.queries[n - 1], log2);
    }
  }

  lemma {:induction false} TotalsAtMostCount(df: seq<Retrieved>, gt: GroundTruth, n: nat, log2: real -> real, engine: string)
    requires n <= |gt.queries|
    requires Log2Behaves(log2)
    requires forall r :: r in df ==> r.engine == engine
    ensures var t := Totals(DropDuplicates(df), gt, n, log2);
      t.mrr <= n as real && t.meanAp <= n as real && t.ndcg <= n as real
  {
    if n > 0 {
      TotalsAtMostCount(df, gt, n - 1, log2, engine);
      QueryScoresAtMostOne(df, gt, gt.queries[n - 1], log2, engine);
    }
  }

  /** Every reported score lies in [0, 1]. */
  lemma ScoresInUnitRange(df: seq<Retrieved>, gt: GroundTruth, log2: real -> real)
    requires Log2Behaves(log2)
    ensures var s := ComputedScores(df, gt, log2);
      && 0.0 <= s.mrr <= 1.0 && 0.0 <= s.meanAp <= 1.0 && 0.0 <= s.ndcg <= 1.0
  {
    var t := Totals(DropDuplicates(df), gt, |gt.queries|, log2);
    TotalsNonnegative(DropDuplicates(df), gt, |gt.queries|, log2);
    var m := Max(|gt.queries|, 1) as real;
    ZeroOver(m);
    DivMonotone(0.0, t.mrr, m);
    DivMonotone(0.0, t.meanAp, m);
    DivMonotone(0.0, t.ndcg, m);
  }

  /**
   * For a frame holding one engine (as every call in the script passes) the
   * cap at 1.0 never takes effect: each score is the plain mean over all
   * ground-truth queries.
   */
  lemma CapNeverBindsForOneEngine(df: seq<Retrieved>, gt: GroundTruth, log2: real -> real, engine: string)
    requires Log2Behaves(log2)
    requires forall r :: r in df ==> r.engine == engine
    ensures var t := Totals(DropDuplicates(df), gt, |gt.queries|, log2);
      var m := Max(|gt.queries|, 1) as real;
      ComputedScores(df, gt, log2) == Scores(t.mrr / m, t.meanAp / m, t.ndcg / m)
  {
    var n := |gt.queries|;
    var t := Totals(DropDuplicates(df), gt, n, log2);
    var m := Max(n, 1) as real;
    TotalsNonnegative(DropDuplicates(df), gt, n, log2);
    TotalsAtMostCount(df, gt, n, log2, engine);
    FractionBounds(t.mrr, m);
    FractionBounds(t.meanAp, m);
    FractionBounds(t.ndcg, m);
  }

  lemma {:induction false} TotalsDependOnPrefix(deduped: seq<Retrieved>, gt: GroundTruth, other: GroundTruth, n: nat, log2: real -> real)
    requires Log2Behaves(log2)
    requires n <= |gt.queries| && n <= |other.queries|
    requires gt.queries[..n] == other.queries[..n] && gt.relevant == other.relevant
    ensures Totals(deduped, gt, n, log2) == Totals(deduped, other, n, log2)
  {
    if n > 0 {
      assert gt.queries[..n - 1] == other.queries[..n - 1];
      assert gt.queries[n - 1] == gt.queries[..n][n - 1];
      TotalsDependOnPrefix(deduped, gt, other, n - 1, log2);
    }
  }

  /**
   * A ground-truth query without relevant documents, or for which nothing was
   * retrieved, adds nothing to any metric but still counts in the mean.
   */
  lemma UnscorableQueryDilutes(df: seq<Retrieved>, gt: GroundTruth, q: string, log2: real -> real)
    requires Log2Behaves(log2)
    requires RelevantTo(gt, q) == {} || QueryDocs(DropDuplicates(df), q) == []
    ensures var more := GroundTruth(gt.queries + [q], gt.relevant);
      var t := Totals(DropDuplicates(df), gt, |gt.queries|, log2);
      var n := |gt.queries| + 1;
      ComputedScores(df, more, log2) == Scores(Mean(t.mrr, n), Mean(t.meanAp, n), Mean(t.ndcg, n))
  {
    var more := GroundTruth(gt.queries + [q], gt.relevant);
    var n := |gt.queries|;
    assert more.queries[..n] == gt.queries[..n];
    TotalsDependOnPrefix(DropDuplicates(df), gt, more, n, log2);
    assert more.queries[n] == q;
  }

  // ---------------------------------------------------------------------------
  // Per engine

  function EngineOf(r: Retrieved): string { r.engine }

  /** `compute_scores(val_df[val_df["engine"] == engine], ground_truth)`. */
  function EngineScores(rows: seq<Retrieved>, engine: string, gt: GroundTruth, log2: real -> real): Scores
    requires Log2Behaves(log2)
  {
    ComputedScores(Where(rows, EngineOf, engine), gt, log2)
  }

  /** The scores the script reports per engine are uncapped means, each in [0, 1]. */
  lemma EngineScoresAreMeans(rows: seq<Retrieved>, engine: string, gt: GroundTruth, log2: real -> real)
    requires Log2Behaves(log2)
    ensures var df := Where(rows, EngineOf, engine);
      var t := Totals(DropDuplicates(df), gt, |gt.queries|, log2);
      var m := Max(|gt.queries|, 1) as real;
      var s := EngineScores(rows, engine, gt, log2);
      && s == Scores(t.mrr / m, t.meanAp / m, t.ndcg / m)
      && 0.0 <= s.mrr <= 1.0 && 0.0 <= s.meanAp <= 1.0 && 0.0 <= s.ndcg <= 1.0
  {
    var df := Where(rows, EngineOf, engine);
    forall r | r in df ensures r.engine == engine {
      WhereMember(rows, EngineOf, engine, r);
    }
    CapNeverBindsForOneEngine(df, gt, log2, engine);
    ScoresInUnitRange(df, gt, log2);
  }
}
