/**
 * scoring.py: min-max normalisation, cross-encoder reranking and the
 * answer confidence. Scores are reals; the cross-encoder, the sentence
 * embedder, `np.exp` and `np.linalg.norm` are the fields of `Models`, of
 * which only the facts the code relies on are assumed (`WellBehaved`).
 */
module Scoring {
  import opened Common
  import opened Rows
  import opened StableSort
  import opened RealArith

  /** The `1e-12` that guards the divisions. */
  const Eps: real := 0.000000000001

  type Pair = (string, string)

  /**
   * The models behind the module: `crossEncoder` scores (query, passage)
   * pairs, `embed` maps a text to a vector, `exp` and `norm` are `np.exp`
   * and `np.linalg.norm`. A model call may raise.
   */
  datatype Models = Models(
    crossEncoder: seq<Pair> -> Outcome<seq<real>>,
    embed: string -> Outcome<seq<real>>,
    exp: real -> real,
    norm: seq<real> -> real)

  /** One score per pair, `exp` positive, norms non-negative. */
  ghost predicate WellBehaved(m: Models) {
    (forall ps :: m.crossEncoder(ps).Returned? ==> |m.crossEncoder(ps).value| == |ps|)
    && (forall x :: m.exp(x) > 0.0)
    && (forall v :: m.norm(v) >= 0.0)
  }

  function Abs(x: real): real { if x < 0.0 then -x else x }

  function SeqMin(x: seq<real>): (r: real)
    requires x != []
    ensures forall i :: 0 <= i < |x| ==> r <= x[i]
  {
    if |x| == 1 then x[0] else RMin(x[0], SeqMin(x[1..]))
  }

  function SeqMax(x: seq<real>): (r: real)
    requires x != []
    ensures forall i :: 0 <= i < |x| ==> x[i] <= r
  {
    if |x| == 1 then x[0] else RMax(x[0], SeqMax(x[1..]))
  }

  lemma {:induction false} SeqMaxIsAnElement(x: seq<real>)
    requires x != []
    ensures SeqMax(x) in x
  {
    if |x| > 1 {
      SeqMaxIsAnElement(x[1..]);
    }
  }

  // ---------------------------------------------------------------------------
  // _normalize

  /** All values lie within `Eps` of each other: `abs(mx - mn) < 1e-12`. */
  predicate Flat(x: seq<real>)
    requires x != []
  {
    Abs(SeqMax(x) - SeqMin(x)) < Eps
  }

  /** `(x - mn) / d` element-wise. */
  function Rescale(x: seq<real>, mn: real, d: real): (r: seq<real>)
    requires d > 0.0
    ensures |r| == |x|
    ensures forall i :: 0 <= i < |x| ==> r[i] == Scaled(x[i], mn, d)
  {
    seq(|x|, i requires 0 <= i < |x| => Scaled(x[i], mn, d))
  }

  lemma SpreadIsAtLeastEps(x: seq<real>)
    requires x != [] && !Flat(x)
    ensures SeqMax(x) - SeqMin(x) >= Eps
  {
    assert SeqMin(x) <= x[0] <= SeqMax(x);
  }

  /** `_normalize(x)`: min-max scaling, with every value 0.5 when the values are flat. */
  function Normalize(x: seq<real>): (r: seq<real>)
    ensures |r| == |x|
  {
    if x == [] then x
    else if Flat(x) then seq(|x|, i => 0.5)
    else
      SpreadIsAtLeastEps(x);
      Rescale(x, SeqMin(x), SeqMax(x) - SeqMin(x) + Eps)
  }

  /** Flat values all become exactly 0.5. */
  lemma NormalizeFlat(x: seq<real>)
    requires x != [] && Flat(x)
    ensures forall i :: 0 <= i < |x| ==> Normalize(x)[i] == 0.5
  {
  }

  lemma NormalizeSpreadAt(x: seq<real>, i: nat, j: nat)
    requires x != [] && !Flat(x) && i < |x| && j < |x|
    ensures 0.0 <= Normalize(x)[i] < 1.0
    ensures x[i] == SeqMin(x) ==> Normalize(x)[i] == 0.0
    ensures x[i] <= x[j] ==> Normalize(x)[i] <= Normalize(x)[j]
    ensures x[i] < x[j] ==> Normalize(x)[i] < Normalize(x)[j]
  {
    var mn := SeqMin(x);
    SpreadIsAtLeastEps(x);
    var d := SeqMax(x) - mn + Eps;
    var n := Normalize(x);
    assert n == Rescale(x, mn, d);
    assert mn <= x[i] <= SeqMax(x);
    ScaledBounds(x[i], mn, d);
    if x[i] <= x[j] {
      ScaledMonotone(x[i], x[j], mn, d);
    }
  }

  /**
   * Spread-out values land in [0, 1), the minimum lands on 0, and the
   * scaling keeps strict order.
   */
  lemma NormalizeSpread(x: seq<real>)
    requires x != [] && !Flat(x)
    ensures forall i :: 0 <= i < |x| ==> 0.0 <= Normalize(x)[i] < 1.0
    ensures forall i :: 0 <= i < |x| && x[i] == SeqMin(x) ==> Normalize(x)[i] == 0.0
    ensures forall i, j :: 0 <= i < |x| && 0 <= j < |x| && x[i] < x[j] ==> Normalize(x)[i] < Normalize(x)[j]
  {
    forall i, j | 0 <= i < |x| && 0 <= j < |x|
      ensures 0.0 <= Normalize(x)[i] < 1.0
      ensures x[i] == SeqMin(x) ==> Normalize(x)[i] == 0.0
      ensures x[i] < x[j] ==> Normalize(x)[i] < Normalize(x)[j]
    {
      NormalizeSpreadAt(x, i, j);
    }
  }

  lemma NormalizeAt(x: seq<real>, i: nat, j: nat)
    requires i < |x| && j < |x|
    ensures 0.0 <= Normalize(x)[i] <= 1.0
    ensures x[i] <= x[j] ==> Normalize(x)[i] <= Normalize(x)[j]
  {
    if !Flat(x) {
      NormalizeSpreadAt(x, i, j);
    }
  }

  /** Normalisation never reverses order, and its values lie in [0, 1]. */
  lemma NormalizeMonotone(x: seq<real>)
    ensures forall i, j :: 0 <= i < |x| && 0 <= j < |x| && x[i] <= x[j] ==> Normalize(x)[i] <= Normalize(x)[j]
    ensures forall i :: 0 <= i < |x| ==> 0.0 <= Normalize(x)[i] <= 1.0
  {
    forall i, j | 0 <= i < |x| && 0 <= j < |x|
      ensures 0.0 <= Normalize(x)[i] <= 1.0
      ensures x[i] <= x[j] ==> Normalize(x)[i] <= Normalize(x)[j]
    {
      NormalizeAt(x, i, j);
    }
  }

  // ---------------------------------------------------------------------------
  // rerank

  /** The pairs sent to the cross-encoder: the query with each text cut to `maxChars`. */
  function Pairs(query: string, rows: seq<Row>, maxChars: int): (r: seq<Pair>)
    ensures |r| == |rows|
    ensures forall i :: 0 <= i < |rows| ==> r[i] == (query, Take(rows[i].text, maxChars))
  {
    seq(|rows|, i requires 0 <= i < |rows| => (query, Take(rows[i].text, maxChars)))
  }

  /** The incoming `score` of each row, 0.0 where it has none. */
  function Incoming(rows: seq<Row>): (r: seq<real>)
    ensures |r| == |rows|
    ensures forall i :: 0 <= i < |rows| ==> r[i] == (if rows[i].score.Some? then rows[i].score.value else 0.0)
  {
    seq(|rows|, i requires 0 <= i < |rows| => if rows[i].score.Some? then rows[i].score.value else 0.0)
  }

  /** The `final` scores of rerank: normalised cross-encoder scores, blended with the incoming ones below 1. */
  function FinalScores(ce: seq<real>, rows: seq<Row>, blend: real): (r: seq<real>)
    requires |ce| == |rows|
    ensures |r| == |rows|
    ensures forall i :: 0 <= i < |rows| ==> r[i] == if blend >= 1.0 then Normalize(ce)[i]
      else Mix(blend, Normalize(ce)[i], Normalize(Incoming(rows))[i])
  {
    var ceN := Normalize(ce);
    if blend >= 1.0 then ceN
    else
      var incN := Normalize(Incoming(rows));
      seq(|rows|, i requires 0 <= i < |rows| => Mix(blend, ceN[i], incN[i]))
  }

  /** Row `i` with `_ce` and `_final` set. */
  function Annotate(r: Row, ce: real, final: real): Row {
    r.(ce := Some(ce), final := Some(final))
  }

  function Annotated(rows: seq<Row>, ce: seq<real>, final: seq<real>): (r: seq<Row>)
    requires |ce| == |rows| && |final| == |rows|
    ensures |r| == |rows|
    ensures forall i :: 0 <= i < |rows| ==> r[i] == Annotate(rows[i], ce[i], final[i])
  {
    seq(|rows|, i requires 0 <= i < |rows| => Annotate(rows[i], ce[i], final[i]))
  }

  /** `_final` of a row, 0.0 where it has none. */
  function FinalOf(r: Row): real { if r.final.Some? then r.final.value else 0.0 }

  /** The ascending sort key equivalent to sorting by `_final` with `reverse=True`. */
  function ByFinalDescending(r: Row): real { -FinalOf(r) }

  /** What `rerank` returns, or `Raised` when the cross-encoder raised. */
  function Reranked(query: string, rows: seq<Row>, blend: real, maxChars: int, m: Models): Outcome<seq<Row>>
    requires WellBehaved(m)
  {
    if rows == [] then Returned([])
    else match m.crossEncoder(Pairs(query, rows, maxChars))
      case Raised => Raised
      case Returned(ce) =>
        Returned(SortBy(Annotated(rows, ce, FinalScores(ce, rows, blend)), ByFinalDescending))
  }

  /**
   * `rerank(query, rows, blend_with_incoming, max_chars)`. `batches` lists the
   * inputs handed to the cross-encoder: none for no rows, else one batch.
   */
  method Rerank(query: string, rows: seq<Row>, blend: real, maxChars: int, m: Models)
    returns (result: Outcome<seq<Row>>, batches: seq<seq<Pair>>)
    requires WellBehaved(m)
    ensures result == Reranked(query, rows, blend, maxChars, m)
    ensures rows == [] ==> batches == [] && result == Returned([])
    ensures rows != [] ==> batches == [Pairs(query, rows, maxChars)]
  {
    if rows == [] {
      return Returned([]), [];
    }
    var pairs := Pairs(query, rows, maxChars);
    batches := [pairs];
    var out := m.crossEncoder(pairs);
    if out.Raised? {
      return Raised, batches;
    }
    var ce := out.value;
    var final := FinalScores(ce, rows, blend);
    var annotated: seq<Row> := [];
    for i := 0 to |rows|
      invariant |annotated| == i
      invariant forall j :: 0 <= j < i ==> annotated[j] == Annotate(rows[j], ce[j], final[j])
    {
      annotated := annotated + [Annotate(rows[i], ce[i], final[i])];
    }
    assert annotated == Annotated(rows, ce, final);
    result := Returned(SortBy(annotated, ByFinalDescending));
  }

  /** Every row of a sequence carries a `_final`, non-increasing from left to right. */
  predicate DescendingByFinal(s: seq<Row>) {
    (forall i :: 0 <= i < |s| ==> s[i].final.Some?)
    && (forall i, j :: 0 <= i < j < |s| ==> s[i].final.value >= s[j].final.value)
  }

  /**
   * The reranked rows are the input rows, each with `_ce` and `_final` set and
   * nothing else changed, put in non-increasing `_final` order; rows with
   * equal `_final` keep their input order.
   */
  lemma RerankedIsStableSortByFinal(query: string, rows: seq<Row>, blend: real, maxChars: int, m: Models)
    requires WellBehaved(m) && rows != []
    requires m.crossEncoder(Pairs(query, rows, maxChars)).Returned?
    ensures var ce := m.crossEncoder(Pairs(query, rows, maxChars)).value;
      var annotated := Annotated(rows, ce, FinalScores(ce, rows, blend));
      var out := Reranked(query, rows, blend, maxChars, m).value;
      && multiset(out) == multiset(annotated)
      && DescendingByFinal(out)
      && forall v :: WithKey(out, ByFinalDescending, v) == WithKey(annotated, ByFinalDescending, v)
  {
    var ce := m.crossEncoder(Pairs(query, rows, maxChars)).value;
    var annotated := Annotated(rows, ce, FinalScores(ce, rows, blend));
    var out := SortBy(annotated, ByFinalDescending);
    SortByPermutesAndSorts(annotated, ByFinalDescending);
    forall v ensures WithKey(out, ByFinalDescending, v) == WithKey(annotated, ByFinalDescending, v) {
      SortByIsStable(annotated, ByFinalDescending, v);
    }
    forall i | 0 <= i < |out| ensures out[i].final.Some? {
      assert out[i] in multiset(annotated);
    }
    forall i, j | 0 <= i < j < |out| ensures out[i].final.value >= out[j].final.value {
      assert ByFinalDescending(out[i]) <= ByFinalDescending(out[j]);
    }
  }

  /** With a blend weight of at least 0 every `_final` lies in [0, 1]. */
  lemma FinalScoresInUnit(ce: seq<real>, rows: seq<Row>, blend: real)
    requires |ce| == |rows| && blend >= 0.0
    ensures forall i :: 0 <= i < |rows| ==> 0.0 <= FinalScores(ce, rows, blend)[i] <= 1.0
  {
    forall i | 0 <= i < |rows| ensures 0.0 <= FinalScores(ce, rows, blend)[i] <= 1.0 {
      NormalizeAt(ce, i, i);
      NormalizeAt(Incoming(rows), i, i);
      if blend < 1.0 {
        MixBetween(blend, Normalize(ce)[i], Normalize(Incoming(rows))[i]);
      }
    }
  }

  /**
   * From a blend weight of 1 up, `_final` is the normalised cross-encoder
   * score; between 0 and 1 it lies between the normalised cross-encoder and
   * incoming scores; at 0 it is the normalised incoming score.
   */
  lemma FinalScoresBlend(ce: seq<real>, rows: seq<Row>, blend: real)
    requires |ce| == |rows|
    ensures blend >= 1.0 ==> FinalScores(ce, rows, blend) == Normalize(ce)
    ensures blend == 0.0 ==> FinalScores(ce, rows, blend) == Normalize(Incoming(rows))
    ensures 0.0 <= blend <= 1.0 ==> forall i :: 0 <= i < |rows| ==>
      RMin(Normalize(ce)[i], Normalize(Incoming(rows))[i]) <= FinalScores(ce, rows, blend)[i]
      <= RMax(Normalize(ce)[i], Normalize(Incoming(rows))[i])
  {
    var ceN, incN := Normalize(ce), Normalize(Incoming(rows));
    if 0.0 <= blend < 1.0 {
      forall i | 0 <= i < |rows|
        ensures RMin(ceN[i], incN[i]) <= FinalScores(ce, rows, blend)[i] <= RMax(ceN[i], incN[i])
      {
        MixBetween(blend, ceN[i], incN[i]);
      }
    }
  }

  /**
   * With a blend weight of at least 1 and cross-encoder scores that are not
   * flat, the reranked rows are in non-increasing order of their raw `_ce`.
   */
  lemma RerankedFollowsCrossEncoder(query: string, rows: seq<Row>, blend: real, maxChars: int, m: Models)
    requires WellBehaved(m) && rows != [] && blend >= 1.0
    requires m.crossEncoder(Pairs(query, rows, maxChars)).Returned?
    requires !Flat(m.crossEncoder(Pairs(query, rows, maxChars)).value)
    ensures var out := Reranked(query, rows, blend, maxChars, m).value;
      && (forall i :: 0 <= i < |out| ==> out[i].ce.Some?)
      && (forall i, j :: 0 <= i < j < |out| ==> out[i].ce.value >= out[j].ce.value)
  {
    var ce := m.crossEncoder(Pairs(query, rows, maxChars)).value;
    var annotated := Annotated(rows, ce, FinalScores(ce, rows, blend));
    var out := Reranked(query, rows, blend, maxChars, m).value;
    RerankedIsStableSortByFinal(query, rows, blend, maxChars, m);
    FinalScoresBlend(ce, rows, blend);
    NormalizeSpread(ce);
    forall a, b | 0 <= a < |annotated| && 0 <= b < |annotated|
      ensures annotated[a].ce.Some? && annotated[a].final.Some?
      ensures annotated[a].ce.value < annotated[b].ce.value ==> annotated[a].final.value < annotated[b].final.value
    {
      assert annotated[a] == Annotate(rows[a], ce[a], Normalize(ce)[a]);
      assert annotated[b] == Annotate(rows[b], ce[b], Normalize(ce)[b]);
    }
    OrderCarriesOver(out, annotated);
  }

  /** Every row carries `_ce` and `_final`, and a lower `_ce` always means a lower `_final`. */
  predicate LowerCeLowerFinal(s: seq<Row>) {
    && (forall a :: 0 <= a < |s| ==> s[a].ce.Some? && s[a].final.Some?)
    && (forall a, b :: 0 <= a < |s| && 0 <= b < |s| && s[a].ce.value < s[b].ce.value ==> s[a].final.value < s[b].final.value)
  }

  /**
   * Rows sorted by `_final` are also sorted by `_ce` when, among the rows
   * sorted, a lower `_ce` always means a lower `_final`.
   */
  lemma OrderCarriesOver(out: seq<Row>, annotated: seq<Row>)
    requires multiset(out) == multiset(annotated) && DescendingByFinal(out) && LowerCeLowerFinal(annotated)
    ensures forall i :: 0 <= i < |out| ==> out[i].ce.Some?
    ensures forall i, j :: 0 <= i < j < |out| ==> out[i].ce.value >= out[j].ce.value
  {
    forall i | 0 <= i < |out| ensures out[i].ce.Some? {
      assert out[i] in multiset(annotated);
    }
    forall i, j | 0 <= i < j < |out| ensures out[i].ce.value >= out[j].ce.value {
      OrderCarriesOverAt(out, annotated, i, j);
    }
  }

  /** One pair of sorted rows: the earlier one's `_ce` is not below the later one's. */
  lemma OrderCarriesOverAt(out: seq<Row>, annotated: seq<Row>, i: nat, j: nat)
    requires multiset(out) == multiset(annotated) && DescendingByFinal(out) && LowerCeLowerFinal(annotated)
    requires i < j < |out|
    ensures out[i].ce.Some? && out[j].ce.Some? && out[i].ce.value >= out[j].ce.value
  {
    assert out[i] in multiset(annotated) && out[j] in multiset(annotated);
    var a :| 0 <= a < |annotated| && annotated[a] == out[i];
    var b :| 0 <= b < |annotated| && annotated[b] == out[j];
    if annotated[a].ce.value < annotated[b].ce.value {
      assert false;
    }
  }

  // ---------------------------------------------------------------------------
  // confidence

  /** `r.get("_final", r.get("_ce", r.get("score", 0.0)))`. */
  function ChainScore(r: Row): real {
    if r.final.Some? then r.final.value
    else if r.ce.Some? then r.ce.value
    else if r.score.Some? then r.score.value
    else 0.0
  }

  function Sum(s: seq<real>): real {
    if s == [] then 0.0 else s[0] + Sum(s[1..])
  }

  lemma {:induction false} SumOfPositives(s: seq<real>)
    requires forall i :: 0 <= i < |s| ==> s[i] > 0.0
    ensures forall i :: 0 <= i < |s| ==> s[i] <= Sum(s)
    ensures s != [] ==> Sum(s) > 0.0
  {
    if s != [] {
      SumOfPositives(s[1..]);
      forall i | 1 <= i < |s| ensures s[i] <= Sum(s) {
        assert s[i] == s[1..][i - 1];
      }
    }
  }

  /** `np.exp(x - x.max())`. */
  function ShiftedExps(x: seq<real>, exp: real -> real): (e: seq<real>)
    requires x != [] && forall y :: exp(y) > 0.0
    ensures |e| == |x|
    ensures forall i :: 0 <= i < |x| ==> e[i] == exp(x[i] - SeqMax(x))
    ensures Sum(e) > 0.0
  {
    var mx := SeqMax(x);
    var e := seq(|x|, i requires 0 <= i < |x| => exp(x[i] - mx));
    SumOfPositives(e);
    e
  }

  /** `_softmax(x)`: `exp(x - max(x))`, each divided by the sum plus `Eps`. */
  function Softmax(x: seq<real>, exp: real -> real): (p: seq<real>)
    requires forall y :: exp(y) > 0.0
    ensures |p| == |x|
    ensures x != [] ==> forall i :: 0 <= i < |x| ==>
      p[i] == ShiftedExps(x, exp)[i] / (Sum(ShiftedExps(x, exp)) + Eps)
  {
    if x == [] then []
    else
      var e := ShiftedExps(x, exp);
      SumOfPositives(e);
      seq(|x|, i requires 0 <= i < |x| => e[i] / (Sum(e) + Eps))
  }

  /** Every softmax value lies strictly between 0 and 1. */
  lemma SoftmaxInOpenUnit(x: seq<real>, exp: real -> real)
    requires forall y :: exp(y) > 0.0
    ensures forall i :: 0 <= i < |x| ==> 0.0 < Softmax(x, exp)[i] < 1.0
  {
    if x != [] {
      var e := ShiftedExps(x, exp);
      SumOfPositives(e);
      forall i | 0 <= i < |x| ensures 0.0 < Softmax(x, exp)[i] < 1.0 {
        DivBelowOne(e[i], Sum(e) + Eps);
        assert e[i] / (Sum(e) + Eps) > 0.0;
      }
    }
  }

  /** The first index holding the largest score. */
  function ArgMax(x: seq<real>): (i: nat)
    requires x != []
    ensures i < |x| && x[i] == SeqMax(x)
  {
    SeqMaxIsAnElement(x);
    FirstIndexOf(x, SeqMax(x))
  }

  /**
   * Retrieval strength: the softmax mass of the top score
   * (`p[np.argsort(scores)[::-1]][0]`), 0.0 without scores.
   */
  function RetrievalStrength(scores: seq<real>, exp: real -> real): real
    requires forall y :: exp(y) > 0.0
  {
    if scores == [] then 0.0 else Softmax(scores, exp)[ArgMax(scores)]
  }

  /**
   * Retrieval strength is 0 without scores and otherwise strictly between 0
   * and 1; it is the same whichever index holding the top score the
   * descending argsort puts first.
   */
  lemma RetrievalStrengthBounds(scores: seq<real>, exp: real -> real)
    requires forall y :: exp(y) > 0.0
    ensures scores == [] ==> RetrievalStrength(scores, exp) == 0.0
    ensures scores != [] ==> 0.0 < RetrievalStrength(scores, exp) < 1.0
    ensures forall i :: 0 <= i < |scores| && scores[i] == SeqMax(scores) ==>
      Softmax(scores, exp)[i] == RetrievalStrength(scores, exp)
  {
    SoftmaxInOpenUnit(scores, exp);
    if scores != [] {
      var top := ArgMax(scores);
      forall i | 0 <= i < |scores| && scores[i] == SeqMax(scores)
        ensures Softmax(scores, exp)[i] == Softmax(scores, exp)[top]
      {
        EqualScoresEqualMass(scores, exp, i, top);
      }
    }
  }

  /** Equal scores get equal softmax mass. */
  lemma EqualScoresEqualMass(x: seq<real>, exp: real -> real, i: nat, j: nat)
    requires forall y :: exp(y) > 0.0
    requires i < |x| && j < |x| && x[i] == x[j]
    ensures Softmax(x, exp)[i] == Softmax(x, exp)[j]
  {
    var e := ShiftedExps(x, exp);
    assert e[i] == e[j];
  }

  function Dot(a: seq<real>, b: seq<real>): real
    requires |a| == |b|
  {
    if a == [] then 0.0 else a[0] * b[0] + Dot(a[1..], b[1..])
  }

  function Scale(a: seq<real>, c: real): (r: seq<real>)
    ensures |r| == |a|
  {
    seq(|a|, i requires 0 <= i < |a| => a[i] * c)
  }

  /** `_cos(a, b)`; `np.dot` raises on vectors of different lengths. */
  function Cos(a: seq<real>, b: seq<real>, norm: seq<real> -> real): Outcome<real>
    requires forall v :: norm(v) >= 0.0
  {
    if |a| != |b| then Raised
    else Returned(Dot(Scale(a, 1.0 / (norm(a) + Eps)), Scale(b, 1.0 / (norm(b) + Eps))))
  }

  lemma {:induction false} DotCommutes(a: seq<real>, b: seq<real>)
    requires |a| == |b|
    ensures Dot(a, b) == Dot(b, a)
  {
    if a != [] {
      DotCommutes(a[1..], b[1..]);
    }
  }

  /** The similarity does not depend on the order of its arguments, and fails exactly on a length mismatch. */
  lemma CosIsSymmetric(a: seq<real>, b: seq<real>, norm: seq<real> -> real)
    requires forall v :: norm(v) >= 0.0
    ensures Cos(a, b, norm) == Cos(b, a, norm)
    ensures Cos(a, b, norm).Raised? <==> |a| != |b|
  {
    if |a| == |b| {
      DotCommutes(Scale(a, 1.0 / (norm(a) + Eps)), Scale(b, 1.0 / (norm(b) + Eps)));
    }
  }

  /** `max(0.0, min(1.0, x))`. */
  function Clamp01(x: real): (r: real)
    ensures 0.0 <= r <= 1.0
    ensures 0.0 <= x <= 1.0 ==> r == x
    ensures x < 0.0 ==> r == 0.0
    ensures x > 1.0 ==> r == 1.0
  {
    RMax(0.0, RMin(1.0, x))
  }

  /** The texts the answer is compared with: each cut to 350 characters, joined by newlines. */
  function FaithEvidence(use: seq<Row>): string {
    Join("\n", seq(|use|, i requires 0 <= i < |use| => Take(use[i].text, 350)))
  }

  /** The distinct non-empty `doc_id`s among `use`. */
  function DocIds(use: seq<Row>): set<string> {
    set r | r in use && r.docId.Some? && r.docId.value != "" :: r.docId.value
  }

  lemma {:induction false} DocIdsAtMostRows(use: seq<Row>)
    ensures |DocIds(use)| <= |use|
  {
    if use != [] {
      DocIdsAtMostRows(use[1..]);
      var r := use[0];
      assert DocIds(use) <= DocIds(use[1..]) + (if r.docId.Some? then {r.docId.value} else {}) by {
        forall d | d in DocIds(use)
          ensures d in DocIds(use[1..]) + (if r.docId.Some? then {r.docId.value} else {})
        {
          var x :| x in use && x.docId.Some? && x.docId.value != "" && x.docId.value == d;
          if x != r {
            assert x in use[1..];
          }
        }
      }
      SubsetCardinality(DocIds(use), DocIds(use[1..]) + (if r.docId.Some? then {r.docId.value} else {}));
    }
  }

  /** Coverage: 0 when `k == 0`, else `min(1, |distinct doc_ids| / k)`. */
  function EvidenceCoverage(use: seq<Row>, k: int): real {
    if k == 0 then 0.0 else RMin(1.0, (|DocIds(use)| as real) / (k as real))
  }

  /**
   * Over `rows[:k]` with `k > 0` the coverage is the share of `k` filled by
   * distinct documents, which never exceeds 1, so the cap never applies; it
   * is 0 for `k == 0` and at most 0 for a negative `k`.
   */
  lemma EvidenceCoverageBounds(rows: seq<Row>, k: int)
    ensures k == 0 ==> EvidenceCoverage(Take(rows, k), k) == 0.0
    ensures k > 0 ==> EvidenceCoverage(Take(rows, k), k) == (|DocIds(Take(rows, k))| as real) / (k as real)
    ensures k > 0 ==> 0.0 <= EvidenceCoverage(Take(rows, k), k) <= 1.0
    ensures k < 0 ==> EvidenceCoverage(Take(rows, k), k) <= 0.0
  {
    var use := Take(rows, k);
    DocIdsAtMostRows(use);
    if k > 0 {
      DivMonotone(|DocIds(use)| as real, k as real, k as real);
      DivMonotone(0.0, |DocIds(use)| as real, k as real);
    } else if k < 0 {
      OverNegative(|DocIds(use)| as real, k as real);
    }
  }

  /** The score of each row, `ChainScore` of it. */
  function ChainScores(use: seq<Row>): (r: seq<real>)
    ensures |r| == |use|
    ensures forall i :: 0 <= i < |use| ==> r[i] == ChainScore(use[i])
  {
    seq(|use|, i requires 0 <= i < |use| => ChainScore(use[i]))
  }

  /** The three signals the confidence blends. */
  datatype Signals = Signals(retrieval: real, faithfulness: real, coverage: real)

  /** The signals over `rows[:k]`, or `Raised` when an embedding or the dot product raised. */
  function ConfidenceSignals(answer: string, rows: seq<Row>, k: int, m: Models): Outcome<Signals>
    requires WellBehaved(m)
  {
    var use := Take(rows, k);
    match m.embed(answer)
    case Raised => Raised
    case Returned(ans) =>
      match m.embed(FaithEvidence(use))
      case Raised => Raised
      case Returned(ev) =>
        match Cos(ans, ev, m.norm)
        case Raised => Raised
        case Returned(c) =>
          Returned(Signals(RetrievalStrength(ChainScores(use), m.exp), Clamp01(c), EvidenceCoverage(use, k)))
  }

  /** `confidence(query, answer_text, rows, k, weights)`; the query is not used by the source either. */
  function Confidence(query: string, answer: string, rows: seq<Row>, k: int,
                      weights: (real, real, real), m: Models): (r: Outcome<real>)
    requires WellBehaved(m)
    ensures r.Returned? ==> 0.0 <= r.value <= 1.0
    ensures r.Raised? <==> ConfidenceSignals(answer, rows, k, m).Raised?
  {
    Weighted(ConfidenceSignals(answer, rows, k, m), weights)
  }

  /** `max(0.0, min(1.0, w1*ret + w2*faith + w3*cov))`, passing on a failure. */
  function Weighted(signals: Outcome<Signals>, weights: (real, real, real)): (r: Outcome<real>)
    ensures r.Returned? ==> 0.0 <= r.value <= 1.0
    ensures r.Raised? <==> signals.Raised?
  {
    match signals
    case Raised => Raised
    case Returned(s) =>
      Returned(Clamp01(weights.0 * s.retrieval + weights.1 * s.faithfulness + weights.2 * s.coverage))
  }

  const DefaultWeights: (real, real, real) := (0.5, 0.3, 0.2)

  /**
   * Each signal is in range: retrieval strength is 0 without rows and in
   * (0, 1) otherwise, faithfulness is in [0, 1], coverage is 0 for `k == 0`
   * and in [0, 1] for `k > 0`.
   */
  lemma SignalsInRange(answer: string, rows: seq<Row>, k: int, m: Models)
    requires WellBehaved(m) && ConfidenceSignals(answer, rows, k, m).Returned?
    ensures var s := ConfidenceSignals(answer, rows, k, m).value;
      && (Take(rows, k) == [] ==> s.retrieval == 0.0)
      && (Take(rows, k) != [] ==> 0.0 < s.retrieval < 1.0)
      && 0.0 <= s.faithfulness <= 1.0
      && (k == 0 ==> s.coverage == 0.0)
      && (k > 0 ==> 0.0 <= s.coverage <= 1.0)
  {
    RetrievalStrengthBounds(ChainScores(Take(rows, k)), m.exp);
    EvidenceCoverageBounds(rows, k);
  }

  /**
   * With the default weights and `k >= 0` the weighted sum already lies in
   * [0, 1], so the final clamp changes nothing.
   */
  lemma DefaultWeightsNeedNoClamp(query: string, answer: string, rows: seq<Row>, k: int, m: Models)
    requires WellBehaved(m) && k >= 0 && ConfidenceSignals(answer, rows, k, m).Returned?
    ensures var s := ConfidenceSignals(answer, rows, k, m).value;
      Confidence(query, answer, rows, k, DefaultWeights, m).value
      == 0.5 * s.retrieval + 0.3 * s.faithfulness + 0.2 * s.coverage
  {
    SignalsInRange(answer, rows, k, m);
  }

  /** The confidence reads only `rows[:k]`. */
  lemma ConfidenceReadsTopK(query: string, answer: string, rows: seq<Row>, k: int,
                            weights: (real, real, real), m: Models)
    requires WellBehaved(m) && k >= 0
    ensures Confidence(query, answer, rows, k, weights, m)
         == Confidence(query, answer, Take(rows, k), k, weights, m)
  {
    SignalsReadTopK(answer, rows, k, m);
  }

  lemma SignalsReadTopK(answer: string, rows: seq<Row>, k: int, m: Models)
    requires WellBehaved(m) && k >= 0
    ensures ConfidenceSignals(answer, rows, k, m) == ConfidenceSignals(answer, Take(rows, k), k, m)
  {
    TakeTwice(rows, k);
  }

  lemma TakeTwice<T>(s: seq<T>, k: int)
    requires k >= 0
    ensures Take(Take(s, k), k) == Take(s, k)
  {
  }
}
