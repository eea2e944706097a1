/** Facts about real arithmetic that the scores rely on, proved apart from the rest. */
module RealArith {
  function RMin(a: real, b: real): real { if a <= b then a else b }

  function RMax(a: real, b: real): real { if a >= b then a else b }

  /** `b * u + (1 - b) * v`: `u` and `v` mixed with weight `b` on `u`. */
  function Mix(b: real, u: real, v: real): real { b * u + (1.0 - b) * v }

  lemma MulNonneg(a: real, c: real)
    requires a >= 0.0 && c >= 0.0
    ensures a * c >= 0.0
  {
  }

  /** A weighted mean of two values lies between them. */
  lemma MixBetween(b: real, u: real, v: real)
    requires 0.0 <= b <= 1.0
    ensures RMin(u, v) <= Mix(b, u, v) <= RMax(u, v)
  {
    var w := b * u + (1.0 - b) * v;
    if u <= v {
      MulNonneg(b, v - u);
      MulNonneg(1.0 - b, v - u);
      assert w == v - b * (v - u);
      assert w == u + (1.0 - b) * (v - u);
    } else {
      MulNonneg(b, u - v);
      MulNonneg(1.0 - b, u - v);
      assert w == u - (1.0 - b) * (u - v);
      assert w == v + b * (u - v);
    }
  }

  lemma DivMonotone(a: real, b: real, d: real)
    requires d > 0.0 && a <= b
    ensures a / d <= b / d
    ensures a < b ==> a / d < b / d
  {
    assert b / d - a / d == (b - a) / d;
  }

  lemma DivBelowOne(a: real, d: real)
    requires 0.0 <= a < d
    ensures 0.0 <= a / d < 1.0
  {
    DivMonotone(a, d, d);
    DivMonotone(0.0, a, d);
    assert d / d == 1.0;
  }

  lemma ZeroOver(d: real)
    requires d > 0.0
    ensures 0.0 / d == 0.0
  {
    assert (0.0 / d) * d == 0.0;
  }

  lemma OverNegative(n: real, k: real)
    requires n >= 0.0 && k < 0.0
    ensures n / k <= 0.0
  {
    var q := n / k;
    assert q * k == n;
    if q > 0.0 {
      MulNonneg(q, -k);
      assert false;
    }
  }

  /** `(v - lo) / d`: `v` placed on a scale that starts at `lo` and has length `d`. */
  function Scaled(v: real, lo: real, d: real): real
    requires d > 0.0
  {
    (v - lo) / d
  }

  lemma ScaledBounds(v: real, lo: real, d: real)
    requires d > 0.0 && lo <= v < lo + d
    ensures 0.0 <= Scaled(v, lo, d) < 1.0
    ensures v == lo ==> Scaled(v, lo, d) == 0.0
  {
    DivBelowOne(v - lo, d);
    if v == lo {
      ZeroOver(d);
    }
  }

  lemma ScaledMonotone(v: real, w: real, lo: real, d: real)
    requires d > 0.0 && v <= w
    ensures Scaled(v, lo, d) <= Scaled(w, lo, d)
    ensures v < w ==> Scaled(v, lo, d) < Scaled(w, lo, d)
  {
    DivMonotone(v - lo, w - lo, d);
  }

  /** A share of a positive whole lies in [0, 1]. */
  lemma FractionBounds(a: real, d: real)
    requires 0.0 <= a <= d && d > 0.0
    ensures 0.0 <= a / d <= 1.0
  {
    DivMonotone(a, d, d);
    DivMonotone(0.0, a, d);
    ZeroOver(d);
    assert d / d == 1.0;
  }

  /** Taking reciprocals reverses the order of numbers from 1 on. */
  lemma ReciprocalAntitone(a: real, b: real)
    requires 1.0 <= a <= b
    ensures 0.0 < 1.0 / b <= 1.0 / a
  {
    var ra, rb := 1.0 / a, 1.0 / b;
    assert ra * a == 1.0 && rb * b == 1.0;
    assert rb > 0.0 by {
      if rb <= 0.0 {
        MulNonneg(-rb, b);
        assert false;
      }
    }
    MulNonneg(rb, b - a);
    assert rb * a <= 1.0;
  }
}
