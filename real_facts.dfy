/** Small facts about real division and multiplication, stated over plain
    variables so that the proofs about the beam formulas stay cheap. */
module RealFacts {

  lemma DivAdd(p: real, q: real, d: real)
    requires d != 0.0
    ensures p / d + q / d == (p + q) / d
  {
  }

  lemma MulDiv(p: real, x: real, d: real)
    requires d != 0.0
    ensures (p * x) / d == (p / d) * x
  {
  }

  lemma DivMul(p: real, d: real)
    requires d != 0.0
    ensures (p / d) * d == p
  {
  }

  lemma NegDiv(p: real, d: real)
    requires d != 0.0
    ensures (-p) / d == -(p / d)
  {
  }

  lemma DivNonneg(p: real, d: real)
    requires 0.0 <= p && 0.0 < d
    ensures 0.0 <= p / d
  {
  }

  /** Multiplying by a non-negative factor keeps the order of non-negative numbers. */
  lemma ScaleMonotone(k: real, u: real, v: real)
    requires 0.0 <= k && 0.0 <= u <= v
    ensures 0.0 <= k * u <= k * v
  {
    assert k * v - k * u == k * (v - u);
  }

  /** w·u²/2 − w·v²/2 = (w·v + w·u)/2 · (u − v). */
  lemma SquareDifference(w: real, u: real, v: real)
    ensures (w * u * u) / 2.0 - (w * v * v) / 2.0 == (w * v + w * u) / 2.0 * (u - v)
  {
  }

  lemma MulNonzero(p: real, q: real)
    requires p != 0.0 && q != 0.0
    ensures p * q != 0.0
  {
  }

  lemma MulPos(p: real, q: real)
    requires 0.0 < p && 0.0 < q
    ensures 0.0 < p * q
  {
  }

  /** k·u/d ≤ k·v/d for a non-negative k, 0 ≤ u ≤ v and a positive d. */
  lemma ScaleDivMonotone(k: real, u: real, v: real, d: real)
    requires 0.0 <= k && 0.0 <= u <= v && 0.0 < d
    ensures k * u / d <= k * v / d
  {
    ScaleMonotone(k, u, v);
    assert k * v / d - k * u / d == (k * v - k * u) / d;
  }
}
