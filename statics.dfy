/** Laws of statics that the shear and moment formulas satisfy: equilibrium
    of the reactions, zero moment at supports and free ends, continuity at
    the edges of the load, where the peaks lie, and moment as the integral
    of shear. */
module Statics {
  import opened BeamInput
  import opened Mechanics
  import opened RealFacts

  // ---------------------------------------------------------------------
  // Simple beam, point load

  /** The two reactions carry the whole load. */
  lemma SimplePointEquilibrium(c: Config)
    requires c.beam == SimpleBeam && Span(c) != 0.0
    ensures ReactionA(c) + ReactionB(c) == c.loadMagnitude
  {
    var L, P, a, b := Span(c), c.loadMagnitude, LoadOffset(c), LoadToRight(c);
    assert ReactionA(c) == (P * b) / L && ReactionB(c) == (P * a) / L;
    DivAdd(P * b, P * a, L);
    assert P * b + P * a == P * L;
    DivMul(P, L);
    MulDiv(P, L, L);
  }

  /** ReactionA = (P/L)·b and ReactionB = (P/L)·a. */
  lemma ReactionsScale(c: Config)
    requires Span(c) != 0.0
    ensures ReactionA(c) == (c.loadMagnitude / Span(c)) * LoadToRight(c)
    ensures ReactionB(c) == (c.loadMagnitude / Span(c)) * LoadOffset(c)
  {
    ReactionAScale(c);
    ReactionBScale(c);
  }

  lemma ReactionAScale(c: Config)
    requires Span(c) != 0.0
    ensures ReactionA(c) == (c.loadMagnitude / Span(c)) * LoadToRight(c)
  {
    MulDiv(c.loadMagnitude, LoadToRight(c), Span(c));
  }

  lemma ReactionBScale(c: Config)
    requires Span(c) != 0.0
    ensures ReactionB(c) == (c.loadMagnitude / Span(c)) * LoadOffset(c)
  {
    MulDiv(c.loadMagnitude, LoadOffset(c), Span(c));
  }

  /** With a nonzero load the moment vanishes at the left support exactly
      when the load is not left of it, and at the right support exactly when
      the load is not right of it. */
  lemma SimplePointSupportMoments(c: Config)
    requires c.beam == SimpleBeam && c.load == PointLoad && Span(c) != 0.0
    requires c.loadMagnitude != 0.0
    ensures Moment(c, 0.0) == 0.0 <==> 0.0 <= LoadOffset(c)
    ensures Moment(c, Span(c)) == 0.0 <==> LoadOffset(c) <= Span(c)
  {
    var L, P, a, RA := Span(c), c.loadMagnitude, LoadOffset(c), ReactionA(c);
    ReactionsScale(c);
    DivMul(P, L);
    assert RA * L == P * (L - a);
    if 0.0 > a {
      assert Moment(c, 0.0) == P * a;
      assert P * a != 0.0;
    }
    if L > a {
      assert Moment(c, L) == RA * L - P * (L - a);
    } else {
      assert Moment(c, L) == P * (L - a);
      if a != L {
        assert P * (L - a) != 0.0;
      }
    }
  }

  /** Shear equals the left reaction up to the load and minus the right
      reaction beyond it, so it drops by exactly the load there, while the
      moment is continuous at the load point. */
  lemma SimplePointShearDrop(c: Config, x1: real, x2: real)
    requires c.beam == SimpleBeam && c.load == PointLoad && Span(c) != 0.0
    requires x1 <= LoadOffset(c) < x2
    ensures Shear(c, x1) == ReactionA(c) && Shear(c, x2) == -ReactionB(c)
    ensures Shear(c, x1) - Shear(c, x2) == c.loadMagnitude
    ensures Moment(c, LoadOffset(c)) == PointMomentBeyond(c, LoadOffset(c))
  {
    SimplePointEquilibrium(c);
  }

  /** For a load on the span, the moment is largest in magnitude under the
      load, where it equals P·a·b/L, and no shear exceeds the larger reaction
      in magnitude; a non-negative load sags the whole span. */
  lemma SimplePointPeak(c: Config, x: real)
    requires c.beam == SimpleBeam && c.load == PointLoad && Span(c) > 0.0
    requires 0.0 <= LoadOffset(c) <= Span(c)
    requires 0.0 <= x <= Span(c)
    ensures Moment(c, LoadOffset(c)) == c.loadMagnitude * LoadOffset(c) * LoadToRight(c) / Span(c)
    ensures Abs(Moment(c, x)) <= Abs(Moment(c, LoadOffset(c)))
    ensures Abs(Shear(c, x)) <= if Abs(ReactionA(c)) < Abs(ReactionB(c)) then Abs(ReactionB(c)) else Abs(ReactionA(c))
    ensures 0.0 <= c.loadMagnitude ==>
              0.0 <= Moment(c, x) <= Moment(c, LoadOffset(c)) &&
              Abs(Shear(c, x)) <= if ReactionA(c) < ReactionB(c) then ReactionB(c) else ReactionA(c)
  {
    SimplePointPeakValue(c);
    if 0.0 <= c.loadMagnitude {
      SimplePointMomentBounds(c, x);
      SimplePointShearBound(c, x);
    } else {
      var n := c.(loadMagnitude := -c.loadMagnitude);
      SimplePointReversed(c, x);
      SimplePointReversed(c, LoadOffset(c));
      SimplePointMomentBounds(n, x);
      SimplePointShearBound(n, x);
    }
  }

  /** Reversing the direction of a point load on a simple beam negates its
      reactions, shears and moments. */
  lemma SimplePointReversed(c: Config, x: real)
    requires c.beam == SimpleBeam && c.load == PointLoad && Span(c) != 0.0
    ensures var n := c.(loadMagnitude := -c.loadMagnitude);
            ReactionA(n) == -ReactionA(c) && ReactionB(n) == -ReactionB(c) &&
            Shear(n, x) == -Shear(c, x) && Moment(n, x) == -Moment(c, x)
  {
    var n := c.(loadMagnitude := -c.loadMagnitude);
    var P, L, a, b := c.loadMagnitude, Span(c), LoadOffset(c), LoadToRight(c);
    assert ReactionA(n) == ((-P) * b) / L && ReactionB(n) == ((-P) * a) / L;
    assert (-P) * b == -(P * b) && (-P) * a == -(P * a);
    NegDiv(P * b, L);
    NegDiv(P * a, L);
    assert ReactionA(n) * x == -(ReactionA(c) * x);
    assert (-P) * (x - a) == -(P * (x - a));
  }

  /** The moment on the span lies between 0 and its value under the load. */
  lemma SimplePointMomentBounds(c: Config, x: real)
    requires c.beam == SimpleBeam && c.load == PointLoad && Span(c) > 0.0
    requires 0.0 <= LoadOffset(c) <= Span(c) && 0.0 <= c.loadMagnitude
    requires 0.0 <= x <= Span(c)
    ensures 0.0 <= Moment(c, x) <= Moment(c, LoadOffset(c))
  {
    var L, P, a, b := Span(c), c.loadMagnitude, LoadOffset(c), LoadToRight(c);
    var k := P / L;
    SimplePointMomentScaled(c, x);
    SimplePointMomentScaled(c, a);
    assert 0.0 <= k && P == k * L by { DivNonneg(P, L); DivMul(P, L); }
    PointPeakArith(k, P, a, b, L, x);
  }

  /** The moment under the load is P·a·b/L. */
  lemma SimplePointPeakValue(c: Config)
    requires c.beam == SimpleBeam && c.load == PointLoad && Span(c) != 0.0
    ensures Moment(c, LoadOffset(c)) == c.loadMagnitude * LoadOffset(c) * LoadToRight(c) / Span(c)
  {
    var L, P, a, b := Span(c), c.loadMagnitude, LoadOffset(c), LoadToRight(c);
    MulDiv(P * b, a, L);
    MulDiv(P * a, b, L);
    assert P * b * a == P * a * b;
  }

  /** The simple-beam point-load moment written with k = P/L. */
  lemma SimplePointMomentScaled(c: Config, x: real)
    requires c.beam == SimpleBeam && c.load == PointLoad && Span(c) != 0.0
    ensures var k, a := c.loadMagnitude / Span(c), LoadOffset(c);
            Moment(c, x) == if x > a then k * LoadToRight(c) * x - c.loadMagnitude * (x - a)
                            else k * LoadToRight(c) * x
  {
    ReactionsScale(c);
  }

  /** Shear on a span carrying a non-negative load on it is bounded by the larger reaction. */
  lemma SimplePointShearBound(c: Config, x: real)
    requires c.beam == SimpleBeam && c.load == PointLoad && Span(c) > 0.0
    requires 0.0 <= LoadOffset(c) <= Span(c) && 0.0 <= c.loadMagnitude
    ensures Abs(Shear(c, x)) <= if ReactionA(c) < ReactionB(c) then ReactionB(c) else ReactionA(c)
  {
    var P, L := c.loadMagnitude, Span(c);
    SimplePointEquilibrium(c);
    ReactionsScale(c);
    DivNonneg(P, L);
    ScaleMonotone(P / L, 0.0, LoadOffset(c));
    ScaleMonotone(P / L, 0.0, LoadToRight(c));
  }

  /** The arithmetic behind SimplePointPeak, with k = P/L. */
  lemma PointPeakArith(k: real, P: real, a: real, b: real, L: real, x: real)
    requires 0.0 < L && 0.0 <= k && P == k * L && a + b == L
    requires 0.0 <= a && 0.0 <= b && 0.0 <= x <= L
    ensures 0.0 <= (if x > a then k * b * x - P * (x - a) else k * b * x) <= k * b * a
    ensures (k * a) * b == k * b * a
  {
    if x <= a {
      ScaleMonotone(k * b, x, a);
    } else {
      assert k * b * x - P * (x - a) == (k * a) * (L - x);
      ScaleMonotone(k * a, L - x, b);
    }
  }

  // ---------------------------------------------------------------------
  // Simple beam, uniform load

  /** The two reactions carry the whole distributed load, so the shear
      before the loaded zone exceeds the shear after it by the load. */
  lemma SimpleUniformEquilibrium(c: Config, x1: real, x2: real)
    requires c.beam == SimpleBeam && c.load == UniformLoad
    requires Span(c) != 0.0 && LoadLength(c) != 0.0
    requires x1 < c.loadStart < c.loadEnd < x2
    ensures UniformReactionLeft(c) + UniformReactionRight(c) == c.loadMagnitude
    ensures Shear(c, x1) - Shear(c, x2) == c.loadMagnitude
  {
    UniformReactionsBalance(c);
  }

  /** The in-zone formulas meet the before-zone formulas at the start of the
      load and the after-zone formulas at its end: shear and moment are
      continuous at both edges of the loaded zone. */
  lemma SimpleUniformContinuity(c: Config)
    requires c.beam == SimpleBeam && Span(c) != 0.0 && LoadLength(c) != 0.0
    ensures SimpleUniformInZoneShear(c, c.loadStart) == UniformReactionLeft(c)
    ensures SimpleUniformInZoneMoment(c, c.loadStart) == UniformReactionLeft(c) * c.loadStart
    ensures SimpleUniformInZoneShear(c, c.loadEnd) == -UniformReactionRight(c)
    ensures SimpleUniformInZoneMoment(c, c.loadEnd) == SimpleUniformAfterMoment(c, c.loadEnd)
  {
    var L, s, e, l, w := Span(c), c.loadStart, c.loadEnd, LoadLength(c), Intensity(c);
    var W := w * l;
    var RL, RR := UniformReactionLeft(c), UniformReactionRight(c);
    UniformReactionsBalance(c);
    IntensityTimesLength(c);
    InZoneMomentForm(c, s);
    InZoneMomentForm(c, e);
    AfterMomentForm(c, e);
    DivMul(W * (s + l / 2.0), L);
    assert RR * L == W * (s + l / 2.0);
    assert SimpleUniformInZoneMoment(c, e) == RL * e - W * l / 2.0;
    assert W * (e - l / 2.0) == RR * L;
  }

  /** The in-zone moment is the left reaction's moment less the load's. */
  lemma InZoneMomentForm(c: Config, x: real)
    requires c.beam == SimpleBeam && Span(c) != 0.0 && LoadLength(c) != 0.0
    ensures SimpleUniformInZoneMoment(c, x)
         == UniformReactionLeft(c) * x - (Intensity(c) * (x - c.loadStart) * (x - c.loadStart)) / 2.0
  {
    var L, s, l := Span(c), c.loadStart, LoadLength(c);
    MulDiv(Intensity(c) * l * (L - s - l / 2.0), x, L);
  }

  /** The after-zone moment is the right reaction's moment about `x`. */
  lemma AfterMomentForm(c: Config, x: real)
    requires c.beam == SimpleBeam && Span(c) != 0.0 && LoadLength(c) != 0.0
    ensures SimpleUniformAfterMoment(c, x) == UniformReactionRight(c) * (Span(c) - x)
  {
    var L, s, l := Span(c), c.loadStart, LoadLength(c);
    MulDiv(Intensity(c) * l * (s + l / 2.0), L - x, L);
  }

  /** With the loaded zone inside [0, L] (in the support-relative
      coordinates the formulas compare it with), the moment vanishes at both
      supports. */
  lemma SimpleUniformSupportMoments(c: Config)
    requires c.beam == SimpleBeam && c.load == UniformLoad && Span(c) != 0.0
    requires 0.0 <= c.loadStart < c.loadEnd <= Span(c)
    ensures Moment(c, 0.0) == 0.0 && Moment(c, Span(c)) == 0.0
  {
    var L := Span(c);
    if c.loadStart == 0.0 {
      InZoneMomentForm(c, 0.0);
    }
    if L <= c.loadEnd {
      SimpleUniformContinuity(c);
      AfterMomentForm(c, L);
    } else {
      AfterMomentForm(c, L);
    }
  }

  // ---------------------------------------------------------------------
  // Cantilever

  /** A point load on a cantilever: the full load is carried between the
      fixed end and the load, with the largest moment P·loadStart at the
      fixed end; beyond the load nothing is carried. */
  lemma CantileverPointPeak(c: Config, x: real)
    requires c.beam == CantileverBeam && c.load == PointLoad
    requires 0.0 <= c.loadStart && 0.0 <= x
    ensures Shear(c, 0.0) == c.loadMagnitude
    ensures Moment(c, 0.0) == c.loadMagnitude * c.loadStart
    ensures Abs(Shear(c, x)) <= Abs(c.loadMagnitude)
    ensures Abs(Moment(c, x)) <= Abs(Moment(c, 0.0))
  {
    var P, s := c.loadMagnitude, c.loadStart;
    assert Moment(c, 0.0) == P * s;
    if x <= s {
      assert Moment(c, x) == P * (s - x);
      AbsScaleMonotone(P, s - x, s);
    } else {
      assert Moment(c, x) == 0.0;
    }
  }

  /** Scaling keeps the order of magnitudes of non-negative numbers. */
  lemma AbsScaleMonotone(k: real, u: real, v: real)
    requires 0.0 <= u <= v
    ensures Abs(k * u) <= Abs(k * v)
  {
    if 0.0 <= k {
      ScaleMonotone(k, u, v);
    } else {
      ScaleMonotone(-k, u, v);
      assert -k * u == -(k * u) && -k * v == -(k * v);
    }
  }

  /** A uniform load lying on a cantilever beyond its fixed end: the shear
      at the fixed end is the whole load and the moment there is the load
      times the distance to its centroid, and no position from the fixed end
      onward carries a larger shear or moment. */
  lemma CantileverUniformPeak(c: Config, x: real)
    requires c.beam == CantileverBeam && c.load == UniformLoad
    requires 0.0 <= c.loadStart < c.loadEnd && 0.0 <= x
    ensures Shear(c, 0.0) == c.loadMagnitude
    ensures Moment(c, 0.0) == c.loadMagnitude * LoadCentroid(c)
    ensures Abs(Shear(c, x)) <= Abs(Shear(c, 0.0)) && Abs(Moment(c, x)) <= Abs(Moment(c, 0.0))
    ensures 0.0 <= c.loadMagnitude ==>
              0.0 <= Shear(c, x) <= Shear(c, 0.0) && 0.0 <= Moment(c, x) <= Moment(c, 0.0)
  {
    CantileverUniformFixedEnd(c);
    if 0.0 <= c.loadMagnitude {
      CantileverUniformShearBound(c, x);
      CantileverUniformMomentBound(c, x);
    } else {
      var n := c.(loadMagnitude := -c.loadMagnitude);
      CantileverUniformReversed(c, x);
      CantileverUniformReversed(c, 0.0);
      CantileverUniformFixedEnd(n);
      CantileverUniformShearBound(n, x);
      CantileverUniformMomentBound(n, x);
    }
  }

  /** Reversing the direction of a uniform load on a cantilever negates its
      shears and moments. */
  lemma CantileverUniformReversed(c: Config, x: real)
    requires c.beam == CantileverBeam && c.load == UniformLoad && LoadLength(c) != 0.0
    ensures var n := c.(loadMagnitude := -c.loadMagnitude);
            Shear(n, x) == -Shear(c, x) && Moment(n, x) == -Moment(c, x)
  {
    var n := c.(loadMagnitude := -c.loadMagnitude);
    var w, l, s, e := Intensity(c), LoadLength(c), c.loadStart, c.loadEnd;
    NegDiv(c.loadMagnitude, l);
    assert Intensity(n) == -w;
    assert (-w) * l == -(w * l);
    assert (-w) * l * (s + l / 2.0 - x) == -(w * l * (s + l / 2.0 - x));
    assert (-w) * (e - x) == -(w * (e - x));
    assert (-w) * (e - x) * (e - x) == -(w * (e - x) * (e - x));
  }

  lemma CantileverUniformFixedEnd(c: Config)
    requires c.beam == CantileverBeam && c.load == UniformLoad
    requires 0.0 <= c.loadStart < c.loadEnd
    ensures Shear(c, 0.0) == c.loadMagnitude
    ensures Moment(c, 0.0) == c.loadMagnitude * LoadCentroid(c)
  {
    IntensityTimesLength(c);
    assert c.loadStart + LoadLength(c) / 2.0 - 0.0 == LoadCentroid(c);
  }

  lemma CantileverUniformShearBound(c: Config, x: real)
    requires c.beam == CantileverBeam && c.load == UniformLoad
    requires 0.0 <= c.loadStart < c.loadEnd && 0.0 <= c.loadMagnitude
    ensures 0.0 <= CantileverUniformShear(c, x) <= c.loadMagnitude
  {
    var s, e, P, l := c.loadStart, c.loadEnd, c.loadMagnitude, LoadLength(c);
    IntensityTimesLength(c);
    if s < x <= e {
      DivNonneg(P, l);
      ScaleMonotone(Intensity(c), e - x, l);
    }
  }

  lemma CantileverUniformMomentBound(c: Config, x: real)
    requires c.beam == CantileverBeam && c.load == UniformLoad
    requires 0.0 <= c.loadStart < c.loadEnd && 0.0 <= c.loadMagnitude && 0.0 <= x
    ensures 0.0 <= CantileverUniformMoment(c, x) <= c.loadMagnitude * LoadCentroid(c)
  {
    var s, e, P, l := c.loadStart, c.loadEnd, c.loadMagnitude, LoadLength(c);
    var C := LoadCentroid(c);
    IntensityTimesLength(c);
    assert C == s + l / 2.0;
    if x <= s {
      assert CantileverUniformMoment(c, x) == P * (C - x);
      ScaleMonotone(P, C - x, C);
    } else if x <= e {
      var w := Intensity(c);
      DivNonneg(P, l);
      ZoneMomentBound(w, l, e - x, P);
      ScaleMonotone(P, l / 2.0, C);
      assert P * l / 2.0 == P * (l / 2.0);
    } else {
      ScaleMonotone(P, 0.0, C);
    }
  }

  /** 0 ≤ w·v²/2 ≤ P·l/2 for 0 ≤ v ≤ l and P = w·l with w ≥ 0. */
  lemma ZoneMomentBound(w: real, l: real, v: real, P: real)
    requires 0.0 <= w && 0.0 <= v <= l && w * l == P
    ensures 0.0 <= (w * v * v) / 2.0 <= P * l / 2.0
  {
    ScaleMonotone(v, v, l);
    ScaleMonotone(l, v, l);
    ScaleMonotone(w, v * v, l * l);
    assert w * v * v == w * (v * v) && w * (l * l) == P * l;
  }

  /** A uniform load on a cantilever: between the fixed end and the load the
      shear is the whole load, and the moment meets the in-zone formula at
      the start of the load, where both equal w·loadLength²/2 and the
      shears agree too. */
  lemma CantileverUniformContinuity(c: Config, x: real)
    requires c.beam == CantileverBeam && c.load == UniformLoad && LoadLength(c) != 0.0
    requires x <= c.loadStart
    ensures Shear(c, x) == c.loadMagnitude
    ensures CantileverUniformInZoneShear(c, c.loadStart) == c.loadMagnitude
    ensures Moment(c, c.loadStart) == Intensity(c) * LoadLength(c) * LoadLength(c) / 2.0
    ensures CantileverUniformInZoneMoment(c, c.loadStart) == Moment(c, c.loadStart)
    ensures CantileverUniformInZoneShear(c, c.loadEnd) == 0.0
    ensures CantileverUniformInZoneMoment(c, c.loadEnd) == 0.0
  {
    IntensityTimesLength(c);
  }

  /** On a cantilever nothing is carried past the far edge of the load. */
  lemma CantileverBeyondLoad(c: Config, x: real)
    requires c.beam == CantileverBeam
    requires x > c.loadStart && (c.load == UniformLoad ==> x > c.loadEnd)
    ensures Defined(c, x)
    ensures Shear(c, x) == 0.0 && Moment(c, x) == 0.0
  {
  }

  /** With the load on the beam the moment vanishes at the free end. */
  lemma CantileverFreeEndMoment(c: Config)
    requires c.beam == CantileverBeam
    requires c.load == PointLoad ==> c.loadStart <= Span(c)
    requires c.load == UniformLoad ==> c.loadStart < c.loadEnd <= Span(c)
    ensures Defined(c, Span(c)) && Moment(c, Span(c)) == 0.0
  {
    var L, s := Span(c), c.loadStart;
    if c.load == PointLoad && L <= s {
      assert L == s;
      assert Moment(c, L) == c.loadMagnitude * (s - L);
    } else if c.load == UniformLoad && s < L <= c.loadEnd {
      assert L == c.loadEnd;
      assert Moment(c, L) == (Intensity(c) * (c.loadEnd - L) * (c.loadEnd - L)) / 2.0;
    }
  }

  // ---------------------------------------------------------------------
  // Moment as the integral of shear

  /** +1 where the moment grows with the shear (simple beams), -1 where the
      reported moment is the hogging magnitude measured toward the free end
      (cantilevers). */
  function Orientation(c: Config): real
  {
    if c.beam == SimpleBeam then 1.0 else -1.0
  }

  /** Trapezoidal integral of a shear going linearly from v1 at x1 to v2 at x2. */
  function Trapezoid(v1: real, v2: real, x1: real, x2: real): real
  {
    (v1 + v2) / 2.0 * (x2 - x1)
  }

  /** Within one branch the shear is linear in x, so the moment change
      between two positions equals the trapezoidal integral of the shear
      exactly (up to the beam kind's sign convention). */
  lemma MomentIntegratesShear(c: Config, x1: real, x2: real)
    requires Defined(c, x1) && Defined(c, x2) && Region(c, x1) == Region(c, x2)
    ensures Moment(c, x2) - Moment(c, x1)
         == Orientation(c) * Trapezoid(Shear(c, x1), Shear(c, x2), x1, x2)
  {
    match (c.beam, c.load)
    case (SimpleBeam, PointLoad) => SimplePointIntegral(c, x1, x2);
    case (SimpleBeam, UniformLoad) => SimpleUniformIntegral(c, x1, x2);
    case (CantileverBeam, PointLoad) => CantileverPointIntegral(c, x1, x2);
    case (CantileverBeam, UniformLoad) => CantileverUniformIntegral(c, x1, x2);
  }

  lemma SimplePointIntegral(c: Config, x1: real, x2: real)
    requires Span(c) != 0.0 && Region(c, x1) == Region(c, x2)
    requires c.beam == SimpleBeam && c.load == PointLoad
    ensures SimplePointMoment(c, x2) - SimplePointMoment(c, x1)
         == Trapezoid(SimplePointShear(c, x1), SimplePointShear(c, x2), x1, x2)
  {
    var RA, P, a := ReactionA(c), c.loadMagnitude, LoadOffset(c);
    if x1 > a {
      assert SimplePointMoment(c, x2) - SimplePointMoment(c, x1)
          == (RA * x2 - P * (x2 - a)) - (RA * x1 - P * (x1 - a));
      assert (RA * x2 - P * (x2 - a)) - (RA * x1 - P * (x1 - a)) == (RA - P) * (x2 - x1);
    } else {
      assert SimplePointMoment(c, x2) - SimplePointMoment(c, x1) == RA * x2 - RA * x1;
    }
  }

  lemma SimpleUniformIntegral(c: Config, x1: real, x2: real)
    requires c.beam == SimpleBeam && c.load == UniformLoad
    requires Span(c) != 0.0 && LoadLength(c) != 0.0 && Region(c, x1) == Region(c, x2)
    ensures SimpleUniformMoment(c, x2) - SimpleUniformMoment(c, x1)
         == Trapezoid(SimpleUniformShear(c, x1), SimpleUniformShear(c, x2), x1, x2)
  {
    var RL := UniformReactionLeft(c);
    if Region(c, x1) == 0 {
      assert SimpleUniformMoment(c, x2) - SimpleUniformMoment(c, x1) == RL * x2 - RL * x1;
      assert RL * x2 - RL * x1 == Trapezoid(RL, RL, x1, x2);
    } else if Region(c, x1) == 1 {
      SimpleUniformInZoneIntegral(c, x1, x2);
    } else {
      SimpleUniformAfterIntegral(c, x1, x2);
    }
  }

  lemma SimpleUniformAfterIntegral(c: Config, x1: real, x2: real)
    requires c.beam == SimpleBeam && Span(c) != 0.0 && LoadLength(c) != 0.0
    ensures SimpleUniformAfterMoment(c, x2) - SimpleUniformAfterMoment(c, x1)
         == Trapezoid(-UniformReactionRight(c), -UniformReactionRight(c), x1, x2)
  {
    var L, RR := Span(c), UniformReactionRight(c);
    AfterMomentForm(c, x1);
    AfterMomentForm(c, x2);
    assert RR * (L - x2) - RR * (L - x1) == Trapezoid(-RR, -RR, x1, x2);
  }

  lemma SimpleUniformInZoneIntegral(c: Config, x1: real, x2: real)
    requires c.beam == SimpleBeam && Span(c) != 0.0 && LoadLength(c) != 0.0
    ensures SimpleUniformInZoneMoment(c, x2) - SimpleUniformInZoneMoment(c, x1)
         == Trapezoid(SimpleUniformInZoneShear(c, x1), SimpleUniformInZoneShear(c, x2), x1, x2)
  {
    InZoneMomentForm(c, x1);
    InZoneMomentForm(c, x2);
    ParabolaTrapezoid(UniformReactionLeft(c), Intensity(c), c.loadStart, x1, x2);
  }

  /** The moment R·x − w·(x−s)²/2 changes by the trapezoidal integral of its
      shear R − w·(x−s). */
  lemma ParabolaTrapezoid(R: real, w: real, s: real, x1: real, x2: real)
    ensures (R * x2 - (w * (x2 - s) * (x2 - s)) / 2.0) - (R * x1 - (w * (x1 - s) * (x1 - s)) / 2.0)
         == Trapezoid(R - w * (x1 - s), R - w * (x2 - s), x1, x2)
  {
    SquareDifference(w, x2 - s, x1 - s);
  }

  lemma CantileverPointIntegral(c: Config, x1: real, x2: real)
    requires c.beam == CantileverBeam && c.load == PointLoad && Region(c, x1) == Region(c, x2)
    ensures CantileverPointMoment(c, x2) - CantileverPointMoment(c, x1)
         == -Trapezoid(CantileverPointShear(c, x1), CantileverPointShear(c, x2), x1, x2)
  {
    var P, s := c.loadMagnitude, c.loadStart;
    if x1 <= s {
      assert CantileverPointMoment(c, x2) - CantileverPointMoment(c, x1) == P * (s - x2) - P * (s - x1);
    }
  }

  lemma CantileverUniformIntegral(c: Config, x1: real, x2: real)
    requires c.beam == CantileverBeam && c.load == UniformLoad && Region(c, x1) == Region(c, x2)
    requires LoadLength(c) != 0.0 || x1 > c.loadStart
    requires LoadLength(c) != 0.0 || x2 > c.loadStart
    ensures CantileverUniformMoment(c, x2) - CantileverUniformMoment(c, x1)
         == -Trapezoid(CantileverUniformShear(c, x1), CantileverUniformShear(c, x2), x1, x2)
  {
    var s, e := c.loadStart, c.loadEnd;
    if Region(c, x1) == 0 {
      var W := Intensity(c) * LoadLength(c);
      assert CantileverUniformMoment(c, x2) - CantileverUniformMoment(c, x1)
          == W * (s + LoadLength(c) / 2.0 - x2) - W * (s + LoadLength(c) / 2.0 - x1);
    } else if Region(c, x1) == 1 {
      var w := Intensity(c);
      SquareDifference(w, e - x2, e - x1);
      assert CantileverUniformMoment(c, x2) - CantileverUniformMoment(c, x1)
          == (w * (e - x2) * (e - x2)) / 2.0 - (w * (e - x1) * (e - x1)) / 2.0;
    }
  }

  // ---------------------------------------------------------------------
  // Load coordinates

  /** The simple-beam point-load diagram is unchanged when the supports and
      the load move together: the load is located relative to the left
      support. */
  lemma SimplePointFollowsSupports(c: Config, d: real, x: real)
    requires c.beam == SimpleBeam && c.load == PointLoad && Span(c) != 0.0
    ensures var moved := c.(leftSupport := c.leftSupport + d, rightSupport := c.rightSupport + d,
                            loadStart := c.loadStart + d);
            Defined(moved, x) && Shear(moved, x) == Shear(c, x) && Moment(moved, x) == Moment(c, x)
  {
    var moved := c.(leftSupport := c.leftSupport + d, rightSupport := c.rightSupport + d,
                    loadStart := c.loadStart + d);
    assert Span(moved) == Span(c);
    assert LoadOffset(moved) == LoadOffset(c);
    assert LoadToRight(moved) == LoadToRight(c);
    assert ReactionA(moved) == (moved.loadMagnitude * LoadToRight(moved)) / Span(moved);
    assert ReactionA(moved) == ReactionA(c);
    assert SimplePointShear(moved, x) == SimplePointShear(c, x);
    assert SimplePointMoment(moved, x) == SimplePointMoment(c, x);
  }

  /** The simple-beam uniform-load diagram is unchanged when only the
      supports move: its load positions are read as distances from the left
      support, whatever that support's position on the beam. */
  lemma SimpleUniformIgnoresSupportOffset(c: Config, d: real, x: real)
    requires c.beam == SimpleBeam && c.load == UniformLoad && Span(c) != 0.0 && LoadLength(c) != 0.0
    ensures var moved := c.(leftSupport := c.leftSupport + d, rightSupport := c.rightSupport + d);
            Defined(moved, x) && Shear(moved, x) == Shear(c, x) && Moment(moved, x) == Moment(c, x)
  {
    var moved := c.(leftSupport := c.leftSupport + d, rightSupport := c.rightSupport + d);
    assert Span(moved) == Span(c) && LoadLength(moved) == LoadLength(c);
    SimpleUniformReadsSpanOnly(c, moved, x);
  }

  /** The simple-beam uniform-load formulas read the supports only through
      the span. */
  lemma SimpleUniformReadsSpanOnly(c1: Config, c2: Config, x: real)
    requires Span(c1) == Span(c2) != 0.0 && LoadLength(c1) == LoadLength(c2) != 0.0
    requires c1.loadStart == c2.loadStart && c1.loadEnd == c2.loadEnd && c1.loadMagnitude == c2.loadMagnitude
    ensures SimpleUniformShear(c1, x) == SimpleUniformShear(c2, x)
    ensures SimpleUniformMoment(c1, x) == SimpleUniformMoment(c2, x)
  {
    SameUniformReactions(c1, c2);
    SameUniformMoments(c1, c2, x);
  }

  lemma SameUniformReactions(c1: Config, c2: Config)
    requires Span(c1) == Span(c2) != 0.0 && LoadLength(c1) == LoadLength(c2) != 0.0
    requires c1.loadStart == c2.loadStart && c1.loadMagnitude == c2.loadMagnitude
    ensures Intensity(c1) == Intensity(c2)
    ensures UniformReactionLeft(c1) == UniformReactionLeft(c2)
    ensures UniformReactionRight(c1) == UniformReactionRight(c2)
  {
    assert Intensity(c1) == c1.loadMagnitude / LoadLength(c1);
  }

  lemma SameUniformMoments(c1: Config, c2: Config, x: real)
    requires Span(c1) == Span(c2) != 0.0 && LoadLength(c1) == LoadLength(c2) != 0.0
    requires c1.loadStart == c2.loadStart && Intensity(c1) == Intensity(c2)
    ensures SimpleUniformInZoneMoment(c1, x) == SimpleUniformInZoneMoment(c2, x)
    ensures SimpleUniformAfterMoment(c1, x) == SimpleUniformAfterMoment(c2, x)
  {
    SameInZoneMoment(c1, c2, x);
    SameAfterMoment(c1, c2, x);
  }

  lemma SameInZoneMoment(c1: Config, c2: Config, x: real)
    requires Span(c1) == Span(c2) != 0.0 && LoadLength(c1) == LoadLength(c2) != 0.0
    requires c1.loadStart == c2.loadStart && Intensity(c1) == Intensity(c2)
    ensures SimpleUniformInZoneMoment(c1, x) == SimpleUniformInZoneMoment(c2, x)
  {
    var q, l, L, s := Intensity(c1), LoadLength(c1), Span(c1), c1.loadStart;
    assert SimpleUniformInZoneMoment(c1, x) == (q * l * (L - s - l / 2.0) * x) / L - (q * (x - s) * (x - s)) / 2.0;
    assert SimpleUniformInZoneMoment(c2, x) == (q * l * (L - s - l / 2.0) * x) / L - (q * (x - s) * (x - s)) / 2.0;
  }

  lemma SameAfterMoment(c1: Config, c2: Config, x: real)
    requires Span(c1) == Span(c2) != 0.0 && LoadLength(c1) == LoadLength(c2) != 0.0
    requires c1.loadStart == c2.loadStart && Intensity(c1) == Intensity(c2)
    ensures SimpleUniformAfterMoment(c1, x) == SimpleUniformAfterMoment(c2, x)
  {
    var q, l, L, s := Intensity(c1), LoadLength(c1), Span(c1), c1.loadStart;
    assert SimpleUniformAfterMoment(c1, x) == (q * l * (s + l / 2.0) * (L - x)) / L;
    assert SimpleUniformAfterMoment(c2, x) == (q * l * (s + l / 2.0) * (L - x)) / L;
  }
}
