/** Shear force and bending moment at a position `x` along the analysed span,
    one closed-form, piecewise formula per (beam kind, load kind) pair.
    `x` is measured from the left support of a simple beam or from the fixed
    end of a cantilever. */
module Mechanics {
  import opened BeamInput
  import opened RealFacts

  function Abs(v: real): real
  {
    if v < 0.0 then -v else v
  }

  /** The source evaluates the formula at `x` without dividing by zero: a
      simple beam divides by its span, and a uniform load divides by its
      length in every branch except the cantilever's branch beyond the load. */
  predicate Defined(c: Config, x: real)
  {
    (c.beam == SimpleBeam ==> Span(c) != 0.0) &&
    (c.load == UniformLoad && LoadLength(c) == 0.0 ==> c.beam == CantileverBeam && x > c.loadStart)
  }

  // ---------------------------------------------------------------------
  // Simple beam, point load. The load position is taken relative to the
  // left support.

  /** Distance from the left support to the load (`a`). */
  function LoadOffset(c: Config): real
  {
    c.loadStart - c.leftSupport
  }

  /** Distance from the load to the right support (`b`). */
  function LoadToRight(c: Config): real
  {
    c.rightSupport - c.loadStart
  }

  /** Reaction at the left support. */
  function ReactionA(c: Config): real
    requires Span(c) != 0.0
  {
    (c.loadMagnitude * LoadToRight(c)) / Span(c)
  }

  /** Reaction at the right support: moments about the left support balance,
      and a non-negative load between the supports puts a share of it there. */
  function ReactionB(c: Config): real
    requires Span(c) != 0.0
  {
    (c.loadMagnitude * LoadOffset(c)) / Span(c)
  }

  /** Each reaction balances the moments about the other support, and a
      non-negative load between the supports puts a share of itself on each. */
  lemma ReactionShares(c: Config)
    requires c.beam == SimpleBeam && Span(c) != 0.0
    ensures ReactionA(c) * Span(c) == c.loadMagnitude * LoadToRight(c)
    ensures ReactionB(c) * Span(c) == c.loadMagnitude * LoadOffset(c)
    ensures 0.0 <= c.loadMagnitude && 0.0 <= LoadOffset(c) <= Span(c) ==>
              0.0 <= ReactionA(c) <= c.loadMagnitude && 0.0 <= ReactionB(c) <= c.loadMagnitude
  {
    DivMul(c.loadMagnitude * LoadToRight(c), Span(c));
    DivMul(c.loadMagnitude * LoadOffset(c), Span(c));
    ShareOfLoad(c.loadMagnitude, LoadToRight(c), Span(c));
    ShareOfLoad(c.loadMagnitude, LoadOffset(c), Span(c));
  }

  /** p·u/L lies between 0 and p for 0 ≤ u ≤ L. */
  lemma ShareOfLoad(p: real, u: real, L: real)
    requires L != 0.0
    ensures 0.0 <= p && 0.0 <= u <= L ==> 0.0 <= p * u / L <= p
  {
    if 0.0 <= p && 0.0 <= u <= L {
      ScaleDivMonotone(p, 0.0, u, L);
      ScaleDivMonotone(p, u, L, L);
      DivMul(p * L, L);
      MulDiv(p, L, L);
    }
  }

  /** Moment formula the source uses beyond the load point. */
  function PointMomentBeyond(c: Config, x: real): real
    requires Span(c) != 0.0
  {
    ReactionA(c) * x - c.loadMagnitude * (x - LoadOffset(c))
  }

  function SimplePointShear(c: Config, x: real): real
    requires Span(c) != 0.0
  {
    if x > LoadOffset(c) then ReactionA(c) - c.loadMagnitude else ReactionA(c)
  }

  function SimplePointMoment(c: Config, x: real): real
    requires Span(c) != 0.0
  {
    if x > LoadOffset(c) then PointMomentBeyond(c, x) else ReactionA(c) * x
  }

  // ---------------------------------------------------------------------
  // Simple beam, uniform load. The load positions are compared with the
  // support-relative `x` as they are: the left support is not subtracted.

  /** Shear left of the loaded zone: the left reaction. */
  function UniformReactionLeft(c: Config): real
    requires Span(c) != 0.0 && LoadLength(c) != 0.0
  {
    (Intensity(c) * LoadLength(c) * (Span(c) - c.loadStart - LoadLength(c) / 2.0)) / Span(c)
  }

  /** Magnitude of the right reaction; the shear right of the zone is its negation. */
  function UniformReactionRight(c: Config): real
    requires Span(c) != 0.0 && LoadLength(c) != 0.0
  {
    (Intensity(c) * LoadLength(c) * (c.loadStart + LoadLength(c) / 2.0)) / Span(c)
  }

  function SimpleUniformInZoneShear(c: Config, x: real): real
    requires Span(c) != 0.0 && LoadLength(c) != 0.0
  {
    UniformReactionLeft(c) - Intensity(c) * (x - c.loadStart)
  }

  function SimpleUniformInZoneMoment(c: Config, x: real): real
    requires Span(c) != 0.0 && LoadLength(c) != 0.0
  {
    (Intensity(c) * LoadLength(c) * (Span(c) - c.loadStart - LoadLength(c) / 2.0) * x) / Span(c)
      - (Intensity(c) * (x - c.loadStart) * (x - c.loadStart)) / 2.0
  }

  function SimpleUniformAfterMoment(c: Config, x: real): real
    requires Span(c) != 0.0 && LoadLength(c) != 0.0
  {
    (Intensity(c) * LoadLength(c) * (c.loadStart + LoadLength(c) / 2.0) * (Span(c) - x)) / Span(c)
  }

  function SimpleUniformShear(c: Config, x: real): real
    requires Span(c) != 0.0 && LoadLength(c) != 0.0
  {
    if x < c.loadStart then UniformReactionLeft(c)
    else if x <= c.loadEnd then SimpleUniformInZoneShear(c, x)
    else -UniformReactionRight(c)
  }

  function SimpleUniformMoment(c: Config, x: real): real
    requires Span(c) != 0.0 && LoadLength(c) != 0.0
  {
    if x < c.loadStart then UniformReactionLeft(c) * x
    else if x <= c.loadEnd then SimpleUniformInZoneMoment(c, x)
    else SimpleUniformAfterMoment(c, x)
  }

  // ---------------------------------------------------------------------
  // Cantilever, point load at `loadStart`, fixed end at 0.

  function CantileverPointShear(c: Config, x: real): real
  {
    if x <= c.loadStart then c.loadMagnitude else 0.0
  }

  function CantileverPointMoment(c: Config, x: real): real
  {
    if x <= c.loadStart then c.loadMagnitude * (c.loadStart - x) else 0.0
  }

  // ---------------------------------------------------------------------
  // Cantilever, uniform load over [loadStart, loadEnd].

  function CantileverUniformInboardMoment(c: Config, x: real): real
    requires LoadLength(c) != 0.0
  {
    Intensity(c) * LoadLength(c) * (c.loadStart + LoadLength(c) / 2.0 - x)
  }

  function CantileverUniformInZoneShear(c: Config, x: real): real
    requires LoadLength(c) != 0.0
  {
    Intensity(c) * (c.loadEnd - x)
  }

  function CantileverUniformInZoneMoment(c: Config, x: real): real
    requires LoadLength(c) != 0.0
  {
    (Intensity(c) * (c.loadEnd - x) * (c.loadEnd - x)) / 2.0
  }

  function CantileverUniformShear(c: Config, x: real): real
    requires LoadLength(c) != 0.0 || x > c.loadStart
  {
    if x <= c.loadStart then Intensity(c) * LoadLength(c)
    else if x <= c.loadEnd then CantileverUniformInZoneShear(c, x)
    else 0.0
  }

  function CantileverUniformMoment(c: Config, x: real): real
    requires LoadLength(c) != 0.0 || x > c.loadStart
  {
    if x <= c.loadStart then CantileverUniformInboardMoment(c, x)
    else if x <= c.loadEnd then CantileverUniformInZoneMoment(c, x)
    else 0.0
  }

  // ---------------------------------------------------------------------
  // Free-body reference: what the applied load does on the left of a
  // section, stated without the branch formulas.

  /** A uniform load's start does not lie past its end. */
  predicate LoadInOrder(c: Config)
  {
    c.load == UniformLoad ==> c.loadStart <= c.loadEnd
  }

  /** Position of a point load, in the coordinates the branch uses. */
  function PointLoadAt(c: Config): real
  {
    if c.beam == SimpleBeam then LoadOffset(c) else c.loadStart
  }

  /** Where the resultant of the whole load acts. */
  function LoadCentroid(c: Config): real
  {
    match c.load
    case PointLoad => PointLoadAt(c)
    case UniformLoad => (c.loadStart + c.loadEnd) / 2.0
  }

  /** The part of the load applied left of the section at `x`. */
  function LoadLeftOf(c: Config, x: real): real
  {
    match c.load
    case PointLoad => if x <= PointLoadAt(c) then 0.0 else c.loadMagnitude
    case UniformLoad =>
      if x <= c.loadStart then 0.0
      else if x <= c.loadEnd then c.loadMagnitude * (x - c.loadStart) / (c.loadEnd - c.loadStart)
      else c.loadMagnitude
  }

  /** The moment about `x` of the load applied left of `x`. */
  function LoadMomentLeftOf(c: Config, x: real): real
  {
    match c.load
    case PointLoad => if x <= PointLoadAt(c) then 0.0 else c.loadMagnitude * (x - PointLoadAt(c))
    case UniformLoad =>
      if x <= c.loadStart then 0.0
      else if x <= c.loadEnd then
        c.loadMagnitude * (x - c.loadStart) * (x - c.loadStart) / (2.0 * (c.loadEnd - c.loadStart))
      else c.loadMagnitude * (x - LoadCentroid(c))
  }

  /** The upward reaction at the left end: the left support of a simple
      beam, or the fixed end of a cantilever, which carries the whole load. */
  function LeftReaction(c: Config): real
    requires c.beam == SimpleBeam ==> Span(c) != 0.0 && (c.load == UniformLoad ==> LoadLength(c) != 0.0)
  {
    match (c.beam, c.load)
    case (SimpleBeam, PointLoad) => ReactionA(c)
    case (SimpleBeam, UniformLoad) => UniformReactionLeft(c)
    case (CantileverBeam, _) => c.loadMagnitude
  }

  // ---------------------------------------------------------------------
  // Dispatch over (beam kind, load kind).

  function Shear(c: Config, x: real): real
    requires Defined(c, x)
  {
    match (c.beam, c.load)
    case (SimpleBeam, PointLoad) => SimplePointShear(c, x)
    case (SimpleBeam, UniformLoad) => SimpleUniformShear(c, x)
    case (CantileverBeam, PointLoad) => CantileverPointShear(c, x)
    case (CantileverBeam, UniformLoad) => CantileverUniformShear(c, x)
  }

  function Moment(c: Config, x: real): real
    requires Defined(c, x)
  {
    match (c.beam, c.load)
    case (SimpleBeam, PointLoad) => SimplePointMoment(c, x)
    case (SimpleBeam, UniformLoad) => SimpleUniformMoment(c, x)
    case (CantileverBeam, PointLoad) => CantileverPointMoment(c, x)
    case (CantileverBeam, UniformLoad) => CantileverUniformMoment(c, x)
  }

  // ---------------------------------------------------------------------
  // The branch formulas agree with the free-body reference.

  /** Vertical balance of the part of the beam left of the section: the
      shear at `x` is the left reaction less the load applied left of `x`. */
  lemma ShearBalance(c: Config, x: real)
    requires Defined(c, x) && LoadInOrder(c)
    ensures Shear(c, x) == LeftReaction(c) - LoadLeftOf(c, x)
  {
    match (c.beam, c.load)
    case (SimpleBeam, PointLoad) =>
    case (SimpleBeam, UniformLoad) => SimpleUniformShearBalance(c, x);
    case (CantileverBeam, PointLoad) =>
    case (CantileverBeam, UniformLoad) => CantileverUniformShearBalance(c, x);
  }

  /** Moment balance at the section. For a simple beam the moment is the
      sagging moment of the forces left of `x`: the left reaction times `x`
      less the moment of the load left of `x`. For a cantilever it is the
      hogging magnitude of the load right of `x`: the whole load's moment
      about `x` plus the moment of the part left of `x`, which does not act
      on the part right of the section. */
  lemma MomentBalance(c: Config, x: real)
    requires Defined(c, x) && LoadInOrder(c)
    ensures c.beam == SimpleBeam ==> Moment(c, x) == LeftReaction(c) * x - LoadMomentLeftOf(c, x)
    ensures c.beam == CantileverBeam ==>
              Moment(c, x) == c.loadMagnitude * (LoadCentroid(c) - x) + LoadMomentLeftOf(c, x)
  {
    match (c.beam, c.load)
    case (SimpleBeam, PointLoad) =>
    case (SimpleBeam, UniformLoad) => SimpleUniformMomentBalance(c, x);
    case (CantileverBeam, PointLoad) => CantileverPointMomentBalance(c, x);
    case (CantileverBeam, UniformLoad) => CantileverUniformMomentBalance(c, x);
  }

  /** The two reactions of a uniform load sum to its magnitude. */
  lemma UniformReactionsBalance(c: Config)
    requires Span(c) != 0.0 && LoadLength(c) != 0.0
    ensures UniformReactionLeft(c) + UniformReactionRight(c) == c.loadMagnitude
  {
    var L, s, l := Span(c), c.loadStart, LoadLength(c);
    var W := Intensity(c) * l;
    IntensityTimesLength(c);
    DivAdd(W * (L - s - l / 2.0), W * (s + l / 2.0), L);
    assert W * (L - s - l / 2.0) + W * (s + l / 2.0) == W * L;
    DivMul(W, L);
    MulDiv(W, L, L);
  }

  /** (p/l)·u = p·u/l and (p/l)·u·u/2 = p·u·u/(2·l). */
  lemma IntensityShare(p: real, l: real, u: real)
    requires l != 0.0
    ensures (p / l) * u == p * u / l
    ensures ((p / l) * u * u) / 2.0 == p * u * u / (2.0 * l)
  {
    MulDiv(p, u, l);
    MulDiv(p * u, u, l);
    assert p * u * u / (2.0 * l) == (p * u * u / l) / 2.0;
  }

  lemma SimpleUniformShearBalance(c: Config, x: real)
    requires c.beam == SimpleBeam && c.load == UniformLoad && Span(c) != 0.0 && LoadLength(c) != 0.0
    ensures LoadInOrder(c) ==> SimpleUniformShear(c, x) == LeftReaction(c) - LoadLeftOf(c, x)
  {
    if LoadInOrder(c) {
      if c.loadStart <= x <= c.loadEnd {
        IntensityShare(c.loadMagnitude, LoadLength(c), x - c.loadStart);
      } else if x > c.loadEnd {
        UniformReactionsBalance(c);
      }
    }
  }

  lemma CantileverUniformShearBalance(c: Config, x: real)
    requires c.beam == CantileverBeam && c.load == UniformLoad && (LoadLength(c) != 0.0 || x > c.loadStart)
    ensures LoadInOrder(c) ==> CantileverUniformShear(c, x) == LeftReaction(c) - LoadLeftOf(c, x)
  {
    if LoadInOrder(c) && x <= c.loadEnd {
      IntensityTimesLength(c);
      if c.loadStart < x {
        var p, l, u := c.loadMagnitude, LoadLength(c), x - c.loadStart;
        IntensityShare(p, l, u);
        assert Intensity(c) * (c.loadEnd - x) == Intensity(c) * l - Intensity(c) * u;
      }
    }
  }

  lemma SimpleUniformMomentBalance(c: Config, x: real)
    requires c.beam == SimpleBeam && c.load == UniformLoad && Span(c) != 0.0 && LoadLength(c) != 0.0
    ensures LoadInOrder(c) ==> SimpleUniformMoment(c, x) == LeftReaction(c) * x - LoadMomentLeftOf(c, x)
  {
    if LoadInOrder(c) {
      if x < c.loadStart {
        assert SimpleUniformMoment(c, x) == UniformReactionLeft(c) * x;
        assert LoadMomentLeftOf(c, x) == 0.0;
      } else if x <= c.loadEnd {
        assert SimpleUniformMoment(c, x) == SimpleUniformInZoneMoment(c, x);
        SimpleUniformInZoneBalance(c, x);
      } else {
        assert SimpleUniformMoment(c, x) == SimpleUniformAfterMoment(c, x);
        SimpleUniformAfterBalance(c, x);
      }
    }
  }

  lemma SimpleUniformInZoneBalance(c: Config, x: real)
    requires c.beam == SimpleBeam && c.load == UniformLoad && Span(c) != 0.0 && LoadLength(c) != 0.0
    requires c.loadStart <= x <= c.loadEnd
    ensures SimpleUniformInZoneMoment(c, x) == LeftReaction(c) * x - LoadMomentLeftOf(c, x)
  {
    var L, s, l, p, w := Span(c), c.loadStart, LoadLength(c), c.loadMagnitude, Intensity(c);
    var u := x - s;
    var A := w * l * (L - s - l / 2.0);
    assert LeftReaction(c) == A / L;
    MulDiv(A, x, L);
    assert SimpleUniformInZoneMoment(c, x) == (A / L) * x - (w * u * u) / 2.0;
    IntensityShare(p, l, u);
    assert (w * u * u) / 2.0 == p * u * u / (2.0 * l);
    if x == s {
      assert LoadMomentLeftOf(c, x) == 0.0;
    } else {
      assert LoadMomentLeftOf(c, x) == p * u * u / (2.0 * l);
    }
  }

  lemma SimpleUniformAfterBalance(c: Config, x: real)
    requires c.beam == SimpleBeam && c.load == UniformLoad && Span(c) != 0.0 && LoadLength(c) != 0.0
    requires c.loadStart <= c.loadEnd < x
    ensures SimpleUniformAfterMoment(c, x) == LeftReaction(c) * x - LoadMomentLeftOf(c, x)
  {
    var L, s, l, p := Span(c), c.loadStart, LoadLength(c), c.loadMagnitude;
    var C := s + l / 2.0;
    var B := Intensity(c) * l * C;
    var rl, rr := UniformReactionLeft(c), UniformReactionRight(c);
    assert SimpleUniformAfterMoment(c, x) == (B * (L - x)) / L;
    assert LeftReaction(c) == rl;
    assert rr == B / L;
    assert LoadMomentLeftOf(c, x) == p * (x - C) by {
      assert LoadCentroid(c) == C;
    }
    assert B == p * C by {
      IntensityTimesLength(c);
    }
    assert rl + rr == p by {
      UniformReactionsBalance(c);
    }
    AfterArith(B, L, x, rl, rr, p, C);
  }

  /** B·(L − x)/L = rl·x − p·(x − C) when rr = B/L, B = p·C and rl + rr = p. */
  lemma AfterArith(B: real, L: real, x: real, rl: real, rr: real, p: real, C: real)
    requires L != 0.0 && rr == B / L && B == p * C && rl + rr == p
    ensures (B * (L - x)) / L == rl * x - p * (x - C)
  {
    MulDiv(B, L - x, L);
    DivMul(B, L);
    assert rr * (L - x) == rr * L - rr * x;
    assert rl * x == (p - rr) * x;
  }

  lemma CantileverPointMomentBalance(c: Config, x: real)
    requires c.beam == CantileverBeam && c.load == PointLoad
    ensures CantileverPointMoment(c, x) == c.loadMagnitude * (LoadCentroid(c) - x) + LoadMomentLeftOf(c, x)
  {
    assert c.loadMagnitude * (c.loadStart - x) + c.loadMagnitude * (x - c.loadStart) == 0.0;
  }

  lemma CantileverUniformMomentBalance(c: Config, x: real)
    requires c.beam == CantileverBeam && c.load == UniformLoad && (LoadLength(c) != 0.0 || x > c.loadStart)
    ensures LoadInOrder(c) ==>
              CantileverUniformMoment(c, x) == c.loadMagnitude * (LoadCentroid(c) - x) + LoadMomentLeftOf(c, x)
  {
    if LoadInOrder(c) {
      var p := c.loadMagnitude;
      if x <= c.loadStart {
        IntensityTimesLength(c);
        assert c.loadStart + LoadLength(c) / 2.0 - x == LoadCentroid(c) - x;
      } else if x <= c.loadEnd {
        CantileverUniformInZoneBalance(c, x);
      } else {
        assert p * (LoadCentroid(c) - x) + p * (x - LoadCentroid(c)) == 0.0;
      }
    }
  }

  lemma CantileverUniformInZoneBalance(c: Config, x: real)
    requires c.beam == CantileverBeam && c.load == UniformLoad
    requires c.loadStart < x <= c.loadEnd
    ensures CantileverUniformInZoneMoment(c, x) == c.loadMagnitude * (LoadCentroid(c) - x) + LoadMomentLeftOf(c, x)
  {
    var s, e, p, l := c.loadStart, c.loadEnd, c.loadMagnitude, LoadLength(c);
    var u, v := x - s, e - x;
    IntensityShare(p, l, v);
    assert CantileverUniformInZoneMoment(c, x) == p * v * v / (2.0 * l);
    InZoneIdentity(p, l, u);
    assert l - u == v;
    assert LoadCentroid(c) - x == l / 2.0 - u;
    assert LoadMomentLeftOf(c, x) == p * u * u / (2.0 * l);
  }

  /** p·(l/2 − u) + p·u²/(2·l) = p·(l − u)²/(2·l). */
  lemma InZoneIdentity(p: real, l: real, u: real)
    requires l != 0.0
    ensures p * (l / 2.0 - u) + p * u * u / (2.0 * l) == p * (l - u) * (l - u) / (2.0 * l)
  {
    var q := p / (2.0 * l);
    MulDiv(p, u * u, 2.0 * l);
    MulDiv(p, (l - u) * (l - u), 2.0 * l);
    assert p * (l / 2.0 - u) == q * (l * l - 2.0 * u * l) by {
      DivMul(p, 2.0 * l);
      assert q * (2.0 * l) == p;
    }
    assert p * u * u == p * (u * u);
    assert p * (l - u) * (l - u) == p * ((l - u) * (l - u));
  }

  /** Which branch of its case the source takes at `x`: 0 up to the load
      (or before the loaded zone), 1 beyond the point load (or within the
      loaded zone), 2 beyond the loaded zone. */
  function Region(c: Config, x: real): nat
  {
    match c.load
    case PointLoad =>
      var edge := if c.beam == SimpleBeam then LoadOffset(c) else c.loadStart;
      if x <= edge then 0 else 1
    case UniformLoad =>
      if c.beam == SimpleBeam then
        (if x < c.loadStart then 0 else if x <= c.loadEnd then 1 else 2)
      else
        (if x <= c.loadStart then 0 else if x <= c.loadEnd then 1 else 2)
  }
}
