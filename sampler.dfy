/** The diagram sampler: shear force and bending moment at 101 equally spaced
    positions over the analysed span, with the running peaks of their
    magnitudes. */
module Sampler {
  import opened Wrappers
  import opened BeamInput
  import opened Mechanics
  import opened Statics
  import opened RealFacts

  /** Number of steps of the sampling grid, which has Steps + 1 points. */
  const Steps: nat := 100

  /** The i-th grid position, i·L/100 (Steps = 100): the source's
      `x += L / 100` in exact arithmetic. */
  function GridPoint(L: real, i: nat): (x: real)
    ensures 0.0 <= L && i <= Steps ==> 0.0 <= x <= L
  {
    L * (i as real) / (Steps as real)
  }

  datatype ShearPoint = ShearPoint(x: real, shearForce: real)

  datatype MomentPoint = MomentPoint(x: real, bendingMoment: real)

  /** The two series the sampler emits and the peak magnitudes over them. */
  datatype Diagram = Diagram(
    shearForceData: seq<ShearPoint>,
    bendingMomentData: seq<MomentPoint>,
    maxShearForce: real,
    maxBendingMoment: real)

  datatype SampleError =
    | NonTerminatingLoop    // a zero span: the source steps by L/100 = 0 forever
    | InvalidLoadGeometry   // a zero-length uniform load divides by zero at a sampled point

  /** The span is positive and no grid position needs the intensity of a
      zero-length uniform load (a cantilever's positions never reach a load
      that starts left of the fixed end). */
  predicate Samplable(c: Config)
    ensures Samplable(c) ==> forall i: nat :: i <= Steps ==> Defined(c, GridPoint(Span(c), i))
    ensures Span(c) > 0.0 && !Samplable(c) ==> !Defined(c, GridPoint(Span(c), 0))
  {
    Span(c) > 0.0 &&
    (c.load == UniformLoad && LoadLength(c) == 0.0 ==> c.beam == CantileverBeam && c.loadStart < 0.0)
  }

  function ShearData(c: Config): seq<ShearPoint>
    requires Samplable(c)
  {
    seq(Steps + 1, i requires 0 <= i <= Steps =>
      var x := GridPoint(Span(c), i); ShearPoint(x, Shear(c, x)))
  }

  function MomentData(c: Config): seq<MomentPoint>
    requires Samplable(c)
  {
    seq(Steps + 1, i requires 0 <= i <= Steps =>
      var x := GridPoint(Span(c), i); MomentPoint(x, Moment(c, x)))
  }

  function Shears(data: seq<ShearPoint>): seq<real>
  {
    seq(|data|, i requires 0 <= i < |data| => data[i].shearForce)
  }

  function Moments(data: seq<MomentPoint>): seq<real>
  {
    seq(|data|, i requires 0 <= i < |data| => data[i].bendingMoment)
  }

  function Max(u: real, v: real): real
  {
    if u < v then v else u
  }

  /** `m` is the running maximum of |v| over `vals` started from 0: it bounds
      every magnitude and is one of them, or 0. */
  ghost predicate IsPeak(m: real, vals: seq<real>)
  {
    0.0 <= m &&
    (forall k :: 0 <= k < |vals| ==> Abs(vals[k]) <= m) &&
    (m == 0.0 || exists k :: 0 <= k < |vals| && m == Abs(vals[k]))
  }

  /** The diagram the source computes for a samplable configuration. */
  ghost predicate IsDiagramOf(c: Config, d: Diagram)
  {
    Samplable(c) &&
    d.shearForceData == ShearData(c) &&
    d.bendingMomentData == MomentData(c) &&
    IsPeak(d.maxShearForce, Shears(d.shearForceData)) &&
    IsPeak(d.maxBendingMoment, Moments(d.bendingMomentData))
  }

  /** Samples the diagram of `c`, as the loops of the source do. */
  method SampleDiagram(c: Config) returns (r: Result<Diagram, SampleError>)
    ensures Span(c) == 0.0 ==> r == Failure(NonTerminatingLoop)
    ensures Span(c) < 0.0 ==> r == Success(Diagram([], [], 0.0, 0.0))
    ensures Span(c) > 0.0 && !Samplable(c) ==> r == Failure(InvalidLoadGeometry)
    ensures Samplable(c) ==> r.Success? && IsDiagramOf(c, r.value)
  {
    var L := Span(c);
    if L == 0.0 {
      return Failure(NonTerminatingLoop);
    }
    if L < 0.0 {
      return Success(Diagram([], [], 0.0, 0.0));
    }
    if !Samplable(c) {
      return Failure(InvalidLoadGeometry);
    }
    var shearForceData: seq<ShearPoint> := [];
    var bendingMomentData: seq<MomentPoint> := [];
    var maxShearForce, maxBendingMoment := 0.0, 0.0;
    var i: nat := 0;
    while i <= Steps
      invariant i <= Steps + 1
      invariant shearForceData == ShearData(c)[..i]
      invariant bendingMomentData == MomentData(c)[..i]
      invariant IsPeak(maxShearForce, Shears(shearForceData))
      invariant IsPeak(maxBendingMoment, Moments(bendingMomentData))
    {
      var x := GridPoint(L, i);
      var shearForce := Shear(c, x);
      var bendingMoment := Moment(c, x);
      SampleStep(c, i, shearForceData, bendingMomentData);
      PeakStep(maxShearForce, Shears(shearForceData), shearForce);
      PeakStep(maxBendingMoment, Moments(bendingMomentData), bendingMoment);
      shearForceData := shearForceData + [ShearPoint(x, shearForce)];
      bendingMomentData := bendingMomentData + [MomentPoint(x, bendingMoment)];
      maxShearForce := Max(maxShearForce, Abs(shearForce));
      maxBendingMoment := Max(maxBendingMoment, Abs(bendingMoment));
      i := i + 1;
    }
    assert shearForceData == ShearData(c);
    assert bendingMomentData == MomentData(c);
    return Success(Diagram(shearForceData, bendingMomentData, maxShearForce, maxBendingMoment));
  }

  /** Appending the sample at grid point i extends both series' prefixes
      and their value lists by one. */
  lemma SampleStep(c: Config, i: nat, shearForceData: seq<ShearPoint>, bendingMomentData: seq<MomentPoint>)
    requires Samplable(c) && i <= Steps
    requires shearForceData == ShearData(c)[..i] && bendingMomentData == MomentData(c)[..i]
    ensures var x := GridPoint(Span(c), i);
            ShearData(c)[..i + 1] == shearForceData + [ShearPoint(x, Shear(c, x))] &&
            MomentData(c)[..i + 1] == bendingMomentData + [MomentPoint(x, Moment(c, x))] &&
            Shears(shearForceData + [ShearPoint(x, Shear(c, x))]) == Shears(shearForceData) + [Shear(c, x)] &&
            Moments(bendingMomentData + [MomentPoint(x, Moment(c, x))]) == Moments(bendingMomentData) + [Moment(c, x)]
  {
    var x := GridPoint(Span(c), i);
    assert ShearData(c)[..i + 1] == ShearData(c)[..i] + [ShearData(c)[i]];
    assert MomentData(c)[..i + 1] == MomentData(c)[..i] + [MomentData(c)[i]];
    assert Shears(shearForceData + [ShearPoint(x, Shear(c, x))]) == Shears(shearForceData) + [Shear(c, x)];
    assert Moments(bendingMomentData + [MomentPoint(x, Moment(c, x))]) == Moments(bendingMomentData) + [Moment(c, x)];
  }

  /** One step of the running maximum keeps it the peak of the longer list. */
  lemma PeakStep(m: real, vals: seq<real>, v: real)
    requires IsPeak(m, vals)
    ensures IsPeak(Max(m, Abs(v)), vals + [v])
  {
    var ext := vals + [v];
    assert ext[|vals|] == v;
    assert forall k :: 0 <= k < |vals| ==> ext[k] == vals[k];
    if m != 0.0 && Abs(v) <= m {
      var k :| 0 <= k < |vals| && m == Abs(vals[k]);
      assert m == Abs(ext[k]);
    }
  }

  // ---------------------------------------------------------------------
  // The grid

  /** Consecutive grid positions are L/100 apart, from 0 to L, in increasing
      order when L is non-negative. */
  lemma GridSpacing(L: real, i: nat, j: nat)
    requires 0.0 <= L && i <= j
    ensures GridPoint(L, 0) == 0.0 && GridPoint(L, Steps) == L
    ensures GridPoint(L, i + 1) - GridPoint(L, i) == L / 100.0
    ensures GridPoint(L, i) <= GridPoint(L, j)
  {
    assert GridPoint(L, i + 1) == (L * (i as real) + L) / 100.0 by {
      assert L * (i + 1) as real == L * (i as real) + L;
    }
    ScaleDivMonotone(L, i as real, j as real, 100.0);
  }

  /** A configuration with a positive span is samplable exactly when the
      formula is defined at every grid position. */
  lemma SamplableIffDefinedOnGrid(c: Config)
    requires Span(c) > 0.0
    ensures Samplable(c) <==> forall i: nat :: i <= Steps ==> Defined(c, GridPoint(Span(c), i))
  {
    if !Samplable(c) {
      assert !Defined(c, GridPoint(Span(c), 0));
    }
  }

  /** Both series have 101 samples at the same positions, which rise from 0
      to the span. */
  lemma DiagramPositions(c: Config, d: Diagram, i: nat, j: nat)
    requires IsDiagramOf(c, d)
    requires i <= j <= Steps
    ensures |d.shearForceData| == |d.bendingMomentData| == Steps + 1
    ensures d.shearForceData[i].x == d.bendingMomentData[i].x
    ensures d.shearForceData[0].x == 0.0 && d.shearForceData[Steps].x == Span(c)
    ensures d.shearForceData[i].x <= d.shearForceData[j].x
  {
    GridSpacing(Span(c), i, j);
  }

  // ---------------------------------------------------------------------
  // Peaks

  /** The peak of a list is determined by the list. */
  lemma PeakUnique(m1: real, m2: real, vals: seq<real>)
    requires IsPeak(m1, vals) && IsPeak(m2, vals)
    ensures m1 == m2
  {
    if m1 != 0.0 {
      var k :| 0 <= k < |vals| && m1 == Abs(vals[k]);
      assert m1 <= m2;
    }
    if m2 != 0.0 {
      var k :| 0 <= k < |vals| && m2 == Abs(vals[k]);
      assert m2 <= m1;
    }
  }

  /** When one sample's magnitude dominates all others, the peak is that magnitude. */
  lemma PeakAtDominantSample(m: real, vals: seq<real>, k: nat)
    requires IsPeak(m, vals) && k < |vals|
    requires forall j :: 0 <= j < |vals| ==> Abs(vals[j]) <= Abs(vals[k])
    ensures m == Abs(vals[k])
  {
    if m != 0.0 {
      var j :| 0 <= j < |vals| && m == Abs(vals[j]);
    }
  }

  /** A simply supported 1000 mm span with a 1000 N point load at midspan:
      reactions of 500 N, peak shear 500 N, peak moment 250000 N·mm. */
  lemma SimplePointMidspanScenario(d: Diagram)
    requires IsDiagramOf(Config(SimpleBeam, PointLoad, 1000.0, 0.0, 1000.0, 1000.0, 500.0, 500.0), d)
    ensures ReactionA(Config(SimpleBeam, PointLoad, 1000.0, 0.0, 1000.0, 1000.0, 500.0, 500.0)) == 500.0
    ensures ReactionB(Config(SimpleBeam, PointLoad, 1000.0, 0.0, 1000.0, 1000.0, 500.0, 500.0)) == 500.0
    ensures d.maxShearForce == 500.0 && d.maxBendingMoment == 250000.0
  {
    var c := Config(SimpleBeam, PointLoad, 1000.0, 0.0, 1000.0, 1000.0, 500.0, 500.0);
    var shears, moments := Shears(d.shearForceData), Moments(d.bendingMomentData);
    assert GridPoint(1000.0, 50) == 500.0;
    assert moments[50] == 250000.0;
    forall j | 0 <= j < |moments|
      ensures Abs(moments[j]) <= Abs(moments[50])
    {
      SimplePointPeak(c, GridPoint(1000.0, j));
    }
    PeakAtDominantSample(d.maxBendingMoment, moments, 50);
    forall j | 0 <= j < |shears|
      ensures Abs(shears[j]) == 500.0
    {
    }
    PeakAtDominantSample(d.maxShearForce, shears, 0);
  }

  /** A 1000 mm cantilever with a 1000 N point load at its free end: peak
      shear 1000 N and peak moment 1000000 N·mm, at the fixed end. */
  lemma CantileverEndLoadScenario(d: Diagram)
    requires IsDiagramOf(Config(CantileverBeam, PointLoad, 1000.0, 0.0, 1000.0, 1000.0, 1000.0, 500.0), d)
    ensures d.maxShearForce == 1000.0 && d.maxBendingMoment == 1000000.0
  {
    var c := Config(CantileverBeam, PointLoad, 1000.0, 0.0, 1000.0, 1000.0, 1000.0, 500.0);
    var shears, moments := Shears(d.shearForceData), Moments(d.bendingMomentData);
    forall j | 0 <= j < |moments|
      ensures Abs(moments[j]) <= Abs(moments[0]) && Abs(shears[j]) <= Abs(shears[0])
    {
      CantileverPointPeak(c, GridPoint(1000.0, j));
    }
    PeakAtDominantSample(d.maxBendingMoment, moments, 0);
    PeakAtDominantSample(d.maxShearForce, shears, 0);
  }
}
