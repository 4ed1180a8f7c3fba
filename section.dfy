/** The section and safety evaluator: from the peak shear and moment and a
    rectangular width × height section, the bending and shear stresses and
    the safety factor against yield. A quantity whose divisor is zero (and
    which the source would report as infinite or not-a-number) is `None`. */
module SectionCheck {
  import opened Wrappers
  import opened RealFacts

  datatype Section = Section(width: real, height: real)

  function Area(s: Section): (a: real)
    ensures a == 0.0 <==> s.width == 0.0 || s.height == 0.0
  {
    s.width * s.height
  }

  /** Second moment of area about the horizontal centroidal axis. */
  function MomentOfInertia(s: Section): (i: real)
    ensures i == 0.0 <==> s.width == 0.0 || s.height == 0.0
    ensures s.width > 0.0 && s.height > 0.0 ==> i > 0.0
  {
    var h3 := s.height * s.height * s.height;
    assert s.height != 0.0 ==> h3 != 0.0;
    assert s.height > 0.0 ==> h3 > 0.0;
    (s.width * h3) / 12.0
  }

  datatype AnalysisResult = AnalysisResult(
    maxShearForce: real,
    maxBendingMoment: real,
    maxNormalStress: Option<real>,
    maxShearStress: Option<real>,
    safetyFactor: Option<real>)

  /** Extreme-fibre bending stress M·(h/2)/I. */
  function NormalStress(maxBendingMoment: real, s: Section): (r: Option<real>)
    ensures r.Some? <==> s.width != 0.0 && s.height != 0.0
    ensures r.Some? ==> r.value == 6.0 * maxBendingMoment / (s.width * s.height * s.height)
  {
    var inertia := MomentOfInertia(s);
    if inertia != 0.0 then
      var stress := (maxBendingMoment * (s.height / 2.0)) / inertia;
      BendingStressClosedForm(maxBendingMoment, s.width, s.height);
      Some(stress)
    else None
  }

  /** M·(h/2) / (w·h³/12) = 6·M / (w·h²). */
  lemma BendingStressClosedForm(m: real, w: real, h: real)
    requires w != 0.0 && h != 0.0
    ensures (m * (h / 2.0)) / ((w * (h * h * h)) / 12.0) == 6.0 * m / (w * h * h)
  {
    var d := w * h * h;
    MulNonzero(w, h);
    MulNonzero(w * h, h);
    assert (w * (h * h * h)) / 12.0 == d * h / 12.0;
    assert m * (h / 2.0) == (6.0 * m) * h / 12.0;
  }

  /** Maximum shear stress of a rectangular section, 1.5·V/A. */
  function ShearStress(maxShearForce: real, s: Section): (r: Option<real>)
    ensures r.Some? <==> Area(s) != 0.0
    ensures r.Some? ==> r.value * Area(s) == 1.5 * maxShearForce
  {
    if Area(s) != 0.0 then Some((1.5 * maxShearForce) / Area(s)) else None
  }

  /** Yield strength over the bending stress. */
  function SafetyFactor(yieldStrength: real, normalStress: Option<real>): (r: Option<real>)
    ensures r.Some? <==> normalStress.Some? && normalStress.value != 0.0
    ensures r.Some? ==> r.value * normalStress.value == yieldStrength
  {
    if normalStress.Some? && normalStress.value != 0.0 then Some(yieldStrength / normalStress.value) else None
  }

  /** The section check on the two peaks: the bending stress 6·M/(w·h²),
      the shear stress 1.5·V/(w·h), and the yield strength over the bending
      stress, each defined exactly when its divisor is nonzero. */
  function Evaluate(maxShearForce: real, maxBendingMoment: real, s: Section, yieldStrength: real): (r: AnalysisResult)
    ensures r.maxShearForce == maxShearForce && r.maxBendingMoment == maxBendingMoment
    ensures r.maxNormalStress.Some? <==> s.width != 0.0 && s.height != 0.0
    ensures r.maxNormalStress.Some? ==>
              r.maxNormalStress.value * (s.width * s.height * s.height) == 6.0 * maxBendingMoment
    ensures r.maxShearStress.Some? <==> s.width != 0.0 && s.height != 0.0
    ensures r.maxShearStress.Some? ==> r.maxShearStress.value * (s.width * s.height) == 1.5 * maxShearForce
    ensures r.safetyFactor.Some? <==> s.width != 0.0 && s.height != 0.0 && maxBendingMoment != 0.0
    ensures r.safetyFactor.Some? ==>
              r.safetyFactor.value * (6.0 * maxBendingMoment) == yieldStrength * (s.width * s.height * s.height)
  {
    var normalStress := NormalStress(maxBendingMoment, s);
    var result := AnalysisResult(
      maxShearForce,
      maxBendingMoment,
      normalStress,
      ShearStress(maxShearForce, s),
      SafetyFactor(yieldStrength, normalStress));
    EvaluateStresses(maxBendingMoment, s, yieldStrength, normalStress);
    result
  }

  /** The bending stress and the safety factor in terms of the section. */
  lemma EvaluateStresses(m: real, s: Section, yieldStrength: real, normalStress: Option<real>)
    requires normalStress == NormalStress(m, s)
    ensures normalStress.Some? ==> normalStress.value * (s.width * s.height * s.height) == 6.0 * m
    ensures SafetyFactor(yieldStrength, normalStress).Some? <==> s.width != 0.0 && s.height != 0.0 && m != 0.0
    ensures SafetyFactor(yieldStrength, normalStress).Some? ==>
              SafetyFactor(yieldStrength, normalStress).value * (6.0 * m) == yieldStrength * (s.width * s.height * s.height)
  {
    if normalStress.Some? {
      var d := s.width * s.height * s.height;
      MulNonzero(s.width, s.height);
      MulNonzero(s.width * s.height, s.height);
      DivMul(6.0 * m, d);
      var f := SafetyFactor(yieldStrength, normalStress);
      if m != 0.0 {
        assert normalStress.value != 0.0;
        var sigma := normalStress.value;
        assert f.value * sigma == yieldStrength;
        assert f.value * (6.0 * m) == f.value * sigma * d;
      } else {
        assert normalStress.value == 0.0;
      }
    }
  }

  /** For a positive bending stress, a safety factor below 1 means exactly
      that the stress exceeds the yield strength. */
  lemma SafetyBelowOneIffYielding(yieldStrength: real, stress: real)
    requires stress > 0.0
    ensures SafetyFactor(yieldStrength, Some(stress)).Some?
    ensures SafetyFactor(yieldStrength, Some(stress)).value < 1.0 <==> yieldStrength < stress
  {
    var f := SafetyFactor(yieldStrength, Some(stress)).value;
    assert f * stress == yieldStrength;
    if f < 1.0 {
      assert f * stress < 1.0 * stress;
    } else {
      assert f * stress >= 1.0 * stress;
    }
  }

  /** Non-negative peaks on a real section give non-negative stresses, and
      a positive bending peak with a positive yield strength a positive
      safety factor. */
  lemma StressesNonNegative(maxShearForce: real, maxBendingMoment: real, s: Section, yieldStrength: real)
    requires 0.0 <= maxShearForce && 0.0 <= maxBendingMoment
    requires 0.0 < s.width && 0.0 < s.height
    ensures var r := Evaluate(maxShearForce, maxBendingMoment, s, yieldStrength);
            r.maxNormalStress.Some? && 0.0 <= r.maxNormalStress.value &&
            r.maxShearStress.Some? && 0.0 <= r.maxShearStress.value &&
            (0.0 < maxBendingMoment && 0.0 < yieldStrength ==> r.safetyFactor.Some? && 0.0 < r.safetyFactor.value)
  {
    var d := s.width * s.height * s.height;
    MulPos(s.width, s.height);
    MulPos(s.width * s.height, s.height);
    assert 0.0 <= 6.0 * maxBendingMoment / d;
    assert 0.0 <= (1.5 * maxShearForce) / Area(s);
    if 0.0 < maxBendingMoment {
      assert 0.0 < 6.0 * maxBendingMoment / d;
    }
  }

  /** A 100 × 200 mm section carrying 500 N and 250000 N·mm: I = 66666666.67 mm⁴,
      bending stress 0.375 MPa, shear stress 0.0375 MPa. */
  lemma SectionScenario()
    ensures MomentOfInertia(Section(100.0, 200.0)) == 200000000.0 / 3.0
    ensures Evaluate(500.0, 250000.0, Section(100.0, 200.0), 250.0).maxNormalStress == Some(0.375)
    ensures Evaluate(500.0, 250000.0, Section(100.0, 200.0), 250.0).maxShearStress == Some(0.0375)
    ensures Evaluate(500.0, 250000.0, Section(100.0, 200.0), 250.0).safetyFactor == Some(2000.0 / 3.0)
  {
  }
}
