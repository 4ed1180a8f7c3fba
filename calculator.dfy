/** The whole calculation: sample the diagram of the configuration, then
    evaluate the section against the chosen material with the two peaks. */
module Calculator {
  import opened Wrappers
  import opened BeamInput
  import opened Sampler
  import opened SectionCheck

  datatype Report = Report(diagram: Diagram, results: AnalysisResult)

  method CalculateResults(c: Config, s: Section, m: Material, customYield: real)
    returns (r: Result<Report, SampleError>)
    ensures Span(c) == 0.0 ==> r == Failure(NonTerminatingLoop)
    ensures Span(c) > 0.0 && !Samplable(c) ==> r == Failure(InvalidLoadGeometry)
    ensures Samplable(c) ==> r.Success? && IsDiagramOf(c, r.value.diagram)
    ensures Span(c) < 0.0 ==>
              r.Success? && r.value.diagram == Diagram([], [], 0.0, 0.0) && r.value.results.safetyFactor == None
    ensures r.Success? ==>
              r.value.results == Evaluate(r.value.diagram.maxShearForce, r.value.diagram.maxBendingMoment,
                                          s, YieldStrength(m, customYield))
    ensures r.Success? && 0.0 < s.width && 0.0 < s.height ==>
              r.value.results.maxNormalStress.Some? && 0.0 <= r.value.results.maxNormalStress.value &&
              r.value.results.maxShearStress.Some? && 0.0 <= r.value.results.maxShearStress.value
  {
    var sampled := SampleDiagram(c);
    if sampled.Failure? {
      return Failure(sampled.error);
    }
    var d := sampled.value;
    var results := Evaluate(d.maxShearForce, d.maxBendingMoment, s, YieldStrength(m, customYield));
    if 0.0 < s.width && 0.0 < s.height {
      StressesNonNegative(d.maxShearForce, d.maxBendingMoment, s, YieldStrength(m, customYield));
    }
    return Success(Report(d, results));
  }
}
