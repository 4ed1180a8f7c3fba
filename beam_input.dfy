/** The calculator's inputs: the beam and load configuration and the material. */
module BeamInput {

  datatype BeamKind = SimpleBeam | CantileverBeam

  datatype LoadKind = PointLoad | UniformLoad

  /** Everything the diagram sampler reads. Positions are in mm, the load in N.
      `beamLength` is used by cantilevers, the two supports by simple beams;
      `loadEnd` only matters for a uniform load. */
  datatype Config = Config(
    beam: BeamKind,
    load: LoadKind,
    beamLength: real,
    leftSupport: real,
    rightSupport: real,
    loadMagnitude: real,
    loadStart: real,
    loadEnd: real)

  /** The analysed span: support to support for a simple beam, the whole
      length for a cantilever (fixed end at 0). */
  function Span(c: Config): real
  {
    match c.beam
    case SimpleBeam => c.rightSupport - c.leftSupport
    case CantileverBeam => c.beamLength
  }

  function LoadLength(c: Config): real
  {
    c.loadEnd - c.loadStart
  }

  /** Load per unit length of a uniform load. */
  function Intensity(c: Config): real
    requires LoadLength(c) != 0.0
  {
    c.loadMagnitude / LoadLength(c)
  }

  /** The uniform load spread over its length adds back up to the magnitude. */
  lemma IntensityTimesLength(c: Config)
    requires LoadLength(c) != 0.0
    ensures Intensity(c) * LoadLength(c) == c.loadMagnitude
  {
  }

  /** The entries of the material table the user can pick from. */
  datatype Material = AstmA36 | AstmA992 | AstmA572Grade50 | Custom

  /** Yield strength in MPa: a catalogued steel grade, or the value the user
      typed in for a custom material. */
  function YieldStrength(m: Material, customYield: real): (r: real)
    ensures m == Custom ==> r == customYield
    ensures m != Custom ==> 250.0 <= r <= 345.0
  {
    match m
    case AstmA36 => 250.0
    case AstmA992 => 345.0
    case AstmA572Grade50 => 345.0
    case Custom => customYield
  }
}
