/**
  The speed computation of the `speedometer` dependency-graph node.

  Each evaluation of the `speed` output reads the node's inputs, samples the
  driving plug (a transform matrix or a scalar distance) at the current frame
  and at the frame before it, turns the displacement between the two samples
  into metres per second and converts that into the selected display unit.

  The host's sampling in a time context, the current-time query and the
  connection query are inputs here: a `Scene` carries the current frame and
  the value of each plug as a function of the frame, and `NodeInputs` says
  which plugs have an upstream source. The single `setDouble` on the output
  handle is the function's result.
*/
module Speedometer {
  import opened Wrappers
  import opened Vectors

  /** One row of the unit table: its display name and its factor from metres per second. */
  datatype SpeedUnit = SpeedUnit(name: string, factor: real)

  /** The node's unit table, keyed by the value of the `unit` enum attribute. */
  const SpeedUnits: map<int, SpeedUnit> := map[
    0 := SpeedUnit("km/h", 3.6),
    1 := SpeedUnit("mph", 2.23694),
    2 := SpeedUnit("m/s", 1.0),
    3 := SpeedUnit("f/s", 3.28084)
  ]

  /** Values of the `method` enum attribute. */
  const MatrixMethod: int := 0
  const DistanceMethod: int := 1

  /** A 4x4 matrix as the flat list of its sixteen entries, row by row. */
  type FloatMatrix = m: seq<real> | |m| == 16 witness seq(16, i => 0.0)

  /** What makes an evaluation fail instead of writing a value. */
  datatype ComputeError =
    | SourceUnbound(methodIndex: int)  // neither branch of the method switch assigned the source name
    | ZeroDivision                // the displacement was divided by a zero `working_units`
    | UnknownUnit(index: int)     // the unit index is not a key of the unit table

  /** The attribute values one evaluation reads, and which input plugs are driven. */
  datatype NodeInputs = NodeInputs(
    activated: bool,
    methodIndex: int,
    unitIndex: int,
    framerate: real,
    workingUnits: real,
    matrixConnected: bool,
    distanceConnected: bool)

  /** The host's time: the current frame and each input plug's value at any frame. */
  datatype Scene = Scene(
    currentFrame: real,
    matrixAt: real -> FloatMatrix,
    distanceAt: real -> real)

  /** The unit-table lookup; a missing key is `None`. */
  function LookupUnit(index: int): (u: Option<SpeedUnit>)
    ensures u.Some? <==> 0 <= index <= 3
    ensures u.Some? ==> u.value.factor > 0.0
  {
    if index in SpeedUnits then Some(SpeedUnits[index]) else None
  }

  /** Whether the plug the method selects has an upstream source. */
  predicate SelectedSourceConnected(node: NodeInputs)
  {
    if node.methodIndex == MatrixMethod then node.matrixConnected else node.distanceConnected
  }

  /** The method selects one of the two input plugs. */
  predicate KnownMethod(node: NodeInputs)
  {
    node.methodIndex == MatrixMethod || node.methodIndex == DistanceMethod
  }

  /** The evaluation gets past both short-circuits and samples the selected plug. */
  predicate Sampled(node: NodeInputs)
  {
    node.activated && KnownMethod(node) && SelectedSourceConnected(node)
  }

  /** Distance mode: the size of the change of the scalar between the two samples. */
  function DistanceDisplacement(current: real, past: real): (d: real)
    ensures d >= 0.0
    ensures d == current - past || d == past - current
  {
    var distance := current - past;
    if distance < 0.0 then distance * -1.0 else distance
  }

  /** The translation of a flat 4x4 matrix: the three entries before the last one. */
  function Translation(m: FloatMatrix): (t: Vec3)
    ensures t == Vec3(m[12], m[13], m[14])
  {
    var row := m[|m| - 4 .. |m| - 1];
    Vec3(row[0], row[1], row[2])
  }

  /** Matrix mode: the Euclidean distance between the two translations. */
  ghost function MatrixDisplacement(current: FloatMatrix, past: FloatMatrix): (d: real)
    ensures d >= 0.0
    ensures var delta := Sub(Translation(past), Translation(current));
      HasRoot(SqNorm(delta)) ==> d * d == SqNorm(delta)
  {
    Length(Sub(Translation(past), Translation(current)))
  }

  /**
    The displacement per frame in metres, times frames per second: metres per
    second. `workingUnits` is how many of the scene's linear units make a metre.
  */
  function MetresPerSecond(distance: real, workingUnits: real, framerate: real): (v: real)
    requires workingUnits != 0.0
    ensures v * workingUnits == distance * framerate
  {
    distance / workingUnits * framerate
  }

  /**
    The final formula: the displacement over the working units, times the frame
    rate and the unit factor. The division comes first, so a zero divisor fails
    before the unit is looked up.
  */
  function SpeedFromDisplacement(distance: real, workingUnits: real, framerate: real, unitIndex: int)
    : (r: Result<real, ComputeError>)
    ensures workingUnits == 0.0 ==> r == Err(ZeroDivision)
    ensures workingUnits != 0.0 && LookupUnit(unitIndex).None? ==> r == Err(UnknownUnit(unitIndex))
    ensures r.Ok? <==> workingUnits != 0.0 && LookupUnit(unitIndex).Some?
    ensures r.Ok? ==> r.value * workingUnits == distance * framerate * LookupUnit(unitIndex).value.factor
  {
    if workingUnits == 0.0 then
      Err(ZeroDivision)
    else
      match LookupUnit(unitIndex)
      case None => Err(UnknownUnit(unitIndex))
      case Some(unit) => Ok(MetresPerSecond(distance, workingUnits, framerate) * unit.factor)
  }

  /** The displacement the selected method measures between the current and the previous frame. */
  ghost function Displacement(node: NodeInputs, scene: Scene): (d: real)
    ensures d >= 0.0
    ensures var t := scene.currentFrame;
      node.methodIndex == DistanceMethod ==>
        d == scene.distanceAt(t) - scene.distanceAt(t - 1.0) || d == scene.distanceAt(t - 1.0) - scene.distanceAt(t)
    ensures var t := scene.currentFrame;
      var delta := Sub(Translation(scene.matrixAt(t - 1.0)), Translation(scene.matrixAt(t)));
      node.methodIndex != DistanceMethod && HasRoot(SqNorm(delta)) ==> d * d == SqNorm(delta)
  {
    var current := scene.currentFrame;
    var past := current - 1.0;
    if node.methodIndex == DistanceMethod then
      DistanceDisplacement(scene.distanceAt(current), scene.distanceAt(past))
    else
      MatrixDisplacement(scene.matrixAt(current), scene.matrixAt(past))
  }

  /** One evaluation of the `speed` output. */
  ghost function Compute(node: NodeInputs, scene: Scene): (r: Result<real, ComputeError>)
    ensures !node.activated ==> r == Ok(0.0)
    ensures node.activated && !KnownMethod(node) ==> r == Err(SourceUnbound(node.methodIndex))
    ensures node.activated && KnownMethod(node) && !SelectedSourceConnected(node) ==> r == Ok(0.0)
    ensures r == Err(ZeroDivision) <==> Sampled(node) && node.workingUnits == 0.0
    ensures r == Err(UnknownUnit(node.unitIndex)) <==>
              Sampled(node) && node.workingUnits != 0.0 && LookupUnit(node.unitIndex).None?
    ensures r.Ok? && r.value != 0.0 ==> Sampled(node)
    ensures Sampled(node) && node.workingUnits != 0.0 && LookupUnit(node.unitIndex).Some? ==> r.Ok?
  {
    if !node.activated then
      Ok(0.0)
    else if !KnownMethod(node) then
      Err(SourceUnbound(node.methodIndex))
    else if !SelectedSourceConnected(node) then
      Ok(0.0)
    else
      SpeedFromDisplacement(Displacement(node, scene), node.workingUnits, node.framerate, node.unitIndex)
  }
}
