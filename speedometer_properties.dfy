/**
  Properties of the speedometer's speed computation: the unit table against the
  definitions of the units, the two displacement measures, the output formula,
  which samples an evaluation depends on, and worked examples.
*/
module SpeedometerProperties {
  import opened Wrappers
  import opened Vectors
  import opened Speedometer

  // ---------------------------------------------------------------------------
  // The unit table

  /** The table has exactly these four rows. */
  lemma UnitTableEntries()
    ensures LookupUnit(0) == Some(SpeedUnit("km/h", 3.6))
    ensures LookupUnit(1) == Some(SpeedUnit("mph", 2.23694))
    ensures LookupUnit(2) == Some(SpeedUnit("m/s", 1.0))
    ensures LookupUnit(3) == Some(SpeedUnit("f/s", 3.28084))
  {
  }

  /**
    How many metres per second one of a display unit is, from the definitions
    of the kilometre (1000 m), the hour (3600 s), the international mile
    (1609.344 m) and the international foot (0.3048 m).
  */
  function MetresPerSecondPer(name: string): (r: Option<real>)
    ensures r.Some? ==> r.value > 0.0
  {
    if name == "km/h" then Some(1000.0 / 3600.0)
    else if name == "mph" then Some(1609.344 / 3600.0)
    else if name == "m/s" then Some(1.0)
    else if name == "f/s" then Some(0.3048)
    else None
  }

  /**
    Every factor in the table converts metres per second into its unit: factor
    times the unit's size in metres per second is one, exactly for km/h and m/s
    and to within two parts in a million for mph and f/s.
  */
  lemma UnitFactorsMatchUnitDefinitions(index: int)
    requires LookupUnit(index).Some?
    ensures var unit := LookupUnit(index).value;
      && MetresPerSecondPer(unit.name).Some?
      && 0.999998 < unit.factor * MetresPerSecondPer(unit.name).value < 1.000002
    ensures index == 0 || index == 2 ==>
      LookupUnit(index).value.factor * MetresPerSecondPer(LookupUnit(index).value.name).value == 1.0
  {
  }

  // ---------------------------------------------------------------------------
  // Distance mode

  /** The scalar displacement does not depend on which sample came first. */
  lemma DistanceDisplacementSymmetric(current: real, past: real)
    ensures DistanceDisplacement(current, past) == DistanceDisplacement(past, current)
  {
  }

  /** The scalar displacement is zero exactly when the two samples are equal. */
  lemma DistanceDisplacementZero(current: real, past: real)
    ensures DistanceDisplacement(current, past) == 0.0 <==> current == past
  {
  }

  // ---------------------------------------------------------------------------
  // Matrix mode

  /** The matrix moved by `v`: its translation entries changed, all others kept. */
  function Shift(m: FloatMatrix, v: Vec3): (s: FloatMatrix)
    ensures Translation(s) == Add(Translation(m), v)
    ensures forall i :: 0 <= i < 12 || i == 15 ==> s[i] == m[i]
  {
    m[12 := m[12] + v.x][13 := m[13] + v.y][14 := m[14] + v.z]
  }

  /** The matrix displacement does not depend on which sample came first. */
  lemma MatrixDisplacementSymmetric(current: FloatMatrix, past: FloatMatrix)
    ensures MatrixDisplacement(current, past) == MatrixDisplacement(past, current)
  {
    LengthSubSymmetric(Translation(past), Translation(current));
  }

  /** The matrix displacement is zero exactly when the two translations are equal. */
  lemma MatrixDisplacementZero(current: FloatMatrix, past: FloatMatrix)
    ensures MatrixDisplacement(current, past) == 0.0 <==> Translation(current) == Translation(past)
  {
    LengthPositive(Sub(Translation(past), Translation(current)));
  }

  /** Moving both samples by the same vector leaves the matrix displacement unchanged. */
  lemma MatrixDisplacementShiftInvariant(current: FloatMatrix, past: FloatMatrix, v: Vec3)
    ensures MatrixDisplacement(Shift(current, v), Shift(past, v)) == MatrixDisplacement(current, past)
  {
    SubShiftInvariant(Translation(past), Translation(current), v);
  }

  /** The 3-4-5 right triangle: the vector (3, 4, 0) has length 5. */
  lemma LengthThreeFourFive()
    ensures Length(Vec3(3.0, 4.0, 0.0)) == 5.0
  {
    assert SqNorm(Vec3(3.0, 4.0, 0.0)) == 5.0 * 5.0;
    SqrtOfSquare(5.0);
  }

  /** Moving from (3, 4, 0) to the origin is a displacement of 5. */
  lemma MatrixDisplacementPythagorean(current: FloatMatrix, past: FloatMatrix)
    requires Translation(current) == Vec3(0.0, 0.0, 0.0)
    requires Translation(past) == Vec3(3.0, 4.0, 0.0)
    ensures MatrixDisplacement(current, past) == 5.0
  {
    assert Sub(Translation(past), Translation(current)) == Vec3(3.0, 4.0, 0.0);
    LengthThreeFourFive();
  }

  // ---------------------------------------------------------------------------
  // The output formula

  /** The speed in a unit of the table is the speed in metres per second times that unit's factor. */
  lemma SpeedInUnit(distance: real, workingUnits: real, framerate: real, unitIndex: int, factor: real)
    requires workingUnits != 0.0
    requires LookupUnit(unitIndex).Some? && LookupUnit(unitIndex).value.factor == factor
    ensures SpeedFromDisplacement(distance, workingUnits, framerate, unitIndex)
         == Ok(MetresPerSecond(distance, workingUnits, framerate) * factor)
  {
  }

  /** The four units give speeds in the ratios of their factors; m/s is the bare formula. */
  lemma UnitRatios(distance: real, workingUnits: real, framerate: real)
    requires workingUnits != 0.0
    ensures SpeedFromDisplacement(distance, workingUnits, framerate, 2) == Ok(distance / workingUnits * framerate)
    ensures SpeedFromDisplacement(distance, workingUnits, framerate, 1).value * 3.6
         == SpeedFromDisplacement(distance, workingUnits, framerate, 0).value * 2.23694
    ensures SpeedFromDisplacement(distance, workingUnits, framerate, 3).value * 3.6
         == SpeedFromDisplacement(distance, workingUnits, framerate, 0).value * 3.28084
  {
  }

  /**
    Multiplying by frames per second is dividing by seconds per frame: the
    speed is the displacement in metres over the frame's duration, in the unit.
  */
  lemma FrameDurationForm(distance: real, workingUnits: real, framerate: real, unitIndex: int)
    requires workingUnits != 0.0 && framerate != 0.0
    requires LookupUnit(unitIndex).Some?
    ensures var frameDuration := 1.0 / framerate;
      SpeedFromDisplacement(distance, workingUnits, framerate, unitIndex)
        == Ok(distance / workingUnits / frameDuration * LookupUnit(unitIndex).value.factor)
  {
    var metres := distance / workingUnits;
    var frameDuration := 1.0 / framerate;
    assert frameDuration * framerate == 1.0;
    assert (metres * framerate) * frameDuration == metres * (framerate * frameDuration);
    assert metres / frameDuration == metres * framerate == MetresPerSecond(distance, workingUnits, framerate);
    SpeedInUnit(distance, workingUnits, framerate, unitIndex, LookupUnit(unitIndex).value.factor);
  }

  /** With positive working units and a non-negative frame rate no speed is negative. */
  lemma SpeedNonNegative(node: NodeInputs, scene: Scene)
    requires node.workingUnits > 0.0 && node.framerate >= 0.0
    ensures Compute(node, scene).Ok? ==> Compute(node, scene).value >= 0.0
  {
  }

  // ---------------------------------------------------------------------------
  // What an evaluation reads

  /** Scenes that agree at the current frame and at the frame one before it. */
  ghost predicate AgreeOnLookback(s1: Scene, s2: Scene)
  {
    var t := s1.currentFrame;
    && s2.currentFrame == t
    && s1.matrixAt(t) == s2.matrixAt(t) && s1.matrixAt(t - 1.0) == s2.matrixAt(t - 1.0)
    && s1.distanceAt(t) == s2.distanceAt(t) && s1.distanceAt(t - 1.0) == s2.distanceAt(t - 1.0)
  }

  /**
    The method switch: an evaluation samples exactly when the node is active and
    method 0 has a driven matrix plug or method 1 a driven distance plug.
  */
  lemma SampledIffSelectedPlugDriven(node: NodeInputs)
    ensures Sampled(node) <==>
      node.activated
      && ((node.methodIndex == 0 && node.matrixConnected) || (node.methodIndex == 1 && node.distanceConnected))
  {
  }

  /** Whether the plug the method does not select is driven makes no difference. */
  lemma UnselectedPlugIgnored(node: NodeInputs, scene: Scene, connected: bool)
    ensures node.methodIndex == MatrixMethod ==>
      Compute(node.(distanceConnected := connected), scene) == Compute(node, scene)
    ensures node.methodIndex == DistanceMethod ==>
      Compute(node.(matrixConnected := connected), scene) == Compute(node, scene)
  {
  }

  /** A disabled node, an unknown method or an undriven plug reads no sample at all. */
  lemma ShortCircuitReadsNoSamples(node: NodeInputs, s1: Scene, s2: Scene)
    requires !Sampled(node)
    ensures Compute(node, s1) == Compute(node, s2)
    ensures Compute(node, s1) == Ok(0.0) || Compute(node, s1) == Err(SourceUnbound(node.methodIndex))
  {
  }

  /** An evaluation reads the scene only at the current frame and the frame one before it. */
  lemma SamplesOnlyCurrentAndPreviousFrame(node: NodeInputs, s1: Scene, s2: Scene)
    requires AgreeOnLookback(s1, s2)
    ensures Compute(node, s1) == Compute(node, s2)
  {
  }

  /** In distance mode the speed comes from the scalar at the current and the previous frame. */
  lemma DistanceModeSpeed(node: NodeInputs, scene: Scene)
    requires Sampled(node) && node.methodIndex == DistanceMethod
    ensures node.workingUnits != 0.0 && LookupUnit(node.unitIndex).Some? ==> Compute(node, scene).Ok?
    ensures var t := scene.currentFrame;
      var r := Compute(node, scene);
      r.Ok? ==>
        r.value * node.workingUnits
        == DistanceDisplacement(scene.distanceAt(t), scene.distanceAt(t - 1.0))
           * node.framerate * LookupUnit(node.unitIndex).value.factor
  {
  }

  /** In matrix mode the speed comes from the translations at the current and the previous frame. */
  lemma MatrixModeSpeed(node: NodeInputs, scene: Scene)
    requires Sampled(node) && node.methodIndex == MatrixMethod
    ensures node.workingUnits != 0.0 && LookupUnit(node.unitIndex).Some? ==> Compute(node, scene).Ok?
    ensures var t := scene.currentFrame;
      var r := Compute(node, scene);
      r.Ok? ==>
        r.value * node.workingUnits
        == MatrixDisplacement(scene.matrixAt(t), scene.matrixAt(t - 1.0))
           * node.framerate * LookupUnit(node.unitIndex).value.factor
  {
  }

  /** Scenes whose two samples are those of another scene, exchanged. */
  ghost predicate SwappedLookback(s1: Scene, s2: Scene)
  {
    var t := s1.currentFrame;
    && s2.currentFrame == t
    && s2.matrixAt(t) == s1.matrixAt(t - 1.0) && s2.matrixAt(t - 1.0) == s1.matrixAt(t)
    && s2.distanceAt(t) == s1.distanceAt(t - 1.0) && s2.distanceAt(t - 1.0) == s1.distanceAt(t)
  }

  /** Exchanging the current and the previous sample gives the same speed. */
  lemma SwappedSamplesSameSpeed(node: NodeInputs, s1: Scene, s2: Scene)
    requires SwappedLookback(s1, s2)
    ensures Compute(node, s1) == Compute(node, s2)
  {
    var t := s1.currentFrame;
    DistanceDisplacementSymmetric(s1.distanceAt(t), s1.distanceAt(t - 1.0));
    MatrixDisplacementSymmetric(s1.matrixAt(t), s1.matrixAt(t - 1.0));
  }

  /** Moving the driving transform by a constant vector gives the same speed. */
  lemma TranslatedSceneSameSpeed(node: NodeInputs, s1: Scene, s2: Scene, v: Vec3)
    requires s2.currentFrame == s1.currentFrame
    requires var t := s1.currentFrame;
      && s2.matrixAt(t) == Shift(s1.matrixAt(t), v)
      && s2.matrixAt(t - 1.0) == Shift(s1.matrixAt(t - 1.0), v)
      && s2.distanceAt(t) == s1.distanceAt(t) && s2.distanceAt(t - 1.0) == s1.distanceAt(t - 1.0)
    ensures Compute(node, s1) == Compute(node, s2)
  {
  }

  /**
    A scene where the input the method selects did not move between the
    previous and the current frame; the other input may do anything.
  */
  ghost predicate Stationary(node: NodeInputs, scene: Scene)
  {
    var t := scene.currentFrame;
    && (node.methodIndex == DistanceMethod ==> scene.distanceAt(t) == scene.distanceAt(t - 1.0))
    && (node.methodIndex == MatrixMethod ==>
          Translation(scene.matrixAt(t)) == Translation(scene.matrixAt(t - 1.0)))
  }

  /** No motion of the selected input gives speed zero, for every method and every unit. */
  lemma StationarySpeedZero(node: NodeInputs, scene: Scene)
    requires Stationary(node, scene)
    ensures Compute(node, scene).Ok? ==> Compute(node, scene).value == 0.0
  {
    var t := scene.currentFrame;
    if Sampled(node) {
      if node.methodIndex == DistanceMethod {
        DistanceDisplacementZero(scene.distanceAt(t), scene.distanceAt(t - 1.0));
        DistanceModeSpeed(node, scene);
      } else {
        MatrixDisplacementZero(scene.matrixAt(t), scene.matrixAt(t - 1.0));
        MatrixModeSpeed(node, scene);
      }
    }
  }

  // ---------------------------------------------------------------------------
  // Worked examples

  /** Distance mode, 10 at frame 5 and 4 at frame 4, one unit per metre, 24 frames per second. */
  lemma DistanceModeExample(scene: Scene)
    requires scene.currentFrame == 5.0
    requires scene.distanceAt(5.0) == 10.0 && scene.distanceAt(4.0) == 4.0
    ensures Compute(NodeInputs(true, DistanceMethod, 2, 24.0, 1.0, false, true), scene) == Ok(144.0)
    ensures Compute(NodeInputs(true, DistanceMethod, 0, 24.0, 1.0, false, true), scene) == Ok(518.4)
  {
    assert Displacement(NodeInputs(true, DistanceMethod, 2, 24.0, 1.0, false, true), scene) == 6.0;
    assert Displacement(NodeInputs(true, DistanceMethod, 0, 24.0, 1.0, false, true), scene) == 6.0;
    UnitTableEntries();
    SpeedInUnit(6.0, 1.0, 24.0, 2, 1.0);
    SpeedInUnit(6.0, 1.0, 24.0, 0, 3.6);
  }

  /** Matrix mode, moving from (3, 4, 0) to the origin in one frame at one frame per second. */
  lemma MatrixModeExample(scene: Scene)
    requires scene.currentFrame == 2.0
    requires Translation(scene.matrixAt(2.0)) == Vec3(0.0, 0.0, 0.0)
    requires Translation(scene.matrixAt(1.0)) == Vec3(3.0, 4.0, 0.0)
    ensures Compute(NodeInputs(true, MatrixMethod, 2, 1.0, 1.0, true, false), scene) == Ok(5.0)
  {
    var node := NodeInputs(true, MatrixMethod, 2, 1.0, 1.0, true, false);
    calc {
      Compute(node, scene);
    ==
      SpeedFromDisplacement(Displacement(node, scene), 1.0, 1.0, 2);
    == { MatrixDisplacementPythagorean(scene.matrixAt(2.0), scene.matrixAt(1.0)); }
      SpeedFromDisplacement(5.0, 1.0, 1.0, 2);
    == { UnitTableEntries(); SpeedInUnit(5.0, 1.0, 1.0, 2, 1.0); }
      Ok(5.0);
    }
  }
}
