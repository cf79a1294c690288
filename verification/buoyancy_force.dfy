/**
 * The physics step of `FFTOcean_Buoyancy.FixedUpdate`: for each voxel, how deep it sits below
 * the cached water height, the upward force that depth produces, and how the submerged
 * fraction of the body blends the rigidbody's damping between its in-air value 2 and the
 * configured drag intensities.
 *
 * `float` is modelled as `real`; a division by zero, which yields an infinity or NaN in
 * C#, makes the whole step `None` (non-finite).
 */
module BuoyancyForce {
  import opened Numerics
  import opened Geometry
  import opened Wrappers
  import opened Readback

  /** The damping the rigidbody gets when no voxel is submerged. */
  const AirDamping: real := 2.0

  /** `depth = waterLevel - worldPos.y + voxelHeight`: how far the water stands above the
      point one whole voxel height below a voxel centre at height `worldY`. That point lies
      half a voxel below the voxel's bottom face, since positions are cell centres. */
  function Depth(waterLevel: real, worldY: real, voxelHeight: real): (depth: real)
    ensures depth > 0.0 <==> worldY - voxelHeight < waterLevel
  {
    waterLevel - worldY + voxelHeight
  }

  /** `Mathf.Clamp(depth / voxelHeight, 0, 1)`. With `voxelHeight == 0` the quotient is an
      infinity, which the clamp turns into 0 or 1, or NaN when `depth` is also 0 (`None`). */
  function SubmergedFactor(depth: real, voxelHeight: real): (r: Option<real>)
    ensures r.None? <==> voxelHeight == 0.0 && depth == 0.0
    ensures r.Some? ==> 0.0 <= r.value <= 1.0
    ensures voxelHeight > 0.0 ==> r.Some? && (r.value == 0.0 <==> depth <= 0.0)
    ensures voxelHeight > 0.0 ==> r.Some? && (r.value == 1.0 <==> depth >= voxelHeight)
    ensures voxelHeight > 0.0 && 0.0 <= depth <= voxelHeight ==> r == Some(depth / voxelHeight)
  {
    if voxelHeight != 0.0 then
      var q := depth / voxelHeight;
      QuotientThresholds(depth, voxelHeight);
      Some(Clamp(q, 0.0, 1.0))
    else if depth > 0.0 then Some(1.0)
    else if depth < 0.0 then Some(0.0)
    else None
  }

  lemma QuotientThresholds(depth: real, voxelHeight: real)
    requires voxelHeight != 0.0
    ensures voxelHeight > 0.0 ==> (depth / voxelHeight <= 0.0 <==> depth <= 0.0)
    ensures voxelHeight > 0.0 ==> (depth / voxelHeight >= 1.0 <==> depth >= voxelHeight)
  {
    var q := depth / voxelHeight;
    assert q * voxelHeight == depth;
    if voxelHeight > 0.0 {
      if q >= 1.0 {
        assert q * voxelHeight >= 1.0 * voxelHeight;
      }
      if depth >= voxelHeight {
        assert q >= 1.0;
      }
    }
  }

  /** A voxel that sits higher is at most as submerged: for a fixed water level and a
      positive voxel height, the submerged factor does not increase with the world height. */
  lemma SubmergedFactorFallsWithHeight(waterLevel: real, worldY: real, worldY': real, voxelHeight: real)
    requires voxelHeight > 0.0 && worldY <= worldY'
    ensures SubmergedFactor(Depth(waterLevel, worldY', voxelHeight), voxelHeight).value
         <= SubmergedFactor(Depth(waterLevel, worldY, voxelHeight), voxelHeight).value
  {
    var depth, depth' := Depth(waterLevel, worldY', voxelHeight), Depth(waterLevel, worldY, voxelHeight);
    assert depth / voxelHeight <= depth' / voxelHeight by {
      assert (depth' - depth) / voxelHeight >= 0.0;
    }
  }

  /** Because `depth` adds a whole voxel height to a centre height, a voxel counts as fully
      submerged as soon as the water reaches its centre, and is pushed while its bottom face
      is still up to half a voxel above the water. */
  lemma CentreHeightThresholds(waterLevel: real, worldY: real, voxelHeight: real)
    requires voxelHeight > 0.0
    ensures SubmergedFactor(Depth(waterLevel, worldY, voxelHeight), voxelHeight) == Some(1.0)
      <==> worldY <= waterLevel
    ensures worldY - voxelHeight < waterLevel <= worldY - voxelHeight / 2.0 ==>
      Displacement(Depth(waterLevel, worldY, voxelHeight)) > 0.0
  {
  }

  /** `Mathf.Max(0, depth)`: the depth where it is positive, 0 where `depth <= 0`. */
  function Displacement(depth: real): (r: real)
    ensures r >= 0.0
    ensures r == 0.0 <==> depth <= 0.0
    ensures depth > 0.0 ==> r == depth
  {
    Max(0.0, depth)
  }

  /** `UnitForce = (1 - mass / boundsVolume) / voxelCount`: each voxel's share of the net
      lift per unit depth. Non-finite when the volume or the voxel count is zero. */
  function UnitForce(mass: real, volume: real, count: nat): (r: Option<real>)
    ensures r.Some? <==> volume != 0.0 && count > 0
    ensures r.Some? ==> r.value * count as real * volume == volume - mass
    ensures r.Some? && volume > 0.0 ==> (r.value > 0.0 <==> mass < volume)
  {
    if volume != 0.0 && count > 0 then
      var density := mass / volume;
      var u := (1.0 - density) / count as real;
      DensityBelowOne(mass, volume);
      assert u * count as real == 1.0 - density;
      Some(u)
    else
      None
  }

  lemma DensityBelowOne(mass: real, volume: real)
    requires volume != 0.0
    ensures (1.0 - mass / volume) * volume == volume - mass
    ensures volume > 0.0 ==> (mass / volume < 1.0 <==> mass < volume)
  {
    var density := mass / volume;
    assert density * volume == mass;
    if volume > 0.0 && density < 1.0 {
      assert density * volume < 1.0 * volume;
    }
  }

  /** `-Physics.gravity * displacement * UnitForce`. */
  function Force(gravity: Vec3, displacement: real, unit: real): (f: Vec3)
    ensures displacement == 0.0 ==> f == Zero
  {
    gravity.Negate().Times(displacement).Times(unit)
  }

  /** A body lighter than water is pushed against gravity: with `unit > 0` each component
      of the force has the opposite sign to gravity's, and is zero exactly where gravity's
      is zero or `depth <= 0`. */
  lemma ForceOpposesGravity(gravity: Vec3, depth: real, unit: real)
    requires unit > 0.0
    ensures var f := Force(gravity, Displacement(depth), unit);
      && f.x * gravity.x <= 0.0 && f.y * gravity.y <= 0.0 && f.z * gravity.z <= 0.0
      && (f.y == 0.0 <==> gravity.y == 0.0 || depth <= 0.0)
  {
    var d := Displacement(depth);
    var c := d * unit;
    assert c >= 0.0;
    var f := Force(gravity, d, unit);
    assert f.x == -(gravity.x * c) && f.y == -(gravity.y * c) && f.z == -(gravity.z * c);
    assert f.x * gravity.x == -(gravity.x * gravity.x * c);
    assert f.y * gravity.y == -(gravity.y * gravity.y * c);
    assert f.z * gravity.z == -(gravity.z * gravity.z * c);
    assert c == 0.0 <==> depth <= 0.0;
  }

  /** The force is proportional to the displacement: twice the water column, twice the force. */
  lemma ForceLinear(gravity: Vec3, d: real, d': real, unit: real)
    ensures Force(gravity, d + d', unit) == Force(gravity, d, unit).Plus(Force(gravity, d', unit))
  {
  }

  /** One `AddForceAtPosition(force, position)` call. */
  datatype Push = Push(force: Vec3, at: Vec3)

  /** What one `FixedUpdate` hands to the rigidbody. */
  datatype Step = Step(pushes: seq<Push>, linearDamping: real, angularDamping: real)

  /** The depth of a voxel under the transform `toWorld`. */
  function VoxelDepth(v: Voxel, toWorld: Vec3 -> Vec3, voxelHeight: real): real {
    Depth(GetWaterHeight(v), toWorld(v.position).y, voxelHeight)
  }

  /** The summed submerged factors of `voxels`, `None` once any of them is NaN. */
  function SubmergedSum(voxels: seq<Voxel>, toWorld: Vec3 -> Vec3, voxelHeight: real): Option<real>
    decreases |voxels|
  {
    if voxels == [] then Some(0.0)
    else
      var last := voxels[|voxels| - 1];
      var f := SubmergedFactor(VoxelDepth(last, toWorld, voxelHeight), voxelHeight);
      match SubmergedSum(voxels[..|voxels| - 1], toWorld, voxelHeight)
      case None => None
      case Some(s) => if f.None? then None else Some(s + f.value)
  }

  /** The sum of `n` factors, each in [0, 1], lies in [0, n]. */
  lemma {:induction false} SubmergedSumBounds(voxels: seq<Voxel>, toWorld: Vec3 -> Vec3, voxelHeight: real)
    ensures SubmergedSum(voxels, toWorld, voxelHeight).Some? ==>
      0.0 <= SubmergedSum(voxels, toWorld, voxelHeight).value <= |voxels| as real
    decreases |voxels|
  {
    if voxels != [] {
      SubmergedSumBounds(voxels[..|voxels| - 1], toWorld, voxelHeight);
    }
  }

  /** A strictly positive voxel height never yields NaN; every voxel at `depth >= voxelHeight`
      (water at or above its centre) makes the sum equal to the voxel count, and every voxel at
      `depth <= 0` makes it 0. */
  lemma {:induction false} SubmergedSumExtremes(voxels: seq<Voxel>, toWorld: Vec3 -> Vec3, voxelHeight: real)
    requires voxelHeight > 0.0
    ensures SubmergedSum(voxels, toWorld, voxelHeight).Some?
    ensures (forall k :: 0 <= k < |voxels| ==> VoxelDepth(voxels[k], toWorld, voxelHeight) >= voxelHeight) ==>
      SubmergedSum(voxels, toWorld, voxelHeight).value == |voxels| as real
    ensures (forall k :: 0 <= k < |voxels| ==> VoxelDepth(voxels[k], toWorld, voxelHeight) <= 0.0) ==>
      SubmergedSum(voxels, toWorld, voxelHeight).value == 0.0
    decreases |voxels|
  {
    if voxels != [] {
      var init := voxels[..|voxels| - 1];
      assert forall k :: 0 <= k < |init| ==> init[k] == voxels[k];
      SubmergedSumExtremes(init, toWorld, voxelHeight);
    }
  }

  /** The reference `FixedUpdate` step: one push per voxel, in visiting order, at the voxel's
      world position; then the average submerged factor blends the damping. */
  function StepSpec(voxels: seq<Voxel>, toWorld: Vec3 -> Vec3, gravity: Vec3, mass: real,
                    volume: real, voxelHeight: real, linearIntensity: real, angularIntensity: real): Option<Step>
  {
    var unit := UnitForce(mass, volume, |voxels|);
    var sum := SubmergedSum(voxels, toWorld, voxelHeight);
    if unit.None? || sum.None? then None
    else
      var pushes := seq(|voxels|, k requires 0 <= k < |voxels| =>
        Push(Force(gravity, Displacement(VoxelDepth(voxels[k], toWorld, voxelHeight)), unit.value),
             toWorld(voxels[k].position)));
      var submerged := sum.value / |voxels| as real;
      Some(Step(pushes, Lerp(AirDamping, linearIntensity, submerged), Lerp(AirDamping, angularIntensity, submerged)))
  }

  /** The body of `FixedUpdate`: one pass over the voxels accumulating the submerged factors
      and issuing the pushes, then the damping. `None` when some output is non-finite: no
      voxels, a zero-volume bounding box, or a NaN submerged factor. */
  method FixedStep(voxels: seq<Voxel>, toWorld: Vec3 -> Vec3, gravity: Vec3, mass: real,
                   volume: real, voxelHeight: real, linearIntensity: real, angularIntensity: real)
    returns (r: Option<Step>)
    ensures r == StepSpec(voxels, toWorld, gravity, mass, volume, voxelHeight, linearIntensity, angularIntensity)
    ensures r.None? <==>
      || |voxels| == 0 || volume == 0.0
      || SubmergedSum(voxels, toWorld, voxelHeight).None?
    ensures r.Some? ==>
      && |r.value.pushes| == |voxels|
      && (forall k :: 0 <= k < |voxels| ==> r.value.pushes[k].at == toWorld(voxels[k].position))
    ensures r.Some? ==>
      && Between(r.value.linearDamping, AirDamping, linearIntensity)
      && Between(r.value.angularDamping, AirDamping, angularIntensity)
  {
    var unit := UnitForce(mass, volume, |voxels|);
    var submergedVolume := Some(0.0);
    var pushes := [];
    var k := 0;
    while k < |voxels|
      invariant k <= |voxels|
      invariant submergedVolume == SubmergedSum(voxels[..k], toWorld, voxelHeight)
      invariant unit.Some? ==> |pushes| == k && forall j :: 0 <= j < k ==>
        pushes[j] == Push(Force(gravity, Displacement(VoxelDepth(voxels[j], toWorld, voxelHeight)), unit.value),
                          toWorld(voxels[j].position))
    {
      var worldPos := toWorld(voxels[k].position);
      var depth := Depth(GetWaterHeight(voxels[k]), worldPos.y, voxelHeight);
      var factor := SubmergedFactor(depth, voxelHeight);
      assert voxels[..k + 1][..k] == voxels[..k];
      submergedVolume := if submergedVolume.None? || factor.None? then None
                         else Some(submergedVolume.value + factor.value);
      if unit.Some? {
        pushes := pushes + [Push(Force(gravity, Displacement(depth), unit.value), worldPos)];
      }
      k := k + 1;
    }
    assert voxels[..k] == voxels;
    if unit.None? || submergedVolume.None? {
      return None;
    }
    SubmergedSumBounds(voxels, toWorld, voxelHeight);
    assert pushes == seq(|voxels|, j requires 0 <= j < |voxels| =>
      Push(Force(gravity, Displacement(VoxelDepth(voxels[j], toWorld, voxelHeight)), unit.value),
           toWorld(voxels[j].position)));
    var submerged := submergedVolume.value / |voxels| as real;
    AverageInUnit(submergedVolume.value, |voxels|);
    r := Some(Step(pushes, Lerp(AirDamping, linearIntensity, submerged), Lerp(AirDamping, angularIntensity, submerged)));
  }

  predicate Between(v: real, a: real, b: real) {
    (a <= b && a <= v <= b) || (b <= a && b <= v <= a)
  }

  lemma AverageInUnit(sum: real, n: nat)
    requires n > 0 && 0.0 <= sum <= n as real
    ensures 0.0 <= sum / n as real <= 1.0
  {
  }

  /** A body whose every voxel has `depth <= 0` (the water no higher than one voxel height
      below each centre) feels no buoyancy and gets the in-air damping on both
      axes. */
  lemma DryBody(voxels: seq<Voxel>, toWorld: Vec3 -> Vec3, gravity: Vec3, mass: real, volume: real,
                voxelHeight: real, linearIntensity: real, angularIntensity: real)
    requires |voxels| > 0 && volume != 0.0 && voxelHeight > 0.0
    requires forall k :: 0 <= k < |voxels| ==> VoxelDepth(voxels[k], toWorld, voxelHeight) <= 0.0
    ensures var r := StepSpec(voxels, toWorld, gravity, mass, volume, voxelHeight, linearIntensity, angularIntensity);
      && r.Some?
      && (forall k :: 0 <= k < |voxels| ==> r.value.pushes[k].force == Zero)
      && r.value.linearDamping == AirDamping && r.value.angularDamping == AirDamping
  {
    SubmergedSumExtremes(voxels, toWorld, voxelHeight);
  }

  /** A body whose every voxel has `depth >= voxelHeight` (the water at or above each centre)
      gets exactly the configured drag intensities. */
  lemma SubmergedBody(voxels: seq<Voxel>, toWorld: Vec3 -> Vec3, gravity: Vec3, mass: real, volume: real,
                      voxelHeight: real, linearIntensity: real, angularIntensity: real)
    requires |voxels| > 0 && volume != 0.0 && voxelHeight > 0.0
    requires forall k :: 0 <= k < |voxels| ==> VoxelDepth(voxels[k], toWorld, voxelHeight) >= voxelHeight
    ensures var r := StepSpec(voxels, toWorld, gravity, mass, volume, voxelHeight, linearIntensity, angularIntensity);
      && r.Some?
      && r.value.linearDamping == linearIntensity && r.value.angularDamping == angularIntensity
  {
    SubmergedSumExtremes(voxels, toWorld, voxelHeight);
    assert |voxels| as real / |voxels| as real == 1.0;
  }
}
