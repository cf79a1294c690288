/**
 * The `FFTOcean_Buoyancy` component: its fields and the Unity messages that change them.
 *
 * The voxel grid is created lazily by the first `Update` that finds the height field ready,
 * discarded by `OnDisable`, and recreated afterwards. Each message is modelled as a step from
 * one component state to the next; an exception the C# code would throw ends the step with a
 * `Fault`, keeping whatever the message had already written.
 */
module Buoyancy {
  import opened Wrappers
  import opened Geometry
  import opened VoxelGrid
  import opened BuoyancyForce
  import Readback

  /** The exceptions the component's messages can raise, plus non-finite physics output. */
  datatype Fault =
    | NullReference      // a null `waterSource`, `voxels` or `receiverVoxels` is dereferenced
    | NegativeDimension  // `new Voxel[x, y, z]` with a negative count (`OverflowException`)
    | NonFinite          // a division by zero turns a force or the damping infinite or NaN

  /** The inspector settings, fixed while the component runs. */
  datatype Config = Config(hasWaterSource: bool, countX: int, countY: int, countZ: int,
                           linearIntensity: real, angularIntensity: real)

  /** The component's mutable state: `voxels` (flattened), `receiverVoxels`, `voxelSize`
      (`None` when a component is non-finite) and the object's `transform.rotation`. */
  datatype Component = Component(voxels: Option<seq<Readback.Voxel>>, receivers: Option<seq<Index3>>,
                                 voxelSize: Option<Vec3>, rotation: Quaternion)

  /** The state after one message: the new fields, and the exception it raised, if any. */
  datatype Tick = Tick(state: Component, fault: Option<Fault>)

  predicate NonNegative(cfg: Config) {
    cfg.countX >= 0 && cfg.countY >= 0 && cfg.countZ >= 0
  }

  function DimsOf(cfg: Config): Dims
    requires NonNegative(cfg)
  {
    Dims(cfg.countX, cfg.countY, cfg.countZ)
  }

  /** A freshly constructed component: no grid, no receiver list, zero voxel size. */
  function Initial(rotation: Quaternion): Component {
    Component(None, None, Some(Zero), rotation)
  }

  /** The invariant every reachable state keeps: a grid is always paired with the full
      receiver list of its dimensions; a receiver list is either that or empty (an aborted
      creation); and without a water source nothing is ever created. */
  predicate Wf(c: Component, cfg: Config) {
    && (c.voxels.Some? ==>
          && NonNegative(cfg)
          && c.receivers == Some(AllIndices(DimsOf(cfg)))
          && |c.voxels.value| == Count(DimsOf(cfg)))
    && (c.receivers.Some? ==>
          c.receivers.value == [] || (NonNegative(cfg) && c.receivers.value == AllIndices(DimsOf(cfg))))
    && (!cfg.hasWaterSource ==> c.voxels.None? && c.receivers.None?)
  }

  lemma InitialWf(rotation: Quaternion, cfg: Config)
    ensures Wf(Initial(rotation), cfg)
  {
  }

  /** The voxels a successful `CreateVoxels` produces: one per cell, in visiting order, each
      with a zero cached height and its first request pending. */
  predicate FreshGrid(voxels: seq<Readback.Voxel>, d: Dims, bounds: Bounds, cellSize: Option<Vec3>,
                      toLocal: Vec3 -> Vec3)
  {
    && |voxels| == Count(d)
    && forall k :: 0 <= k < |voxels| ==>
         cellSize.Some? && voxels[k] == CellVoxel(bounds, cellSize.value, toLocal, AllIndices(d)[k])
  }

  /** A grid is determined by its dimensions, bounds, voxel size and local transform:
      rebuilding with the same ones gives the same voxels at the same positions. */
  lemma FreshGridUnique(a: seq<Readback.Voxel>, b: seq<Readback.Voxel>, d: Dims, bounds: Bounds,
                        cellSize: Option<Vec3>, toLocal: Vec3 -> Vec3)
    requires FreshGrid(a, d, bounds, cellSize, toLocal) && FreshGrid(b, d, bounds, cellSize, toLocal)
    ensures a == b
  {
  }

  /** Every voxel of a fresh grid has a zero cached height and its first request pending. */
  lemma FreshGridPending(voxels: seq<Readback.Voxel>, d: Dims, bounds: Bounds, cellSize: Option<Vec3>,
                         toLocal: Vec3 -> Vec3)
    requires FreshGrid(voxels, d, bounds, cellSize, toLocal)
    ensures forall k :: 0 <= k < |voxels| ==>
      voxels[k].cachedHeight == 0.0 && voxels[k].request == Readback.Issue(Readback.Texel(0, 0))
  {
  }

  /** `CreateVoxels`: start a new receiver list, reset the rotation to the identity (it is not
      restored), compute `voxelSize` from the collider bounds, allocate the grid and fill it.
      A negative count makes the allocation throw after the first three steps. */
  method CreateVoxels(c: Component, cfg: Config, bounds: Bounds, toLocal: Vec3 -> Vec3)
    returns (t: Tick)
    ensures t.state.rotation == IdentityRotation
    ensures t.state.voxelSize == CellSize(bounds.size, cfg.countX, cfg.countY, cfg.countZ)
    ensures t.fault.Some? <==> !NonNegative(cfg)
    ensures t.fault.Some? ==>
      && t.fault == Some(NegativeDimension)
      && t.state.receivers == Some([]) && t.state.voxels == c.voxels
    ensures t.fault.None? ==>
      && t.state.receivers == Some(AllIndices(DimsOf(cfg)))
      && t.state.voxels.Some?
      && FreshGrid(t.state.voxels.value, DimsOf(cfg), bounds, t.state.voxelSize, toLocal)
  {
    var voxelSize := CellSize(bounds.size, cfg.countX, cfg.countY, cfg.countZ);
    var started := c.(receivers := Some([]), rotation := IdentityRotation, voxelSize := voxelSize);
    if !NonNegative(cfg) {
      return Tick(started, Some(NegativeDimension));
    }
    var d := DimsOf(cfg);
    var cellSize := if voxelSize.Some? then voxelSize.value else Zero;
    var voxels, receivers := BuildGrid(d, bounds, cellSize, toLocal);
    t := Tick(started.(voxels := Some(voxels), receivers := Some(receivers)), None);
  }

  /** The receiver loop of `Update`: every voxel named in the receiver list is polled once.
      Since the list names every cell exactly once, this is the same as polling each voxel. */
  method PollVoxels(voxels: seq<Readback.Voxel>, receivers: seq<Index3>, d: Dims,
                    toWorld: Vec3 -> Vec3, tile: real, halfToFloat: Readback.Half -> real)
    returns (polled: seq<Readback.Voxel>)
    requires receivers == AllIndices(d) && |voxels| == Count(d)
    ensures |polled| == |voxels|
    ensures forall k :: 0 <= k < |voxels| ==>
      polled[k] == Readback.Update(voxels[k], toWorld, tile, halfToFloat)
  {
    AllIndicesEnumerates(d);
    polled := voxels;
    for i := 0 to |receivers|
      invariant |polled| == |voxels|
      invariant forall k :: 0 <= k < i ==> polled[k] == Readback.Update(voxels[k], toWorld, tile, halfToFloat)
      invariant forall k :: i <= k < |voxels| ==> polled[k] == voxels[k]
    {
      var k := Flatten(d, receivers[i]);
      polled := polled[k := Readback.Update(polled[k], toWorld, tile, halfToFloat)];
    }
  }

  /** `Update`: create the grid if there is none and the height field is ready, then poll
      every receiver's voxel. `fieldReady` says whether `GetBuoyancyData()` is non-null;
      `bounds` and `toLocal` are what `CreateVoxels` would see, `toWorld` and `tile` what
      the voxels see. */
  method Update(c: Component, cfg: Config, fieldReady: bool, bounds: Bounds, toLocal: Vec3 -> Vec3,
                toWorld: Vec3 -> Vec3, tile: real, halfToFloat: Readback.Half -> real)
    returns (t: Tick)
    requires Wf(c, cfg)
    ensures Wf(t.state, cfg)
    ensures c.voxels.Some? ==>
      && t.fault.None?
      && t.state.receivers == c.receivers && t.state.voxelSize == c.voxelSize
      && t.state.rotation == c.rotation
      && t.state.voxels.Some? && |t.state.voxels.value| == |c.voxels.value|
      && forall k :: 0 <= k < |c.voxels.value| ==>
           t.state.voxels.value[k] == Readback.Update(c.voxels.value[k], toWorld, tile, halfToFloat)
    ensures c.voxels.None? && !cfg.hasWaterSource ==> t == Tick(c, Some(NullReference))
    ensures c.voxels.None? && cfg.hasWaterSource && !fieldReady ==>
      && t.state == c
      && (t.fault.Some? <==> c.receivers != Some([]))
      && (t.fault.Some? ==> t.fault == Some(NullReference))
    ensures c.voxels.None? && cfg.hasWaterSource && fieldReady ==>
      && t.state.rotation == IdentityRotation
      && t.state.voxelSize == CellSize(bounds.size, cfg.countX, cfg.countY, cfg.countZ)
      && (t.fault.None? <==> NonNegative(cfg))
      && (t.fault.Some? ==>
            && t.fault == Some(NegativeDimension)
            && t.state.receivers == Some([]) && t.state.voxels.None?)
      && (t.fault.None? ==>
            && t.state.voxels.Some?
            && FreshGrid(t.state.voxels.value, DimsOf(cfg), bounds, t.state.voxelSize, toLocal))
  {
    var state := c;
    if c.voxels.None? {
      if !cfg.hasWaterSource {
        return Tick(c, Some(NullReference));
      }
      if fieldReady {
        var created := CreateVoxels(c, cfg, bounds, toLocal);
        if created.fault.Some? {
          return created;
        }
        state := created.state;
      }
    }
    if state.receivers.None? {
      return Tick(state, Some(NullReference));
    }
    if state.voxels.None? {
      if state.receivers.value != [] {
        return Tick(state, Some(NullReference));
      }
      return Tick(state, None);
    }
    var polled := PollVoxels(state.voxels.value, state.receivers.value, DimsOf(cfg), toWorld, tile, halfToFloat);
    t := Tick(state.(voxels := Some(polled)), None);
  }

  /** `FixedUpdate`: apply one buoyancy push per voxel and set the damping, from the current
      collider `bounds`, the rigidbody's `mass` and the physics `gravity`. */
  method FixedUpdate(c: Component, cfg: Config, mass: real, bounds: Bounds, toWorld: Vec3 -> Vec3,
                     gravity: Vec3)
    returns (r: Result<Step, Fault>)
    ensures c.voxels.None? ==> r == Failure(NullReference)
    ensures c.voxels.Some? && c.voxelSize.None? ==> r == Failure(NonFinite)
    ensures r.Failure? ==> r.error == NullReference || r.error == NonFinite
    ensures c.voxels.Some? && c.voxelSize.Some? ==>
      var spec := StepSpec(c.voxels.value, toWorld, gravity, mass, bounds.Volume(), c.voxelSize.value.y,
                           cfg.linearIntensity, cfg.angularIntensity);
      && (r.Success? <==> spec.Some?)
      && (r.Success? ==> spec == Some(r.value))
  {
    if c.voxels.None? {
      return Failure(NullReference);
    }
    if c.voxelSize.None? {
      return Failure(NonFinite);
    }
    var step := FixedStep(c.voxels.value, toWorld, gravity, mass, bounds.Volume(), c.voxelSize.value.y,
                          cfg.linearIntensity, cfg.angularIntensity);
    if step.None? {
      return Failure(NonFinite);
    }
    r := Success(step.value);
  }

  /** `OnDisable`: drop the grid, and with it every cached height and pending request. The
      receiver list, voxel size and rotation stay as they are. */
  function OnDisable(c: Component): (r: Component)
    ensures r.voxels.None?
    ensures r.receivers == c.receivers && r.voxelSize == c.voxelSize && r.rotation == c.rotation
  {
    c.(voxels := None)
  }

  lemma OnDisablePreservesWf(c: Component, cfg: Config)
    requires Wf(c, cfg)
    ensures Wf(OnDisable(c), cfg)
  {
  }
}
