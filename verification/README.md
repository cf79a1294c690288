# FFT ocean: water mesh, spectrum packing and voxel buoyancy

This project models the sequential C# core of a Unity FFT ocean. Two scripts are covered.

- `FFTOcean_Script` builds the water-surface mesh, packs the eight JONSWAP spectrum parameter
  sets for the compute shader, and sizes the compute dispatch.
- `FFTOcean_Buoyancy` splits a rigidbody's collider bounds into a grid of voxels. Each voxel
  polls an asynchronous one-texel GPU readback of the ocean height field. Every physics step
  turns the cached heights into buoyancy pushes and a damping blend.

Modules, one per concept of the source:

| module | file | models |
|---|---|---|
| `Wrappers` | `wrappers.dfy` | `Option` and `Result` |
| `Numerics` | `numerics.dfy` | C# `int` wrap-around and truncating division; Unity's `Mathf.Clamp`, `Clamp01`, `Max`, `Lerp`, `FloorToInt`, `CeilToInt`; `math.frac` |
| `Geometry` | `geometry.dfy` | `Vector3`, `Quaternion` and `Bounds` |
| `WaterMesh` | `water_mesh.dfy` | `CreateWaterSurface`: lattice size, vertices, UVs, tangents and the index buffer |
| `Spectrum` | `spectrum.dfy` | `FillSpectrumStruct` and `SetSpectrumBuffers` |
| `Dispatch` | `dispatch.dfy` | the thread-group count set in `OnEnable` |
| `Readback` | `readback.dfy` | the `Voxel` struct: constructor, `GetWaterHeight`, `Update`, with the readback request as a value |
| `VoxelGrid` | `voxel_grid.dfy` | the cell lattice and the three nested loops of `CreateVoxels` |
| `BuoyancyForce` | `buoyancy_force.dfy` | the physics arithmetic of `FixedUpdate` |
| `Buoyancy` | `buoyancy.dfy` | the component's fields and its `CreateVoxels`, `Update`, `FixedUpdate` and `OnDisable` messages |

Modelling conventions:

- `float` is modelled as `real`, so single-precision rounding is not modelled.
- A division by zero makes an infinity or NaN in C#. The model shows this explicitly:
  - NaN in a mesh coordinate is the `Coord.NaN` value;
  - a grid cell size with a zero count is `None`;
  - a physics step that would produce an infinity or NaN is `NonFinite`.
- `int` arithmetic in `CreateWaterSurface` wraps at 32 bits (`Numerics.Wrap32`), and `/` rounds toward zero (`Numerics.TruncDiv`).
- A C# exception in a Unity message ends that message. The model returns the state as it
  stood at the throw, together with a `Fault`.
- Several things the code calls but does not define are passed in as parameters:
  - `Transform.TransformPoint` and `InverseTransformPoint` become `toWorld` and `toLocal`;
  - `Mathf.HalfToFloat` becomes `halfToFloat`;
  - the two JONSWAP fits become `Fits`;
  - `Physics.gravity` and `Rigidbody.mass` become `gravity` and `mass`;
  - whether `GetBuoyancyData()` is non-null becomes `fieldReady`.
- A readback request is a plain value `Request(texel, done, hasError, data)`. A run of frames
  says when the GPU completes each request (`Readback.Run`).
- The `Voxel[,,]` array is one sequence in the loops' `x`-outer, `z`-inner order. Under the
  component invariant `Buoyancy.Wf`, `receiverVoxels` always lists every cell of the grid
  exactly once.

Where the code does something other than what it evidently intends, the model follows the code:

- **Failed readback.** One would expect the next query to be scheduled after a failure.
  In the code, `Voxel.Update` returns early and never replaces the failed request, so the voxel
  keeps its last height forever (`Readback.FailedRequestIsFinal`).
- **Readback UV.** The readback UV evidently should come from the horizontal position. The code
  takes it from `worldPos * Tile0` through the implicit `Vector3 -> Vector2` conversion, which
  keeps world x and **y**. The `(x, z)` vector it builds is never used (`Readback.QueryTexel`,
  `Readback.QueryTexelIgnoresZ`).
- **Missing height field.** One would expect the component to idle while the field is missing.
  In the code, `Update` dereferences a null `receiverVoxels` until the first grid is created,
  which raises `NullReference` (`Buoyancy.Update`).
- **Zero voxel count.** One would expect this to be rejected as a configuration error. In the code it yields
  NaN damping rather than a failure (`Buoyancy.FixedUpdate`, `NonFinite`).
- **Voxel depth.** Voxel positions are cell centres, but `depth` adds a whole voxel height to
  the water level minus the centre height, as if the position were the top face. So a voxel
  is fully submerged once the water reaches its centre, and still pushed while its bottom
  face is up to half a voxel above the water (`BuoyancyForce.CentreHeightThresholds`).
- **Rotation.** `CreateVoxels` saves the rotation, resets it to the identity and never restores it (`Buoyancy.CreateVoxels`).

## Model

| member | source | states |
|---|---|---|
| Numerics.Wrap32 | FFTOcean_Script.cs:303-309 | unchecked 32-bit `int` arithmetic: the result is congruent to the exact value modulo 2^32 and equals it when it fits |
| Numerics.TruncDiv | FFTOcean_Script.cs:303 | C# integer division rounds toward zero: `q * b` brackets `a` from the side of zero, with `q` having the sign of `a` |
| Numerics.Clamp | FFTOcean_Buoyancy.cs:147 | `Mathf.Clamp` lies in `[min, max]`, is the value itself inside the range and the nearer bound outside it |
| Numerics.Clamp01 | FFTOcean_Buoyancy.cs:160-161 | `Mathf.Clamp01` lies in `[0, 1]` and fixes values already there |
| Numerics.Max | FFTOcean_Buoyancy.cs:150 | `Mathf.Max` is one of its arguments and at least both |
| Numerics.Lerp | FFTOcean_Buoyancy.cs:160-161 | `Mathf.Lerp` gives `a` for `t <= 0`, `b` for `t >= 1`, and always lies between `a` and `b` |
| Numerics.LerpInterpolates | FFTOcean_Buoyancy.cs:160-161 | for `t` in `[0, 1]`, `Mathf.Lerp` is the weighted mean `(1 - t) * a + t * b` |
| Numerics.FloorToInt | FFTOcean_Buoyancy.cs:72-73 | the greatest integer not above `f` |
| Numerics.CeilToInt | FFTOcean_Script.cs:496-497 | the least integer not below `f` |
| Numerics.Frac | FFTOcean_Buoyancy.cs:72-73 | `math.frac` lies in `[0, 1)` and differs from its argument by an integer |
| Numerics.FracPeriodic | FFTOcean_Buoyancy.cs:72-73 | `frac` has period 1 |
| WaterMesh.SideVertCount | FFTOcean_Script.cs:303 | `sideVertCount` is the 32-bit wrapped product `waterMeshLength * waterMeshRes` divided by 100 toward zero (bracketed on each sign of the wrapped product, whether or not it overflowed) and stays within ±21474837 |
| WaterMesh.VertexArrayLength | FFTOcean_Script.cs:305 | the vertex array length is `(side+1)^2` modulo 2^32, and exactly `(side+1)^2` for `0 <= side <= 46339` |
| WaterMesh.TriangleArrayLength | FFTOcean_Script.cs:309 | the index-buffer length `side * side * 6`, wrapped after each multiplication, is `6 * side^2` modulo 2^32 |
| WaterMesh.LatticeSizes | FFTOcean_Script.cs:305-309 | when `side * side * 6` fits in an `int`, the wrapped array lengths are exactly `(side+1)^2` and `6 * side^2` |
| WaterMesh.Ratio | FFTOcean_Script.cs:315-318 | `(float)x / sideVertCount` is a number in `[0, 1]` exactly when `side > 0`, NaN otherwise |
| WaterMesh.VertexIndex | FFTOcean_Script.cs:311-313 | the running index `i` of lattice vertex `(x, z)` is below `(side+1)^2` |
| WaterMesh.RowColumnOfIndex | FFTOcean_Script.cs:311-313 | row and column recovered from a vertex's running index are the loop's `x` and `z` |
| WaterMesh.BuildVertices | FFTOcean_Script.cs:311-321 | the vertex, uv and tangent arrays have `(side+1)^2` entries; entry `i` holds the position and uv of the lattice point at row/column of `i`, and the tangent `(1, 0, 0, -1)` |
| WaterMesh.UVInUnitSquare | FFTOcean_Script.cs:318 | every uv lies in `[0, 1]^2`, with `(0, 0)` and `(1, 1)` at opposite corners |
| WaterMesh.SpanCentred | FFTOcean_Script.cs:302-317 | each horizontal coordinate lies in `[-length/2, length/2]`, reaches both ends, and row `side - i` mirrors row `i` |
| WaterMesh.VerticesCentred | FFTOcean_Script.cs:315-317 | every vertex lies on `y = 0` inside the centred square, whose edges it reaches, mirrored about the origin |
| WaterMesh.EmptyLatticeIsNaN | FFTOcean_Script.cs:315-318 | with `sideVertCount == 0` the single vertex and its uv are NaN (`0 / 0`) |
| WaterMesh.SpanWithinLength | FFTOcean_Script.cs:302-317 | every horizontal vertex coordinate lies in `[-length/2, length/2]` |
| WaterMesh.SpanMirrored | FFTOcean_Script.cs:302-317 | the coordinates of rows `i` and `side - i` are opposite numbers |
| WaterMesh.QuadBase | FFTOcean_Script.cs:323-325 | because `verIndex` also steps once per row, quad `q` starts at vertex `q + q / side` |
| WaterMesh.TriangleSlotInRange | FFTOcean_Script.cs:327-332 | every index-buffer value is a valid vertex index, below `(side+1)^2` |
| WaterMesh.QuadTriangles | FFTOcean_Script.cs:323-332 | quad `(x, z)` fills slots `6q .. 6q+5` with `b, b+1, b+side+2, b, b+side+2, b+side+1` for `b = x*(side+1)+z`; the two triangles share the diagonal `b`/`b+side+2`, and `b+1`, `b+side+1`, `b+side+2` are the lattice neighbours `(x, z+1)`, `(x+1, z)`, `(x+1, z+1)` |
| WaterMesh.BuildTriangles | FFTOcean_Script.cs:323-334 | the index buffer has `6 * side^2` slots, each written exactly once, each with its quad's corner, each a valid vertex index |
| WaterMesh.FillRow | FFTOcean_Script.cs:325-333 | one row of quads advances `triIndex` by `6 * side` and `verIndex` by `side`, completing every slot before it exactly once and touching none after |
| WaterMesh.QuadSlots | FFTOcean_Script.cs:327-332 | the six reference slots of quad `(x, z)` lie in the buffer and hold its base vertex `x*(side+1)+z` plus the corner offsets `0, 1, side+2, 0, side+2, side+1` |
| WaterMesh.FillQuad | FFTOcean_Script.cs:326-333 | after one quad the slots up to `triIndex + 6` hold their reference values and have been written once each, and the slots after them not at all |
| WaterMesh.WriteQuad | FFTOcean_Script.cs:327-332 | the six writes of one quad, leaving every other slot unchanged |
| WaterMesh.CreateWaterSurface | FFTOcean_Script.cs:296-342 | allocation throws exactly when a wrapped length is negative; a write throws exactly when `6 * side^2` overflows; otherwise the mesh holds the full lattice with in-range triangles, or zero-filled arrays when `side < 0` |
| Spectrum.WindAngle | FFTOcean_Script.cs:368 | degrees become radians: `[0, 360]` maps into `[0, 2π]`, 0 to 0 and 180 to π |
| Spectrum.WindAngleRoundTrip | FFTOcean_Script.cs:368 | converting the angle back to degrees recovers `windDirection` |
| Spectrum.FillSpectrumStruct | FFTOcean_Script.cs:365-375 | `scale`, `spreadBlend`, `peakEnhancement` (as `gamma`) and `shortWavesFade` are copied; `swell` is clamped into `[0.01, 1]`; the angle encodes `windDirection`; `alpha` and `peakOmega` are the fits at `(fetch, windSpeed)` |
| Spectrum.FillSpectrumStructRoundTrip | FFTOcean_Script.cs:365-375 | the display settings can be read back from the packed ones, exactly when `swell` was already in range |
| Spectrum.FillSlot | FFTOcean_Script.cs:379-386 | filling slot `i` writes that slot only |
| Spectrum.SetSpectrumBuffers | FFTOcean_Script.cs:377-390 | all 8 compute slots are filled, slot `i` from display set `i` |
| Dispatch.ThreadGroups | FFTOcean_Script.cs:496-497 | `CeilToInt(resolution / 8.0)` groups cover the resolution with less than one group to spare |
| Dispatch.ThreadGroupsCover | FFTOcean_Script.cs:496-497 | every pixel row/column falls into one of the dispatched groups |
| Dispatch.OnEnableGroups | FFTOcean_Script.cs:495-497 | when `CreateWaterSurface` returns normally, `OnEnable` then fixes the resolution at 1024 and both group counts at 128, exactly covering it |
| Readback.Issue | FFTOcean_Buoyancy.cs:46 | a new request is pending for the texel it names |
| Readback.AxisTexel | FFTOcean_Buoyancy.cs:70-73 | `FloorToInt(frac(coord * Tile0) * 1023)` lies in `[0, 1022]` |
| Readback.QueryTexel | FFTOcean_Buoyancy.cs:68-73 | the texel queried for a world position lies in `[0, 1022]^2` |
| Readback.QueryTexelIgnoresZ | FFTOcean_Buoyancy.cs:69-70 | the queried texel depends on world x and y only, not z |
| Readback.AxisTexelPeriodic | FFTOcean_Buoyancy.cs:70-73 | each texel coordinate repeats with period `1 / Tile0` |
| Readback.QueryTexelPeriodic | FFTOcean_Buoyancy.cs:70-73 | positions a whole number of tile periods apart in x and y query the same texel |
| Readback.NewVoxel | FFTOcean_Buoyancy.cs:40-47 | a new voxel has its position, a zero cached height and a pending request for texel `(0, 0)` |
| Readback.GetWaterHeight | FFTOcean_Buoyancy.cs:49-52 | reports the cached height; how `Update` changes it is stated by `Readback.UpdateRefreshesHeight` |
| Readback.UpdateRefreshesHeight | FFTOcean_Buoyancy.cs:49-66 | the reported height becomes the decoded readback value after a successful request, and stays as it was after a pending or failed one |
| Readback.Update | FFTOcean_Buoyancy.cs:54-77 | pending: voxel unchanged; failed: voxel unchanged, no new request; succeeded: the height is the decoded data and exactly one new pending request, for the texel under the current world position, replaces the old one; the position never changes |
| Readback.StalledRequestKeepsVoxel | FFTOcean_Buoyancy.cs:56 | while the GPU never completes the request, the voxel keeps its height and request through any number of frames |
| Readback.FailedRequestIsFinal | FFTOcean_Buoyancy.cs:58-62 | once a request fails, the voxel never changes again |
| Readback.IssuedBoundedBySuccesses | FFTOcean_Buoyancy.cs:56-75 | over any run, a voxel issues no more requests than the GPU completed successfully (one more if a success was waiting), so at most one is outstanding |
| VoxelGrid.Flatten | FFTOcean_Buoyancy.cs:92-104 | the cell `(x, y, z)` has a loop position below `X*Y*Z` |
| VoxelGrid.Unflatten | FFTOcean_Buoyancy.cs:92-104 | every loop position below `X*Y*Z` names a cell of the grid |
| VoxelGrid.UnflattenFlatten | FFTOcean_Buoyancy.cs:92-104 | cell → position → cell is the identity |
| VoxelGrid.FlattenUnflatten | FFTOcean_Buoyancy.cs:92-104 | position → cell → position is the identity |
| VoxelGrid.AllIndices | FFTOcean_Buoyancy.cs:103 | the receiver list has `X*Y*Z` entries |
| VoxelGrid.AllIndicesEnumerates | FFTOcean_Buoyancy.cs:92-104 | the receiver list holds only cells of the grid, every cell appears at its own loop position |
| VoxelGrid.AllIndicesDistinct | FFTOcean_Buoyancy.cs:92-104 | no cell appears twice in the receiver list |
| VoxelGrid.AllIndicesOrdered | FFTOcean_Buoyancy.cs:92-96 | the receiver list is in lexicographic `(x, y, z)` order |
| VoxelGrid.CellCentre | FFTOcean_Buoyancy.cs:98-100 | each coordinate of a cell centre is `min + voxelSize * (i + 0.5)` |
| VoxelGrid.CellStrictlyInside | FFTOcean_Buoyancy.cs:87-100 | with a positive size, every cell centre lies strictly between the box faces |
| VoxelGrid.CellsMirrored | FFTOcean_Buoyancy.cs:87-100 | the centres of cells `i` and `n-1-i` are symmetric about the middle of the box |
| VoxelGrid.CellCoordInside | FFTOcean_Buoyancy.cs:87-100 | with a positive size, every cell centre lies strictly inside the box, half a cell above its lower face; neighbours are one cell apart, and cell `i` mirrors cell `n-1-i` |
| VoxelGrid.CellSize | FFTOcean_Buoyancy.cs:87-89 | `voxelSize` is finite exactly when no count is zero, and then times each count gives the box size |
| VoxelGrid.BuildGrid | FFTOcean_Buoyancy.cs:92-106 | the loops produce the full receiver list and one voxel per cell, in order, each at its cell centre taken to local space |
| VoxelGrid.BuildSlab | FFTOcean_Buoyancy.cs:94-105 | one `x` slab extends both lists by `Y*Z` correct entries |
| VoxelGrid.BuildRow | FFTOcean_Buoyancy.cs:96-104 | one `(x, y)` row extends both lists by `Z` correct entries |
| BuoyancyForce.Depth | FFTOcean_Buoyancy.cs:146 | the depth is positive exactly when the water stands above the point one voxel height below the voxel centre |
| BuoyancyForce.SubmergedFactor | FFTOcean_Buoyancy.cs:147 | the submerged factor lies in `[0, 1]`, is NaN only for `0 / 0`, and with a positive height is 0 exactly when `depth <= 0`, 1 exactly when `depth >= voxelHeight` (the water at or above the centre), `depth / voxelHeight` in between |
| BuoyancyForce.SubmergedFactorFallsWithHeight | FFTOcean_Buoyancy.cs:146-147 | raising a voxel never increases its submerged factor |
| BuoyancyForce.Displacement | FFTOcean_Buoyancy.cs:150 | the displacement is non-negative, zero exactly when `depth <= 0`, the depth otherwise |
| BuoyancyForce.CentreHeightThresholds | FFTOcean_Buoyancy.cs:146-150 | a voxel's factor is 1 exactly when the water reaches its centre, and it is pushed while its bottom face is still up to half a voxel above the water |
| BuoyancyForce.UnitForce | FFTOcean_Buoyancy.cs:130-135 | finite exactly when volume and voxel count are non-zero; times the count it is `1 - density`, and it is positive exactly when the body is less dense than water |
| BuoyancyForce.Force | FFTOcean_Buoyancy.cs:152 | a voxel with zero displacement (`depth <= 0`) contributes no force |
| BuoyancyForce.ForceOpposesGravity | FFTOcean_Buoyancy.cs:150-152 | for a body lighter than water each force component opposes gravity, and the vertical one vanishes exactly when `depth <= 0` or gravity is horizontal |
| BuoyancyForce.ForceLinear | FFTOcean_Buoyancy.cs:152 | the force is additive in the displacement |
| BuoyancyForce.SubmergedSumBounds | FFTOcean_Buoyancy.cs:148 | the summed submerged volume over `n` voxels lies in `[0, n]` |
| BuoyancyForce.SubmergedSumExtremes | FFTOcean_Buoyancy.cs:146-148 | with a positive voxel height the sum is finite; it is `n` when every voxel has `depth >= voxelHeight` and 0 when every voxel has `depth <= 0` |
| BuoyancyForce.FixedStep | FFTOcean_Buoyancy.cs:128-162 | the loop agrees with the reference step: non-finite exactly for no voxels, zero volume or a NaN factor; one push per voxel at its world position; both dampings between 2 and the intensity |
| BuoyancyForce.DryBody | FFTOcean_Buoyancy.cs:146-161 | a body whose every voxel has `depth <= 0` gets zero forces and damping 2 on both axes |
| BuoyancyForce.SubmergedBody | FFTOcean_Buoyancy.cs:146-161 | a body whose every voxel has `depth >= voxelHeight` (water at or above each centre) gets exactly the configured linear and angular drag |
| Buoyancy.InitialWf | FFTOcean_Buoyancy.cs:24-26 | a new component (no grid, no receivers) satisfies the invariant |
| Buoyancy.FreshGridUnique | FFTOcean_Buoyancy.cs:86-105 | rebuilding with the same counts, bounds and transform gives identical voxels |
| Buoyancy.FreshGridPending | FFTOcean_Buoyancy.cs:40-47 | every freshly built voxel has a zero height and a pending request for texel `(0, 0)`: cached heights do not survive a rebuild |
| Buoyancy.CreateVoxels | FFTOcean_Buoyancy.cs:79-107 | rotation left at identity; `voxelSize` from the bounds; a negative count throws after the receiver list was emptied, leaving the grid as it was; otherwise the full receiver list and a fresh voxel per cell |
| Buoyancy.PollVoxels | FFTOcean_Buoyancy.cs:121-125 | walking the receiver list polls every voxel exactly once |
| Buoyancy.Update | FFTOcean_Buoyancy.cs:118-126 | keeps the invariant; with a grid, polls every voxel and changes nothing else; without one, creates it only if the field is ready, with `voxelSize` from the bounds and counts (a negative count leaving an empty receiver list and no grid), and otherwise throws exactly when the receiver list is missing or non-empty |
| Buoyancy.FixedUpdate | FFTOcean_Buoyancy.cs:128-162 | with no grid it throws; otherwise it is the reference step at the stored voxel height, failing only on non-finite output |
| Buoyancy.OnDisable | FFTOcean_Buoyancy.cs:164-167 | drops the grid and keeps every other field |
| Buoyancy.OnDisablePreservesWf | FFTOcean_Buoyancy.cs:164-167 | disabling keeps the invariant, so a later `Update` rebuilds a consistent grid |

## Left out

- The compute-shader kernels are not part of this model: spectrum initialisation, conjugate
  packing, time evolution, the inverse FFT passes and field assembly. Their source is not among
  these files, and `FFTOcean_Script.cs:527-551` only dispatches them.
- The JONSWAP fits `JonswapAlpha` and `JonswapPeakFrequency` (`FFTOcean_Script.cs:355-363`) are
  not defined here. They raise a float to a non-integer power, so the model takes them as the
  function parameter `Fits`.
- The model leaves out Unity resource plumbing:
  - render textures and compute buffers;
  - `JonswapBuffer.SetData` and shader or material parameters;
  - mesh assignment and `RecalculateNormals`;
  - `Reset` defaults;
  - `SetCompParam` and `SetMaterialParam`.

  These are calls into the engine.
- Transforms, `AsyncGPUReadback`, `HalfToFloat`, `Physics.gravity` and `Rigidbody.mass` are
  parameters, not models. The GPU's completion of a request is an input to `Readback.Run`.
- `Rigidbody.AddForceAtPosition` is recorded as a `Push`. The torque it produces and the
  resulting motion are engine-side. `OnDrawGizmos` only draws.
- The buoyancy `OnEnable` is not modelled. It only caches component references and sets
  `targetRotation` and `cachedDirections`, which nothing else reads. The model assumes the
  rigidbody and collider exist whenever a water source is set.
- Single-precision rounding is not modelled. `Spectrum.WindAngle` uses the single-precision
  value of π, 3.14159274.
- Readback.AxisTexel: the `[0, 1022]` bound holds in exact arithmetic only. In single
  precision, `x - floor(x)` for a tiny negative `x` rounds to `1.0f`, and the texel becomes 1023.
- Readback.QueryTexel: models the texel as `FloorToInt` of the exact product. Near texel
  boundaries, single-precision rounding of `frac(uv) * 1023` could land one texel away.
- The rest of the ocean `OnEnable` is not modelled. If `CreateWaterSurface` throws
  (`WaterMesh.CreateWaterSurface` returns a failure), `OnEnable` stops before setting the
  resolution and group counts. They stay 0, and the buoyancy texture is never created.
- `Debug.Log("Buoyancy Request Error")` (`FFTOcean_Buoyancy.cs:60`) is not modelled: logging
  has no effect on the component's state.
- BuoyancyForce.FixedStep: reports a single `NonFinite` when any output would be infinite or
  NaN. It does not say which pushes or dampings are affected.
- The inspector counts are fixed for the component's lifetime. A count
  changed after the grid exists would make the `FixedUpdate` loops disagree with the array.
  That change is not modelled.
- VoxelGrid.BuildGrid: the receiver list stores integer cells. The source stores `Vector3`
  values and casts them back with `(int)`, which is exact for grid sizes below 2^24.
- Buoyancy.CreateVoxels: the bounds are taken as given. The model does not say whether Unity
  refreshes the collider's bounds after the rotation reset in the same frame.
- The memory limit on very large grids or meshes is not modelled. An
  `OutOfMemoryException` has no counterpart here.
