/**
 * One buoyancy voxel and its asynchronous height query (`FFTOcean_Buoyancy.Voxel`).
 *
 * A voxel holds its local rest position, the last water height it decoded, and exactly one
 * GPU readback request. The request's completion and error flags are set by the GPU and are
 * only polled here: `Update` never blocks, and issues a new request only in place of one that
 * has completed without error.
 */
module Readback {
  import opened Numerics
  import opened Geometry

  /** A 16-bit half-float as the readback returns it. */
  type Half = bv16

  /** Pixel coordinates of the one-texel region a request reads. */
  datatype Texel = Texel(x: int, y: int)

  /** An `AsyncGPUReadbackRequest` for one texel of the height field: `done` and `hasError`
      are the flags the GPU sets, `data` the value it returned. */
  datatype Request = Request(texel: Texel, done: bool, hasError: bool, data: Half)

  /** A request as `AsyncGPUReadback.Request` hands it back: not yet done. */
  function Issue(texel: Texel): (r: Request)
    ensures !r.done && r.texel == texel
  {
    Request(texel, false, false, 0)
  }

  /** The GPU finishing a pending request, successfully with `data` or with an error. A
      request that is already done is left as it is. */
  function Complete(r: Request, ok: bool, data: Half): (r': Request)
    ensures r'.done && r'.texel == r.texel
    ensures !r.done ==> r'.hasError == !ok
    ensures r.done ==> r' == r
  {
    if r.done then r else Request(r.texel, true, !ok, data)
  }

  /** `Voxel`: local rest position, cached water height, and the request in flight. */
  datatype Voxel = Voxel(position: Vec3, cachedHeight: real, request: Request)

  /** The texture side the readback coordinates are scaled by (one less than `Resolution`). */
  const ReadbackScale: real := 1023.0

  /** One texel coordinate from one world coordinate: the uv coordinate is
      `coord * Tile0`, and the texel `FloorToInt(frac(uv) * 1023)`. */
  function AxisTexel(coord: real, tile: real): (c: int)
    ensures 0 <= c <= 1022
  {
    FloorToInt(Frac(coord * tile) * ReadbackScale)
  }

  /** The texel queried for a voxel at `worldPos`: `worldPos * Tile0` goes through the
      implicit `Vector3 -> Vector2` conversion, which keeps the world x and y coordinates. */
  function QueryTexel(worldPos: Vec3, tile: real): (t: Texel)
    ensures 0 <= t.x <= 1022 && 0 <= t.y <= 1022
  {
    Texel(AxisTexel(worldPos.x, tile), AxisTexel(worldPos.y, tile))
  }

  /** The queried texel does not depend on the world z coordinate. */
  lemma QueryTexelIgnoresZ(p: Vec3, z: real, tile: real)
    ensures QueryTexel(p.(z := z), tile) == QueryTexel(p, tile)
  {
  }

  /** `AxisTexel` has period `1 / Tile0`. */
  lemma {:induction false} AxisTexelPeriodic(coord: real, tile: real, k: int)
    requires tile != 0.0
    ensures AxisTexel(coord + k as real / tile, tile) == AxisTexel(coord, tile)
  {
    assert (coord + k as real / tile) * tile == coord * tile + (k as real / tile) * tile;
    assert (k as real / tile) * tile == k as real;
    FracPeriodic(coord * tile, k);
  }

  /** The height field tiles: a voxel moved by whole periods `1 / Tile0` along the world x
      and y axes queries the same texel. */
  lemma {:induction false} QueryTexelPeriodic(p: Vec3, tile: real, i: int, j: int)
    requires tile != 0.0
    ensures QueryTexel(Vec3(p.x + i as real / tile, p.y + j as real / tile, p.z), tile)
      == QueryTexel(p, tile)
  {
    AxisTexelPeriodic(p.x, tile, i);
    AxisTexelPeriodic(p.y, tile, j);
  }

  /** `new Voxel(position, waterSource)`: height 0 and a first request for texel `(0, 0)`. */
  function NewVoxel(position: Vec3): (v: Voxel)
    ensures v.position == position && v.cachedHeight == 0.0
    ensures v.request == Issue(Texel(0, 0))
  {
    Voxel(position, 0.0, Issue(Texel(0, 0)))
  }

  /** `Voxel.GetWaterHeight`. */
  function GetWaterHeight(v: Voxel): real {
    v.cachedHeight
  }

  /** `Voxel.Update`: poll the request. Pending: nothing changes. Done with an error: nothing
      changes either, and no new request is issued. Done without error: decode the height,
      then issue exactly one request for the texel under the voxel's current world position. */
  function Update(v: Voxel, toWorld: Vec3 -> Vec3, tile: real, halfToFloat: Half -> real): (r: Voxel)
    ensures r.position == v.position
    ensures !v.request.done ==> r == v
    ensures v.request.done && v.request.hasError ==> r == v
    ensures v.request.done && !v.request.hasError ==>
      && r.cachedHeight == halfToFloat(v.request.data)
      && r.request == Issue(QueryTexel(toWorld(v.position), tile))
    ensures r.request != v.request ==> v.request.done && !v.request.hasError && !r.request.done
    ensures r.cachedHeight != v.cachedHeight ==> v.request.done && !v.request.hasError
  {
    if !v.request.done then v
    else if v.request.hasError then v
    else
      var worldPos := toWorld(v.position);
      v.(cachedHeight := halfToFloat(v.request.data), request := Issue(QueryTexel(worldPos, tile)))
  }

  /** The height a voxel reports changes only when `Update` consumes a successful readback,
      and then becomes the decoded value of that readback. */
  lemma UpdateRefreshesHeight(v: Voxel, toWorld: Vec3 -> Vec3, tile: real, halfToFloat: Half -> real)
    ensures var h := GetWaterHeight(Update(v, toWorld, tile, halfToFloat));
      && (v.request.done && !v.request.hasError ==> h == halfToFloat(v.request.data))
      && (!(v.request.done && !v.request.hasError) ==> h == GetWaterHeight(v))
  {
  }

  /** What one frame brings a voxel: the transform `Update` sees, and what the GPU does to
      the pending request before the poll (nothing, or completion with `ok` and `data`). */
  datatype Frame = Frame(toWorld: Vec3 -> Vec3, tile: real, gpu: GpuStep)

  datatype GpuStep = Idle | Finish(ok: bool, data: Half)

  /** The request after the GPU's step in a frame. */
  function Advance(r: Request, g: GpuStep): Request {
    match g
    case Idle => r
    case Finish(ok, data) => Complete(r, ok, data)
  }

  /** A voxel over a run of frames: each frame the GPU may complete the request, then the
      voxel is polled. */
  function Run(v: Voxel, frames: seq<Frame>, halfToFloat: Half -> real): Voxel
    decreases |frames|
  {
    if frames == [] then v
    else
      var f := frames[0];
      var polled := Update(v.(request := Advance(v.request, f.gpu)), f.toWorld, f.tile, halfToFloat);
      Run(polled, frames[1..], halfToFloat)
  }

  /** Latency tolerance: while the GPU never completes the pending request, the voxel keeps
      its cached height and its one request, however many frames pass. */
  lemma {:induction false} StalledRequestKeepsVoxel(v: Voxel, frames: seq<Frame>, halfToFloat: Half -> real)
    requires !v.request.done
    requires forall i :: 0 <= i < |frames| ==> frames[i].gpu == Idle
    ensures Run(v, frames, halfToFloat) == v
    decreases |frames|
  {
    if frames != [] {
      StalledRequestKeepsVoxel(v, frames[1..], halfToFloat);
    }
  }

  /** A request that completed with an error is never replaced: from then on the voxel keeps
      its cached height and its failed request in every frame. */
  lemma {:induction false} FailedRequestIsFinal(v: Voxel, frames: seq<Frame>, halfToFloat: Half -> real)
    requires v.request.done && v.request.hasError
    ensures Run(v, frames, halfToFloat) == v
    decreases |frames|
  {
    if frames != [] {
      FailedRequestIsFinal(v, frames[1..], halfToFloat);
    }
  }

  /** Requests the voxel issues over a run: the frames in which polling replaced the request. */
  function Issued(v: Voxel, frames: seq<Frame>, halfToFloat: Half -> real): nat
    decreases |frames|
  {
    if frames == [] then 0
    else
      var f := frames[0];
      var polled := Update(v.(request := Advance(v.request, f.gpu)), f.toWorld, f.tile, halfToFloat);
      (if polled.request != v.(request := Advance(v.request, f.gpu)).request then 1 else 0)
        + Issued(polled, frames[1..], halfToFloat)
  }

  /** Successful completions the GPU delivers to this voxel's pending requests over a run. */
  function Successes(v: Voxel, frames: seq<Frame>, halfToFloat: Half -> real): nat
    decreases |frames|
  {
    if frames == [] then 0
    else
      var f := frames[0];
      var advanced := v.(request := Advance(v.request, f.gpu));
      var polled := Update(advanced, f.toWorld, f.tile, halfToFloat);
      (if !v.request.done && f.gpu.Finish? && f.gpu.ok then 1 else 0)
        + Successes(polled, frames[1..], halfToFloat)
  }

  /** At most one request is outstanding: a voxel issues no more requests than the GPU has
      completed successfully, plus one if it starts with a successful result not yet polled. */
  lemma {:induction false} IssuedBoundedBySuccesses(v: Voxel, frames: seq<Frame>, halfToFloat: Half -> real)
    ensures Issued(v, frames, halfToFloat)
      <= Successes(v, frames, halfToFloat) + (if v.request.done && !v.request.hasError then 1 else 0)
    decreases |frames|
  {
    if frames != [] {
      var f := frames[0];
      var advanced := v.(request := Advance(v.request, f.gpu));
      var polled := Update(advanced, f.toWorld, f.tile, halfToFloat);
      IssuedBoundedBySuccesses(polled, frames[1..], halfToFloat);
    }
  }
}
