/**
 * The voxel lattice of `FFTOcean_Buoyancy.CreateVoxels`: the collider's bounding box split
 * into `voxelsPerAxisX * voxelsPerAxisY * voxelsPerAxisZ` equal cells, one voxel at the centre
 * of each, visited in `x`-outer, `z`-inner order.
 *
 * The three-dimensional `Voxel[,,]` array is modelled as one sequence in that visiting
 * (row-major) order; `Flatten` and `Unflatten` translate between the two views.
 */
module VoxelGrid {
  import opened Numerics
  import opened Geometry
  import opened Readback
  import opened Wrappers

  /** Cells per axis once they are known to be non-negative. */
  datatype Dims = Dims(x: nat, y: nat, z: nat)

  /** A cell's integer coordinates, as stored in `receiverVoxels`. */
  datatype Index3 = Index3(x: nat, y: nat, z: nat)

  function Count(d: Dims): nat {
    d.x * d.y * d.z
  }

  predicate InGrid(d: Dims, i: Index3) {
    i.x < d.x && i.y < d.y && i.z < d.z
  }

  /** Position of cell `i` in the `x`-outer, `z`-inner visiting order. */
  function Flatten(d: Dims, i: Index3): (k: nat)
    requires InGrid(d, i)
    ensures k < Count(d)
  {
    FlatBelow(i.x, i.y, d.y, d.x);
    FlatBelow(i.x * d.y + i.y, i.z, d.z, d.x * d.y);
    (i.x * d.y + i.y) * d.z + i.z
  }

  /** The cell visited `k`-th. */
  function Unflatten(d: Dims, k: nat): (i: Index3)
    requires k < Count(d)
    ensures InGrid(d, i)
  {
    RowBelow(k, d.z, d.x * d.y);
    RowBelow(k / d.z, d.y, d.x);
    Index3((k / d.z) / d.y, (k / d.z) % d.y, k % d.z)
  }

  lemma UnflattenFlatten(d: Dims, i: Index3)
    requires InGrid(d, i)
    ensures Unflatten(d, Flatten(d, i)) == i
  {
    DivModOfFlat(i.x * d.y + i.y, i.z, d.z);
    DivModOfFlat(i.x, i.y, d.y);
  }

  lemma FlattenUnflatten(d: Dims, k: nat)
    requires k < Count(d)
    ensures Flatten(d, Unflatten(d, k)) == k
  {
    var q := k / d.z;
    assert q == (q / d.y) * d.y + q % d.y;
    assert k == q * d.z + k % d.z;
  }

  /** Every cell, in the order the creation loops visit them. */
  function AllIndices(d: Dims): (s: seq<Index3>)
    ensures |s| == Count(d)
  {
    seq(Count(d), k requires 0 <= k < Count(d) => Unflatten(d, k))
  }

  /** `AllIndices` lists every cell of the grid exactly once, and nothing else. */
  lemma AllIndicesEnumerates(d: Dims)
    ensures forall k :: 0 <= k < Count(d) ==> InGrid(d, AllIndices(d)[k])
    ensures forall k :: 0 <= k < Count(d) ==> Flatten(d, AllIndices(d)[k]) == k
    ensures forall i :: InGrid(d, i) ==> AllIndices(d)[Flatten(d, i)] == i
  {
    forall k | 0 <= k < Count(d)
      ensures Flatten(d, AllIndices(d)[k]) == k
    {
      FlattenUnflatten(d, k);
    }
    forall i | InGrid(d, i)
      ensures AllIndices(d)[Flatten(d, i)] == i
    {
      UnflattenFlatten(d, i);
    }
  }

  /** Two positions of `AllIndices` hold the same cell only if they are the same position. */
  lemma AllIndicesDistinct(d: Dims, k: nat, k': nat)
    requires k < Count(d) && k' < Count(d)
    requires AllIndices(d)[k] == AllIndices(d)[k']
    ensures k == k'
  {
    FlattenUnflatten(d, k);
    FlattenUnflatten(d, k');
  }

  /** The cells are visited in lexicographic `(x, y, z)` order. */
  lemma AllIndicesOrdered(d: Dims, k: nat, k': nat)
    requires k < k' < Count(d)
    ensures Before(AllIndices(d)[k], AllIndices(d)[k'])
  {
    var i, i' := AllIndices(d)[k], AllIndices(d)[k'];
    FlattenUnflatten(d, k);
    FlattenUnflatten(d, k');
    if !Before(i, i') {
      if i == i' {
      } else {
        assert Before(i', i);
        FlattenMonotone(d, i', i);
      }
    }
  }

  predicate Before(a: Index3, b: Index3) {
    a.x < b.x || (a.x == b.x && (a.y < b.y || (a.y == b.y && a.z < b.z)))
  }

  lemma FlattenMonotone(d: Dims, a: Index3, b: Index3)
    requires InGrid(d, a) && InGrid(d, b) && Before(a, b)
    ensures Flatten(d, a) < Flatten(d, b)
  {
    var ra, rb := a.x * d.y + a.y, b.x * d.y + b.y;
    if a.x < b.x || a.y < b.y {
      RowMajorLess(a.x, a.y, b.x, b.y, d.y);
    }
    RowMajorLess(ra, a.z, rb, b.z, d.z);
  }

  /** Row-major order: a lower row, or the same row and a lower column, comes first. */
  lemma RowMajorLess(row: nat, col: nat, row': nat, col': nat, n: nat)
    requires col < n && col' < n
    requires row < row' || (row == row' && col < col')
    ensures row * n + col < row' * n + col'
  {
    if row < row' {
      MulMonotone(row + 1, row', n);
      assert (row + 1) * n == row * n + n;
    }
  }

  /** One coordinate of a cell centre: `min + (size / n) * (i + 0.5)`. */
  function CellCoord(min: real, cellSize: real, i: nat): real {
    min + cellSize * (i as real + 0.5)
  }

  /** The centre of cell `i` for cells of size `cellSize`: `voxelSize.Scale(i + 0.5) + bounds.min`. */
  function CellCentre(min: Vec3, cellSize: Vec3, i: Index3): (c: Vec3)
    ensures c.x == CellCoord(min.x, cellSize.x, i.x)
    ensures c.y == CellCoord(min.y, cellSize.y, i.y)
    ensures c.z == CellCoord(min.z, cellSize.z, i.z)
  {
    cellSize.ScaleBy(Vec3(i.x as real + 0.5, i.y as real + 0.5, i.z as real + 0.5)).Plus(min)
  }

  /** Along one axis of length `size > 0` split into `n` cells, every centre lies strictly
      inside the box, each is half a cell from its cell's lower face, neighbours are one cell
      apart, and centre `i` mirrors centre `n - 1 - i` about the middle of the box. */
  lemma CellCoordInside(min: real, size: real, n: nat, i: nat)
    requires size > 0.0 && i < n
    ensures min < CellCoord(min, size / n as real, i) < min + size
    ensures CellCoord(min, size / n as real, i) - (min + size / n as real * i as real) == size / n as real / 2.0
    ensures i + 1 < n ==> CellCoord(min, size / n as real, i + 1) - CellCoord(min, size / n as real, i) == size / n as real
    ensures CellCoord(min, size / n as real, i) + CellCoord(min, size / n as real, n - 1 - i) == 2.0 * min + size
  {
    var c := size / n as real;
    CellStrictlyInside(min, size, n, i);
    assert c * (i as real + 0.5) == c * i as real + c / 2.0;
    assert c * ((i + 1) as real + 0.5) == c * (i as real + 0.5) + c;
    CellsMirrored(min, size, n, i);
  }

  /** A cell centre lies strictly between the two faces of the box. */
  lemma CellStrictlyInside(min: real, size: real, n: nat, i: nat)
    requires size > 0.0 && i < n
    ensures min < CellCoord(min, size / n as real, i) < min + size
  {
    var c, k := size / n as real, i as real + 0.5;
    assert c * n as real == size;
    assert c > 0.0;
    assert c * (n as real - k) > 0.0;
    assert c * k > 0.0;
  }

  /** Centres `i` and `n - 1 - i` add up to twice the middle of the box. */
  lemma CellsMirrored(min: real, size: real, n: nat, i: nat)
    requires size > 0.0 && i < n
    ensures CellCoord(min, size / n as real, i) + CellCoord(min, size / n as real, n - 1 - i) == 2.0 * min + size
  {
    var c := size / n as real;
    assert c * n as real == size;
    assert (n - 1 - i) as real + 0.5 == n as real - (i as real + 0.5);
    assert c * (i as real + 0.5) + c * (n as real - (i as real + 0.5)) == c * n as real;
  }

  /** `voxelSize` from the bounding box and the configured cell counts: `size / count` per
      axis. A zero count gives an infinite or NaN component (`None`); a negative one is
      still divided by, before the array allocation rejects it. */
  function CellSize(size: Vec3, countX: int, countY: int, countZ: int): (s: Option<Vec3>)
    ensures s.Some? <==> countX != 0 && countY != 0 && countZ != 0
    ensures s.Some? ==>
      && s.value.x * countX as real == size.x
      && s.value.y * countY as real == size.y
      && s.value.z * countZ as real == size.z
  {
    if countX != 0 && countY != 0 && countZ != 0 then
      Some(Vec3(size.x / countX as real, size.y / countY as real, size.z / countZ as real))
    else
      None
  }

  /** The voxel created for cell `i`: its centre in world space, taken into the object's local
      space by `toLocal` (`InverseTransformPoint` after the rotation was reset). */
  function CellVoxel(bounds: Bounds, cellSize: Vec3, toLocal: Vec3 -> Vec3, i: Index3): Voxel {
    NewVoxel(toLocal(CellCentre(bounds.min, cellSize, i)))
  }

  /** The row `(x, y)` of cells ends within the grid. */
  lemma RowEnd(d: Dims, x: nat, y: nat)
    requires x < d.x && y < d.y
    ensures (x * d.y + y) * d.z + d.z <= Count(d)
  {
    var m := x * d.y + y;
    FlatBelow(x, y, d.y, d.x);
    MulMonotone(m + 1, d.x * d.y, d.z);
    assert m * d.z + d.z == (m + 1) * d.z;
  }

  /** The slab of cells with first coordinate `x` ends within the grid. */
  lemma SlabEnd(d: Dims, x: nat)
    requires x < d.x
    ensures (x + 1) * d.y * d.z <= Count(d)
  {
    MulMonotone(x + 1, d.x, d.y);
    MulMonotone((x + 1) * d.y, d.x * d.y, d.z);
  }

  /** The three nested loops of `CreateVoxels`: one voxel per cell and one `receiverVoxels`
      entry per cell, both in visiting order. With a zero count on some axis nothing is
      created. */
  method BuildGrid(d: Dims, bounds: Bounds, cellSize: Vec3, toLocal: Vec3 -> Vec3)
    returns (voxels: seq<Voxel>, receivers: seq<Index3>)
    ensures receivers == AllIndices(d)
    ensures |voxels| == Count(d)
    ensures forall k :: 0 <= k < |voxels| ==> voxels[k] == CellVoxel(bounds, cellSize, toLocal, receivers[k])
  {
    voxels, receivers := [], [];
    var x := 0;
    while x < d.x
      invariant x <= d.x
      invariant |receivers| == x * d.y * d.z == |voxels|
      invariant |receivers| <= Count(d)
      invariant forall k :: 0 <= k < |receivers| ==> receivers[k] == AllIndices(d)[k]
      invariant forall k :: 0 <= k < |voxels| ==> voxels[k] == CellVoxel(bounds, cellSize, toLocal, receivers[k])
    {
      SlabEnd(d, x);
      voxels, receivers := BuildSlab(d, bounds, cellSize, toLocal, x, voxels, receivers);
      x := x + 1;
    }
    assert x == d.x;
  }

  /** The inner two loops of `CreateVoxels` for one `x`. */
  method BuildSlab(d: Dims, bounds: Bounds, cellSize: Vec3, toLocal: Vec3 -> Vec3, x: nat,
                   voxels0: seq<Voxel>, receivers0: seq<Index3>)
    returns (voxels: seq<Voxel>, receivers: seq<Index3>)
    requires x < d.x
    requires |receivers0| == x * d.y * d.z == |voxels0|
    requires (x + 1) * d.y * d.z <= Count(d)
    requires forall k :: 0 <= k < |receivers0| ==> receivers0[k] == AllIndices(d)[k]
    requires forall k :: 0 <= k < |voxels0| ==> voxels0[k] == CellVoxel(bounds, cellSize, toLocal, receivers0[k])
    ensures |receivers| == (x + 1) * d.y * d.z == |voxels|
    ensures forall k :: 0 <= k < |receivers| ==> receivers[k] == AllIndices(d)[k]
    ensures forall k :: 0 <= k < |voxels| ==> voxels[k] == CellVoxel(bounds, cellSize, toLocal, receivers[k])
  {
    voxels, receivers := voxels0, receivers0;
    var y := 0;
    while y < d.y
      invariant y <= d.y
      invariant |receivers| == (x * d.y + y) * d.z == |voxels|
      invariant |receivers| <= Count(d)
      invariant forall k :: 0 <= k < |receivers| ==> receivers[k] == AllIndices(d)[k]
      invariant forall k :: 0 <= k < |voxels| ==> voxels[k] == CellVoxel(bounds, cellSize, toLocal, receivers[k])
    {
      RowEnd(d, x, y);
      voxels, receivers := BuildRow(d, bounds, cellSize, toLocal, x, y, voxels, receivers);
      assert (x * d.y + y) * d.z + d.z == (x * d.y + y + 1) * d.z;
      y := y + 1;
    }
    assert (x * d.y + d.y) * d.z == (x + 1) * d.y * d.z;
  }

  /** The innermost loop of `CreateVoxels`, over `z` for one `(x, y)`. */
  method BuildRow(d: Dims, bounds: Bounds, cellSize: Vec3, toLocal: Vec3 -> Vec3, x: nat, y: nat,
                  voxels0: seq<Voxel>, receivers0: seq<Index3>)
    returns (voxels: seq<Voxel>, receivers: seq<Index3>)
    requires x < d.x && y < d.y
    requires |receivers0| == (x * d.y + y) * d.z == |voxels0|
    requires (x * d.y + y) * d.z + d.z <= Count(d)
    requires forall k :: 0 <= k < |receivers0| ==> receivers0[k] == AllIndices(d)[k]
    requires forall k :: 0 <= k < |voxels0| ==> voxels0[k] == CellVoxel(bounds, cellSize, toLocal, receivers0[k])
    ensures |receivers| == (x * d.y + y) * d.z + d.z == |voxels|
    ensures forall k :: 0 <= k < |receivers| ==> receivers[k] == AllIndices(d)[k]
    ensures forall k :: 0 <= k < |voxels| ==> voxels[k] == CellVoxel(bounds, cellSize, toLocal, receivers[k])
  {
    voxels, receivers := voxels0, receivers0;
    var base := (x * d.y + y) * d.z;
    var z := 0;
    while z < d.z
      invariant z <= d.z
      invariant |receivers| == base + z == |voxels|
      invariant base + z <= Count(d)
      invariant forall k :: 0 <= k < |receivers| ==> receivers[k] == AllIndices(d)[k]
      invariant forall k :: 0 <= k < |voxels| ==> voxels[k] == CellVoxel(bounds, cellSize, toLocal, receivers[k])
    {
      var i := Index3(x, y, z);
      assert base + z == Flatten(d, i);
      UnflattenFlatten(d, i);
      voxels := voxels + [CellVoxel(bounds, cellSize, toLocal, i)];
      receivers := receivers + [i];
      z := z + 1;
    }
  }
}
