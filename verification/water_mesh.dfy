/**
 * The water-surface mesh built by `FFTOcean_Script.CreateWaterSurface`: a square lattice of
 * `(side + 1) * (side + 1)` vertices in the XZ plane, centred on the origin, with one UV and
 * one tangent per vertex and two triangles per lattice quad.
 *
 * The lattice vertex in row `x` and column `z` is stored at flat index `x * (side + 1) + z`;
 * the quad whose lower corner is that vertex occupies index-buffer slots `6 * q .. 6 * q + 5`
 * where `q = x * side + z`.
 */
module WaterMesh {
  import opened Numerics
  import opened Wrappers

  /** A single-precision mesh coordinate: a number, or NaN where the source computes `0 / 0`. */
  datatype Coord = Num(value: real) | NaN

  datatype Vertex = Vertex(x: Coord, y: real, z: Coord)

  datatype UV = UV(u: Coord, v: Coord)

  datatype Tangent = Tangent(x: real, y: real, z: real, w: real)

  /** The tangent written to every vertex: `(1, 0, 0, -1)`. */
  const SurfaceTangent: Tangent := Tangent(1.0, 0.0, 0.0, -1.0)

  /** C# zero-initialises new arrays: these are the elements of a slot never written. */
  const DefaultVertex: Vertex := Vertex(Num(0.0), 0.0, Num(0.0))
  const DefaultUV: UV := UV(Num(0.0), Num(0.0))
  const DefaultTangent: Tangent := Tangent(0.0, 0.0, 0.0, 0.0)

  datatype Mesh = Mesh(vertices: seq<Vertex>, uv: seq<UV>, tangents: seq<Tangent>, triangles: seq<int>)

  /** The exceptions the array allocations and writes can throw: `OverflowException` for a
      negative length, `IndexOutOfRangeException` for a write past a wrapped-around length. */
  datatype MeshError = NegativeArraySize | IndexOutOfRange

  /** Quads per side: `waterMeshLength * waterMeshRes / 100` in unchecked 32-bit arithmetic,
      the division rounding toward zero. The product wraps before it is divided. */
  function SideVertCount(length: Int32, res: Int32): (side: Int32)
    ensures var p := Wrap32(length * res);
      0 <= p ==> 100 * side <= p < 100 * side + 100
    ensures var p := Wrap32(length * res);
      p < 0 ==> 100 * side - 100 < p <= 100 * side
    ensures 0 <= length * res <= MaxInt32 ==> 100 * side <= length * res < 100 * side + 100
    ensures -21474837 <= side <= 21474836
  {
    TruncDiv(Wrap32(length * res), 100)
  }

  /** The length C# allocates for the vertex, UV and tangent arrays: `(side + 1) * (side + 1)`. */
  function VertexArrayLength(side: Int32): (n: Int32)
    requires -21474837 <= side <= 21474836
    ensures (n - (side + 1) * (side + 1)) % TwoTo32 == 0
    ensures 0 <= side <= 46339 ==> n == (side + 1) * (side + 1)
  {
    VertexCountFits(side);
    Wrap32((side + 1) * (side + 1))
  }

  /** Up to 46339 quads per side, the vertex count fits in an `int`. */
  lemma VertexCountFits(side: int)
    ensures 0 <= side <= 46339 ==> 0 <= (side + 1) * (side + 1) <= MaxInt32
  {
    if 0 <= side <= 46339 {
      MulMonotone(side + 1, 46340, side + 1);
      MulMonotone(side + 1, 46340, 46340);
    }
  }

  /** The length C# allocates for the index buffer: `side * side * 6`, evaluated left to right. */
  function TriangleArrayLength(side: Int32): (n: Int32)
    ensures (n - 6 * (side * side)) % TwoTo32 == 0
  {
    var square := Wrap32(side * side);
    var n := Wrap32(square * 6);
    WrapTwice(side * side, square, n);
    n
  }

  /** Wrapping the intermediate product does not change the final wrapped result:
      `n` is congruent to `6 * x` modulo 2^32. */
  lemma WrapTwice(x: int, square: int, n: int)
    requires (x - square) % TwoTo32 == 0 && (square * 6 - n) % TwoTo32 == 0
    ensures (n - 6 * x) % TwoTo32 == 0
  {
    var j, k := (x - square) / TwoTo32, (square * 6 - n) / TwoTo32;
    assert x - square == j * TwoTo32;
    assert square * 6 - n == k * TwoTo32;
    assert n - 6 * x == -(6 * j + k) * TwoTo32;
  }

  // ---------------------------------------------------------------------------------------
  // The vertex lattice

  /** `(float)i / side`; with `side == 0` the only `i` is 0 and the quotient is NaN. */
  function Ratio(i: nat, side: nat): (c: Coord)
    requires i <= side
    ensures side > 0 <==> c.Num?
    ensures c.Num? ==> 0.0 <= c.value <= 1.0
  {
    if side == 0 then NaN else Num(i as real / side as real)
  }

  /** `ratio * waterMeshLength - halfLength`, where `halfLength = waterMeshLength / 2.0f`. */
  function Span(ratio: Coord, length: int): Coord {
    match ratio
    case NaN => NaN
    case Num(t) => Num(t * length as real - length as real / 2.0)
  }

  /** The vertex written for lattice row `x`, column `z`. */
  function GridVertex(side: nat, length: int, x: nat, z: nat): Vertex
    requires x <= side && z <= side
  {
    Vertex(Span(Ratio(x, side), length), 0.0, Span(Ratio(z, side), length))
  }

  /** The UV written for lattice row `x`, column `z`. */
  function GridUV(side: nat, x: nat, z: nat): UV
    requires x <= side && z <= side
  {
    UV(Ratio(x, side), Ratio(z, side))
  }

  /** Flat index of lattice row `x`, column `z`. */
  function VertexIndex(side: nat, x: nat, z: nat): (i: nat)
    requires x <= side && z <= side
    ensures i < (side + 1) * (side + 1)
  {
    FlatBelow(x, z, side + 1, side + 1);
    x * (side + 1) + z
  }

  /** Lattice row of flat vertex index `i`. */
  function Row(side: nat, i: nat): (x: nat)
    requires i < (side + 1) * (side + 1)
    ensures x <= side
  {
    RowBelow(i, side + 1, side + 1);
    i / (side + 1)
  }

  /** Lattice column of flat vertex index `i`. */
  function Column(side: nat, i: nat): (z: nat)
    ensures z <= side
  {
    i % (side + 1)
  }

  /** Row and column recover the lattice position a flat index was made from, and back. */
  lemma RowColumnOfIndex(side: nat, x: nat, z: nat)
    requires x <= side && z <= side
    ensures Row(side, VertexIndex(side, x, z)) == x
    ensures Column(side, VertexIndex(side, x, z)) == z
  {
    DivModOfFlat(x, z, side + 1);
  }

  /** The reference contents of vertex slot `i`. */
  function VertexAt(side: nat, length: int, i: nat): Vertex
    requires i < (side + 1) * (side + 1)
  {
    GridVertex(side, length, Row(side, i), Column(side, i))
  }

  /** The reference contents of UV slot `i`. */
  function UVAt(side: nat, i: nat): UV
    requires i < (side + 1) * (side + 1)
  {
    GridUV(side, Row(side, i), Column(side, i))
  }

  /** The first loop of `CreateWaterSurface`: fills the vertex, UV and tangent arrays in
      flat-index order, row by row. */
  method BuildVertices(side: nat, length: int) returns (vertices: seq<Vertex>, uvs: seq<UV>, tangents: seq<Tangent>)
    ensures |vertices| == |uvs| == |tangents| == (side + 1) * (side + 1)
    ensures forall i :: 0 <= i < |vertices| ==> vertices[i] == VertexAt(side, length, i)
    ensures forall i :: 0 <= i < |uvs| ==> uvs[i] == UVAt(side, i)
    ensures forall i :: 0 <= i < |tangents| ==> tangents[i] == SurfaceTangent
  {
    vertices, uvs, tangents := [], [], [];
    var n := (side + 1) * (side + 1);
    var i, x := 0, 0;
    while x <= side
      invariant 0 <= x <= side + 1
      invariant i == x * (side + 1) == |vertices| == |uvs| == |tangents|
      invariant i <= n
      invariant forall j :: 0 <= j < i ==> vertices[j] == VertexAt(side, length, j)
      invariant forall j :: 0 <= j < i ==> uvs[j] == UVAt(side, j)
      invariant forall j :: 0 <= j < i ==> tangents[j] == SurfaceTangent
    {
      var z := 0;
      FlatBelow(x, side, side + 1, side + 1);
      while z <= side
        invariant 0 <= z <= side + 1
        invariant i == x * (side + 1) + z == |vertices| == |uvs| == |tangents|
        invariant i <= n
        invariant forall j :: 0 <= j < i ==> vertices[j] == VertexAt(side, length, j)
        invariant forall j :: 0 <= j < i ==> uvs[j] == UVAt(side, j)
        invariant forall j :: 0 <= j < i ==> tangents[j] == SurfaceTangent
      {
        assert i == VertexIndex(side, x, z);
        RowColumnOfIndex(side, x, z);
        vertices := vertices + [GridVertex(side, length, x, z)];
        uvs := uvs + [GridUV(side, x, z)];
        tangents := tangents + [SurfaceTangent];
        z, i := z + 1, i + 1;
      }
      assert i == (x + 1) * (side + 1);
      x := x + 1;
    }
  }

  /** UVs lie in the unit square, running from `(0, 0)` at the first lattice corner to
      `(1, 1)` at the opposite one. */
  lemma UVInUnitSquare(side: nat, x: nat, z: nat)
    requires 0 < side && x <= side && z <= side
    ensures var c := GridUV(side, x, z);
      c.u.Num? && c.v.Num? && 0.0 <= c.u.value <= 1.0 && 0.0 <= c.v.value <= 1.0
    ensures GridUV(side, 0, 0) == UV(Num(0.0), Num(0.0))
    ensures GridUV(side, side, side) == UV(Num(1.0), Num(1.0))
  {
    assert side as real / side as real == 1.0;
  }

  /** One lattice coordinate spans `[-length / 2, length / 2]`: row 0 sits on the low edge,
      row `side` on the high edge, and rows `i` and `side - i` mirror each other. */
  lemma SpanCentred(side: nat, length: int, i: nat)
    requires 0 < side && i <= side && 0 <= length
    ensures var c := Span(Ratio(i, side), length);
      c.Num? && -(length as real) / 2.0 <= c.value <= length as real / 2.0
    ensures Span(Ratio(0, side), length) == Num(-(length as real) / 2.0)
    ensures Span(Ratio(side, side), length) == Num(length as real / 2.0)
    ensures Span(Ratio(side - i, side), length).value == -Span(Ratio(i, side), length).value
  {
    SpanWithinLength(side, length, i);
    assert side as real / side as real == 1.0;
    SpanMirrored(side, length, i);
  }

  /** A lattice coordinate lies within half the length of the centre. */
  lemma SpanWithinLength(side: nat, length: int, i: nat)
    requires 0 < side && i <= side && 0 <= length
    ensures var c := Span(Ratio(i, side), length);
      c.Num? && -(length as real) / 2.0 <= c.value <= length as real / 2.0
  {
    var L, t := length as real, i as real / side as real;
    assert Ratio(i, side) == Num(t) && 0.0 <= t <= 1.0;
    ScaleWithinUnit(L, t);
    assert 0.0 <= t * L <= L;
    assert Span(Ratio(i, side), length) == Num(t * L - L / 2.0);
  }

  /** Rows `i` and `side - i` sit at mirrored coordinates. */
  lemma SpanMirrored(side: nat, length: int, i: nat)
    requires 0 < side && i <= side
    ensures Span(Ratio(side - i, side), length).value == -Span(Ratio(i, side), length).value
  {
    var L, t := length as real, i as real / side as real;
    assert (side - i) as real == side as real - i as real;
    ComplementRatio(side as real, i as real);
    MirrorSpan(L, t);
  }

  /** `(s - i) / s == 1 - i / s` for a positive `s`. */
  lemma ComplementRatio(s: real, i: real)
    requires 0.0 < s
    ensures (s - i) / s == 1.0 - i / s
  {
    var t, u := i / s, (s - i) / s;
    assert t * s == i && u * s == s - i;
    var d := u - (1.0 - t);
    assert d * s == 0.0;
    assert d == 0.0;
  }

  /** Ratios `t` and `1 - t` land on mirrored coordinates. */
  lemma MirrorSpan(length: real, t: real)
    ensures (1.0 - t) * length - length / 2.0 == -(t * length - length / 2.0)
  {
    assert (1.0 - t) * length == length - t * length;
  }

  /** The surface is centred on the origin at height 0: for a non-negative `length` every
      vertex lies in `[-length / 2, length / 2]` on x and on z, and mirrored rows are
      mirrored in position. */
  lemma VerticesCentred(side: nat, length: int, x: nat, z: nat)
    requires 0 < side && x <= side && z <= side && 0 <= length
    ensures var v := GridVertex(side, length, x, z);
      && v.y == 0.0
      && v.x.Num? && -(length as real) / 2.0 <= v.x.value <= length as real / 2.0
      && v.z.Num? && -(length as real) / 2.0 <= v.z.value <= length as real / 2.0
    ensures GridVertex(side, length, 0, z).x == Num(-(length as real) / 2.0)
    ensures GridVertex(side, length, side, z).x == Num(length as real / 2.0)
    ensures GridVertex(side, length, side - x, z).x.value == -GridVertex(side, length, x, z).x.value
  {
    SpanCentred(side, length, x);
    SpanCentred(side, length, z);
  }

  /** With no quads (`side == 0`) the single vertex is computed as `0 / 0`. */
  lemma EmptyLatticeIsNaN(length: int)
    ensures GridVertex(0, length, 0, 0) == Vertex(NaN, 0.0, NaN)
    ensures GridUV(0, 0, 0) == UV(NaN, NaN)
  {
  }

  // ---------------------------------------------------------------------------------------
  // The index buffer

  /** Offsets from a quad's base vertex of the six indices written for it: the triangles
      `(base, base + 1, base + side + 2)` and `(base, base + side + 2, base + side + 1)`. */
  function CornerOffset(side: nat, k: nat): nat
    requires k < 6
  {
    if k == 0 || k == 3 then 0
    else if k == 1 then 1
    else if k == 2 || k == 4 then side + 2
    else side + 1
  }

  /** Base vertex of quad `q`: the second loop visits quads in row-major order and its
      `verIndex` skips one extra vertex at the end of each row. */
  function QuadBase(side: nat, q: nat): (b: nat)
    requires 0 < side && q < side * side
    ensures b == q + q / side
  {
    RowBelow(q, side, side);
    VertexIndex(side, q / side, q % side)
  }

  /** The reference contents of index-buffer slot `j`. */
  function TriangleSlot(side: nat, j: nat): int
    requires j < 6 * (side * side)
  {
    RowBelow(j, 6, side * side);
    QuadBase(side, j / 6) + CornerOffset(side, j % 6)
  }

  /** Every index-buffer entry names an existing vertex. */
  lemma TriangleSlotInRange(side: nat, j: nat)
    requires j < 6 * (side * side)
    ensures 0 <= TriangleSlot(side, j) < (side + 1) * (side + 1)
  {
    RowBelow(j, 6, side * side);
    var q := j / 6;
    RowBelow(q, side, side);
    assert (side + 1) * (side + 1) == side * side + 2 * side + 1;
  }

  /** Quad `(x, z)` is covered by two triangles sharing the diagonal from its base vertex
      `b` (lattice `(x, z)`) to `b + side + 2` (lattice `(x + 1, z + 1)`):
      `(x, z), (x, z + 1), (x + 1, z + 1)` and `(x, z), (x + 1, z + 1), (x + 1, z)`. */
  lemma QuadTriangles(side: nat, x: nat, z: nat)
    requires x < side && z < side
    ensures var q, b := x * side + z, VertexIndex(side, x, z);
      && 6 * q + 5 < 6 * (side * side)
      && TriangleSlot(side, 6 * q) == b
      && TriangleSlot(side, 6 * q + 1) == b + 1
      && TriangleSlot(side, 6 * q + 2) == b + side + 2
      && TriangleSlot(side, 6 * q + 3) == b
      && TriangleSlot(side, 6 * q + 4) == b + side + 2
      && TriangleSlot(side, 6 * q + 5) == b + side + 1
      && b + 1 == VertexIndex(side, x, z + 1)
      && b + side + 2 == VertexIndex(side, x + 1, z + 1)
      && b + side + 1 == VertexIndex(side, x + 1, z)
  {
    var q := x * side + z;
    FlatBelow(x, z, side, side);
    DivModOfFlat(x, z, side);
    DivModOfFlat(q, 0, 6);
    DivModOfFlat(q, 1, 6);
    DivModOfFlat(q, 2, 6);
    DivModOfFlat(q, 3, 6);
    DivModOfFlat(q, 4, 6);
    DivModOfFlat(q, 5, 6);
    assert (x + 1) * (side + 1) == x * (side + 1) + side + 1;
  }

  /** `want` is the reference index buffer: slot `j` holds `TriangleSlot(side, j)`. The
      trigger keeps the loops below from unfolding the reference slot by slot. */
  ghost predicate IsTriangleReference(want: seq<int>, side: nat) {
    && |want| == 6 * (side * side)
    && forall j {:trigger TriangleSlot(side, j)} :: 0 <= j < |want| ==> want[j] == TriangleSlot(side, j)
  }

  /** The second loop of `CreateWaterSurface`: for each quad, six consecutive index-buffer
      slots starting at `triIndex`, which advances by 6 per quad. The ghost `writes` counts
      the assignments each slot receives. */
  method BuildTriangles(side: nat) returns (triangles: seq<int>, ghost writes: seq<nat>)
    ensures |triangles| == |writes| == 6 * (side * side)
    ensures forall j :: 0 <= j < |triangles| ==> triangles[j] == TriangleSlot(side, j)
    ensures forall j :: 0 <= j < |triangles| ==> 0 <= triangles[j] < (side + 1) * (side + 1)
    ensures forall j :: 0 <= j < |writes| ==> writes[j] == 1
  {
    var n := 6 * (side * side);
    ghost var want := seq(n, j requires 0 <= j < n => TriangleSlot(side, j));
    var ta := new int[n](_ => 0);
    writes := seq(n, _ => 0);
    var triIndex, verIndex, x := 0, 0, 0;
    while x < side
      invariant 0 <= x <= side
      invariant triIndex == 6 * (x * side) <= n
      invariant verIndex == x * (side + 1)
      invariant |writes| == n
      invariant forall j :: 0 <= j < triIndex ==> ta[j] == want[j]
      invariant forall j :: 0 <= j < triIndex ==> writes[j] == 1
      invariant forall j :: triIndex <= j < n ==> writes[j] == 0
    {
      triIndex, verIndex, writes := FillRow(ta, side, x, triIndex, verIndex, want, writes);
      verIndex, x := verIndex + 1, x + 1;
    }
    triangles := ta[..];
    forall j | 0 <= j < |triangles|
      ensures 0 <= triangles[j] < (side + 1) * (side + 1)
    {
      TriangleSlotInRange(side, j);
    }
  }

  /** The six reference slots of quad `(x, z)`: its base vertex plus the corner offsets. */
  lemma QuadSlots(want: seq<int>, side: nat, x: nat, z: nat)
    requires x < side && z < side && IsTriangleReference(want, side)
    ensures 6 * (x * side + z) + 6 <= |want|
    ensures forall k :: 0 <= k < 6 ==>
      want[6 * (x * side + z) + k] == VertexIndex(side, x, z) + CornerOffset(side, k)
  {
    QuadTriangles(side, x, z);
    var t := 6 * (x * side + z);
    assert want[t] == TriangleSlot(side, t);
    assert want[t + 1] == TriangleSlot(side, t + 1);
    assert want[t + 2] == TriangleSlot(side, t + 2);
    assert want[t + 3] == TriangleSlot(side, t + 3);
    assert want[t + 4] == TriangleSlot(side, t + 4);
    assert want[t + 5] == TriangleSlot(side, t + 5);
  }

  /** The inner loop of the index-buffer pass: the `side` quads of lattice row `x`. */
  method FillRow(ta: array<int>, side: nat, x: nat, triIndex0: nat, verIndex0: int,
                 ghost want: seq<int>, ghost writes0: seq<nat>)
    returns (triIndex: nat, verIndex: int, ghost writes: seq<nat>)
    requires x < side && IsTriangleReference(want, side)
    requires ta.Length == |writes0| == |want|
    requires triIndex0 == 6 * (x * side) && verIndex0 == x * (side + 1)
    requires forall j :: 0 <= j < triIndex0 ==> ta[j] == want[j]
    requires forall j :: 0 <= j < triIndex0 ==> writes0[j] == 1
    requires forall j :: triIndex0 <= j < ta.Length ==> writes0[j] == 0
    modifies ta
    ensures triIndex == 6 * ((x + 1) * side) <= ta.Length
    ensures verIndex == x * (side + 1) + side
    ensures |writes| == ta.Length
    ensures forall j :: 0 <= j < triIndex ==> ta[j] == want[j]
    ensures forall j :: 0 <= j < triIndex ==> writes[j] == 1
    ensures forall j :: triIndex <= j < ta.Length ==> writes[j] == 0
  {
    var rowStart := x * side;
    triIndex, verIndex, writes := triIndex0, verIndex0, writes0;
    var z := 0;
    QuadSlots(want, side, x, 0);
    while z < side
      invariant 0 <= z <= side
      invariant triIndex == 6 * (rowStart + z) <= ta.Length
      invariant verIndex == verIndex0 + z
      invariant |writes| == ta.Length
      invariant forall j :: 0 <= j < triIndex ==> ta[j] == want[j]
      invariant forall j :: 0 <= j < triIndex ==> writes[j] == 1
      invariant forall j :: triIndex <= j < ta.Length ==> writes[j] == 0
    {
      QuadSlots(want, side, x, z);
      writes := FillQuad(ta, side, triIndex, verIndex, want, writes);
      triIndex, verIndex, z := triIndex + 6, verIndex + 1, z + 1;
    }
    QuadSlots(want, side, x, side - 1);
    assert rowStart + side == (x + 1) * side;
  }

  /** One pass of the inner loop: the quad whose six reference slots start at `triIndex`
      is written, so the slots before `triIndex + 6` are complete and written once each. */
  method FillQuad(ta: array<int>, side: nat, triIndex: nat, verIndex: int,
                  ghost want: seq<int>, ghost writes0: seq<nat>)
    returns (ghost writes: seq<nat>)
    requires ta.Length == |writes0| == |want| && triIndex + 6 <= ta.Length
    requires forall k :: 0 <= k < 6 ==> want[triIndex + k] == verIndex + CornerOffset(side, k)
    requires forall j :: 0 <= j < triIndex ==> ta[j] == want[j]
    requires forall j :: 0 <= j < triIndex ==> writes0[j] == 1
    requires forall j :: triIndex <= j < ta.Length ==> writes0[j] == 0
    modifies ta
    ensures |writes| == ta.Length
    ensures forall j :: 0 <= j < triIndex + 6 ==> ta[j] == want[j]
    ensures forall j :: 0 <= j < triIndex + 6 ==> writes[j] == 1
    ensures forall j :: triIndex + 6 <= j < ta.Length ==> writes[j] == 0
  {
    WriteQuad(ta, triIndex, verIndex, side);
    forall j | triIndex <= j < triIndex + 6
      ensures ta[j] == want[j]
    {
      var k := j - triIndex;
      assert ta[j] == verIndex + CornerOffset(side, k) == want[j];
    }
    writes := CountQuadWrites(writes0, triIndex);
  }

  /** The write counts after one more quad: slots `lo .. lo + 5` gain one write. */
  ghost function CountQuadWrites(writes: seq<nat>, lo: nat): (r: seq<nat>)
    requires lo + 6 <= |writes|
    ensures |r| == |writes|
    ensures forall j :: 0 <= j < |r| ==> r[j] == if lo <= j < lo + 6 then writes[j] + 1 else writes[j]
  {
    seq(|writes|, j requires 0 <= j < |writes| => if lo <= j < lo + 6 then writes[j] + 1 else writes[j])
  }

  /** The body of the inner loop: the six indices of the quad whose base vertex is `verIndex`,
      written to slots `triIndex .. triIndex + 5` and nowhere else. */
  method WriteQuad(ta: array<int>, triIndex: nat, verIndex: int, side: nat)
    requires triIndex + 6 <= ta.Length
    modifies ta
    ensures forall k :: 0 <= k < 6 ==> ta[triIndex + k] == verIndex + CornerOffset(side, k)
    ensures forall j :: 0 <= j < ta.Length && !(triIndex <= j < triIndex + 6) ==> ta[j] == old(ta[j])
  {
    ta[triIndex] := verIndex;
    ta[triIndex + 1] := verIndex + 1;
    ta[triIndex + 2] := verIndex + side + 2;
    ta[triIndex + 3] := verIndex;
    ta[triIndex + 4] := verIndex + side + 2;
    ta[triIndex + 5] := verIndex + side + 1;
  }

  /** `CreateWaterSurface`: sizes the arrays from `waterMeshLength` and `waterMeshRes` and
      fills them. A negative `side` (from a negative length or resolution) skips both loops
      and leaves every array zero-filled; lengths whose 32-bit products wrap make the
      allocation or a write throw. */
  method CreateWaterSurface(length: Int32, res: Int32) returns (r: Result<Mesh, MeshError>)
    ensures var side := SideVertCount(length, res);
      r == Failure(NegativeArraySize) <==> VertexArrayLength(side) < 0 || TriangleArrayLength(side) < 0
    ensures var side := SideVertCount(length, res);
      r == Failure(IndexOutOfRange) <==>
        && 0 <= VertexArrayLength(side) && 0 <= TriangleArrayLength(side)
        && 0 <= side && MaxInt32 < 6 * (side * side)
    ensures var side := SideVertCount(length, res);
      r.Success? && side >= 0 ==>
        && |r.value.vertices| == |r.value.uv| == |r.value.tangents| == (side + 1) * (side + 1)
        && |r.value.triangles| == 6 * (side * side)
        && (forall i :: 0 <= i < |r.value.vertices| ==> r.value.vertices[i] == VertexAt(side, length, i))
        && (forall i :: 0 <= i < |r.value.uv| ==> r.value.uv[i] == UVAt(side, i))
        && (forall i :: 0 <= i < |r.value.tangents| ==> r.value.tangents[i] == SurfaceTangent)
        && (forall j :: 0 <= j < |r.value.triangles| ==> r.value.triangles[j] == TriangleSlot(side, j))
        && (forall j :: 0 <= j < |r.value.triangles| ==>
              0 <= r.value.triangles[j] < |r.value.vertices|)
    ensures var side := SideVertCount(length, res);
      r.Success? && side < 0 ==>
        && |r.value.vertices| == |r.value.uv| == |r.value.tangents| == VertexArrayLength(side)
        && |r.value.triangles| == TriangleArrayLength(side)
        && (forall i :: 0 <= i < |r.value.vertices| ==> r.value.vertices[i] == DefaultVertex)
        && (forall i :: 0 <= i < |r.value.uv| ==> r.value.uv[i] == DefaultUV)
        && (forall i :: 0 <= i < |r.value.tangents| ==> r.value.tangents[i] == DefaultTangent)
        && (forall j :: 0 <= j < |r.value.triangles| ==> r.value.triangles[j] == 0)
  {
    var side: int := SideVertCount(length, res);
    var vLen, tLen := VertexArrayLength(side), TriangleArrayLength(side);
    if vLen < 0 || tLen < 0 {
      return Failure(NegativeArraySize);
    }
    if side < 0 {
      var vs := seq(vLen, _ => DefaultVertex);
      var us := seq(vLen, _ => DefaultUV);
      var ts := seq(vLen, _ => DefaultTangent);
      var tris := seq(tLen, _ => 0);
      return Success(Mesh(vs, us, ts, tris));
    }
    LatticeSizes(side);
    if MaxInt32 < 6 * (side * side) {
      return Failure(IndexOutOfRange);
    }
    var vertices, uvs, tangents := BuildVertices(side, length);
    var triangles, _ := BuildTriangles(side);
    return Success(Mesh(vertices, uvs, tangents, triangles));
  }

  /** For a non-negative `side`, the wrapped allocation lengths are the true ones exactly when
      the index buffer length fits in an `int` (the vertex count is then smaller). */
  lemma LatticeSizes(side: int)
    requires 0 <= side <= 21474836
    requires 0 <= VertexArrayLength(side) && 0 <= TriangleArrayLength(side)
    ensures 6 * (side * side) <= MaxInt32 ==>
      VertexArrayLength(side) == (side + 1) * (side + 1) && TriangleArrayLength(side) == 6 * (side * side)
  {
    if 6 * (side * side) <= MaxInt32 {
      if side > 18918 {
        MulMonotone(18919, side, side);
        assert false;
      }
      MulMonotone(side + 1, 18919, side + 1);
      MulMonotone(side + 1, 18919, 18919);
      assert Wrap32(side * side) == side * side;
    }
  }
}
