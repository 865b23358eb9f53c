/** frontend/src/StretchyMap.tsx: the prototype map component. It keeps
    getMesh's flat index list and draws one item per run of three indices,
    scaling positions by the application's width and height. */
module StretchyMap {
  import opened Wrappers
  import opened Dataset
  import opened Mesh
  import opened Springs
  import opened MapBuffers

  function Min(a: int, b: int): int { if a <= b then a else b }

  /** How many runs `for (i = 0; i < len; i += 3)` visits. */
  function ChunkCount(len: nat): nat { (len + 2) / 3 }

  lemma ChunkCountBound(m: nat, len: nat)
    ensures 3 * m < len <==> m < ChunkCount(len)
  {
  }

  /** `triangleIndices.slice(3k, 3k + 3)`: three indices, or fewer at the
      end of a list whose length is not a multiple of three. */
  function Chunk(s: seq<int>, k: nat): (c: seq<int>)
    requires 3 * k <= |s|
    ensures |c| == Min(3, |s| - 3 * k)
    ensures forall j :: 0 <= j < |c| ==> c[j] == s[3 * k + j]
  {
    s[3 * k..Min(3 * k + 3, |s|)]
  }

  /** The item drawn for run k. */
  function ChunkMesh(meshState: seq<Vertex>, s: seq<int>, flatUvs: seq<real>, k: nat, appWidth: real, appHeight: real): TriangleMesh
    requires CornersIn(s, meshState, flatUvs) && k < ChunkCount(|s|)
  {
    ChunkCountBound(k, |s|);
    Gather(meshState, flatUvs, Chunk(s, k), appWidth, appHeight)
  }

  /** What `createMesh` draws: one item per run of three indices. */
  function StretchyMeshes(meshState: seq<Vertex>, s: seq<int>, flatUvs: seq<real>, appWidth: real, appHeight: real): seq<TriangleMesh>
    requires CornersIn(s, meshState, flatUvs)
  {
    seq(ChunkCount(|s|), k requires 0 <= k < ChunkCount(|s|) => ChunkMesh(meshState, s, flatUvs, k, appWidth, appHeight))
  }

  /** `createMesh`: walks the index list three at a time, gathering the
      positions (x scaled by the width, y by the height) and texture
      coordinates of each run. */
  method CreateMesh(meshState: seq<Vertex>, triangleIndices: seq<int>, flatUvs: seq<real>, appWidth: real, appHeight: real)
    returns (meshes: seq<TriangleMesh>)
    requires CornersIn(triangleIndices, meshState, flatUvs)
    ensures meshes == StretchyMeshes(meshState, triangleIndices, flatUvs, appWidth, appHeight)
  {
    meshes := [];
    var i := 0;
    while i < |triangleIndices|
      invariant i == 3 * |meshes| && |meshes| <= ChunkCount(|triangleIndices|)
      invariant forall k :: 0 <= k < |meshes| ==>
        meshes[k] == ChunkMesh(meshState, triangleIndices, flatUvs, k, appWidth, appHeight)
      decreases |triangleIndices| - i
    {
      ChunkCountBound(|meshes|, |triangleIndices|);
      var curIndices := triangleIndices[i..Min(i + 3, |triangleIndices|)];
      assert curIndices == Chunk(triangleIndices, |meshes|);
      meshes := meshes + [Gather(meshState, flatUvs, curIndices, appWidth, appHeight)];
      i := i + 3;
    }
    ChunkCountBound(|meshes|, |triangleIndices|);
  }

  /** Every index of a flattened triangle list is a corner of one of its
      triangles. */
  lemma FlattenedCornersIn(ts: seq<Triangle>, meshState: seq<Vertex>, flatUvs: seq<real>)
    requires TrianglesIn(ts, meshState, flatUvs)
    ensures CornersIn(Flatten(ts), meshState, flatUvs)
  {
    FlattenLength(ts);
    forall j | 0 <= j < |Flatten(ts)|
      ensures 0 <= Flatten(ts)[j] < |meshState| && 2 * Flatten(ts)[j] + 1 < |flatUvs|
    {
      var t := j / 3;
      FlattenAt(ts, t);
      assert CornersIn(Corners3(ts[t]), meshState, flatUvs);
      assert j == 3 * t || j == 3 * t + 1 || j == 3 * t + 2;
    }
  }

  /** On a flattened triangle list, run k is exactly triangle k: createMesh
      draws one item per triangle, with that triangle's corners. */
  lemma {:induction false} MeshesFollowTriangles(meshState: seq<Vertex>, ts: seq<Triangle>, flatUvs: seq<real>, appWidth: real, appHeight: real)
    requires TrianglesIn(ts, meshState, flatUvs)
    ensures CornersIn(Flatten(ts), meshState, flatUvs)
    ensures var items := StretchyMeshes(meshState, Flatten(ts), flatUvs, appWidth, appHeight);
      |items| == |ts| &&
      forall k :: 0 <= k < |ts| ==> items[k] == Gather(meshState, flatUvs, Corners3(ts[k]), appWidth, appHeight)
  {
    FlattenedCornersIn(ts, meshState, flatUvs);
    FlattenLength(ts);
    var s := Flatten(ts);
    assert ChunkCount(|s|) == |ts|;
    forall k | 0 <= k < |ts|
      ensures Chunk(s, k) == Corners3(ts[k])
    {
      FlattenAt(ts, k);
    }
  }

  /** For getMesh's triangles the prototype draws 2(n-1)^2 items, the k-th
      with the corners of triangle k. */
  lemma GridMeshCount(n: int, meshState: seq<Vertex>, flatUvs: seq<real>, appWidth: real, appHeight: real)
    requires n >= 2 && TrianglesIn(Triangles(n), meshState, flatUvs)
    ensures CornersIn(Flatten(Triangles(n)), meshState, flatUvs)
    ensures |StretchyMeshes(meshState, Flatten(Triangles(n)), flatUvs, appWidth, appHeight)| == 2 * ((n - 1) * (n - 1))
  {
    MeshesFollowTriangles(meshState, Triangles(n), flatUvs, appWidth, appHeight);
    TriangleCount(n);
  }

  /** The prototype's constant data: getMesh's flat index list instead of
      triangle triples, and untagged springs. */
  datatype StretchyGridData = StretchyGridData(
    grid: seq<seq<GridEntry>>,
    initialPositions: seq<Vertex>,
    triangleIndices: seq<int>,
    springs: seq<Spring>,
    flatUvs: seq<real>)

  function StretchyBuffersOf(n: int, routeSprings: seq<Spring>): StretchyGridData
    requires n >= 2
  {
    var b := BuffersOf(n, routeSprings);
    StretchyGridData(b.grid, b.initialPositions, Flatten(b.triangles), b.springs, b.flatUvs)
  }

  /** `getConstantGridData` of the prototype. */
  function GetConstantGridData(gd: GridData, sph: SphericalDistance): Result<StretchyGridData, SpringError>
    requires gd.size >= 2
  {
    match RouteMatrixToSprings(gd, sph)
    case Failure(err) => Failure(err)
    case Success(routeSprings) => Success(StretchyBuffersOf(gd.size, routeSprings))
  }

  /** The prototype's buffers are the shared ones with the triangle list
      flattened, and any state of at least M vertices can be drawn from
      them. */
  lemma StretchyBuffersLayout(n: int, routeSprings: seq<Spring>, meshState: seq<Vertex>)
    requires n >= 2 && |meshState| >= n * n
    ensures var c := StretchyBuffersOf(n, routeSprings);
      var b := BuffersOf(n, routeSprings);
      c.triangleIndices == Flatten(Triangles(n)) &&
      c.grid == b.grid && c.initialPositions == b.initialPositions && c.springs == b.springs && c.flatUvs == b.flatUvs &&
      CornersIn(c.triangleIndices, meshState, c.flatUvs)
  {
    BuffersLayout(n, routeSprings);
    var b := BuffersOf(n, routeSprings);
    forall k | 0 <= k < |Triangles(n)|
      ensures CornersIn(Corners3(Triangles(n)[k]), meshState, b.flatUvs)
    {
      TriangleCornersInGrid(n, k);
    }
    FlattenedCornersIn(Triangles(n), meshState, b.flatUvs);
  }
}
