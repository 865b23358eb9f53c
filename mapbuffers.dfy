/** The buffers that the three map components (frontend/src/SpacetimeMap.tsx,
    frontend/src/StretchyMap.tsx and frontend/src/components/SpacetimeMap.tsx)
    build in the same way from `getMesh` and `routeMatrixToSprings`: the
    flattened grid, the position buffer of M free vertices followed by their
    M pinned twins, the anchor springs tying each vertex to its twin, the
    flat texture-coordinate buffer, and the per-triangle gathering of
    vertex and texture coordinates. */
module MapBuffers {
  import opened Wrappers
  import opened Dataset
  import opened Mesh
  import opened Springs
  import opened Sequences

  datatype Point = Point(x: real, y: real)

  /** The vertex and texture coordinates of one drawn triangle. */
  datatype TriangleMesh = TriangleMesh(vertices: seq<real>, uvs: seq<real>)

  // ---------------------------------------------------------------------
  // grid.flat() is `Sequences.Concat`

  /** The flattened `getMesh` grid holds, at position i, the entry whose
      index is i: buffer positions and mesh indices agree. */
  lemma FlatMeshGrid(n: int)
    requires n >= 2
    ensures |Concat(MeshGrid(n))| == n * n
    ensures forall i :: 0 <= i < n * n ==>
      Concat(MeshGrid(n))[i] == Entry(n, i / n, i % n) && Concat(MeshGrid(n))[i].index == i
  {
    GridShape(n);
    ConcatOfRows(MeshGrid(n), n);
    forall i | 0 <= i < n * n
      ensures Concat(MeshGrid(n))[i] == Entry(n, i / n, i % n) && Concat(MeshGrid(n))[i].index == i
    {
      RowMajorBounds(n, i);
      assert Concat(MeshGrid(n))[(i / n) * n + i % n] == MeshGrid(n)[i / n][i % n];
    }
  }

  // ---------------------------------------------------------------------
  // Positions, anchors, texture coordinates

  /** The free copy of every entry, then the pinned copy. */
  function InitialPositions(flat: seq<GridEntry>): seq<Vertex> {
    seq(|flat|, i requires 0 <= i < |flat| => Vertex(flat[i].x, flat[i].y, false)) +
    seq(|flat|, i requires 0 <= i < |flat| => Vertex(flat[i].x, flat[i].y, true))
  }

  /** The buffer has 2M entries; entry i is free, entry i + M is pinned, and
      the two carry the coordinates of grid entry i. */
  lemma InitialPositionsLayout(flat: seq<GridEntry>)
    ensures |InitialPositions(flat)| == 2 * |flat|
    ensures forall i :: 0 <= i < |flat| ==>
      InitialPositions(flat)[i] == Vertex(flat[i].x, flat[i].y, false) &&
      InitialPositions(flat)[i + |flat|] == Vertex(flat[i].x, flat[i].y, true)
  {
  }

  /** Spring i ties vertex i to its pinned twin i + m, with rest length 0 and
      strength 1. */
  function AnchorSprings(m: nat): seq<Spring> {
    seq(m, i => Spring(i, i + m, 0.0, 1.0))
  }

  /** `grid.flat().map(e => [e.uvX, e.uvY]).flat()`. */
  function FlatUvs(flat: seq<GridEntry>): seq<real> {
    if |flat| == 0 then [] else FlatUvs(flat[..|flat| - 1]) + [flat[|flat| - 1].uvX, flat[|flat| - 1].uvY]
  }

  lemma {:induction false} FlatUvsAt(flat: seq<GridEntry>)
    ensures |FlatUvs(flat)| == 2 * |flat|
    ensures forall i :: 0 <= i < |flat| ==>
      FlatUvs(flat)[2 * i] == flat[i].uvX && FlatUvs(flat)[2 * i + 1] == flat[i].uvY
  {
    if |flat| > 0 {
      FlatUvsAt(flat[..|flat| - 1]);
    }
  }

  /** The resting position buffer and texture buffer of a grid of size n. */
  function RestPositions(n: int): seq<Vertex>
    requires n >= 2
  {
    InitialPositions(Concat(MeshGrid(n)))
  }

  function RestUvs(n: int): seq<real>
    requires n >= 2
  {
    FlatUvs(Concat(MeshGrid(n)))
  }

  /** The first m positions sit at their texture coordinates. */
  predicate AtUvs(ps: seq<Vertex>, uvs: seq<real>, m: int) {
    |ps| >= m && |uvs| >= 2 * m &&
    forall t :: 0 <= t < m ==> ps[t].x == uvs[2 * t] && ps[t].y == uvs[2 * t + 1]
  }

  /** In the resting buffers every vertex, free or pinned, sits at its own
      texture coordinate: before any step the map is drawn undistorted. */
  lemma RestPositionsAreUvs(n: int)
    requires n >= 2
    ensures |RestPositions(n)| == 2 * (n * n) && |RestUvs(n)| == 2 * (n * n)
    ensures forall t :: 0 <= t < n * n ==>
      RestPositions(n)[t].x == RestUvs(n)[2 * t] && RestPositions(n)[t].y == RestUvs(n)[2 * t + 1] &&
      RestPositions(n)[t + n * n].x == RestUvs(n)[2 * t] && RestPositions(n)[t + n * n].y == RestUvs(n)[2 * t + 1]
  {
    var flat := Concat(MeshGrid(n));
    FlatMeshGrid(n);
    FlatUvsAt(flat);
    InitialPositionsLayout(flat);
  }

  lemma RestAtUvs(n: int)
    requires n >= 2
    ensures AtUvs(RestPositions(n), RestUvs(n), n * n)
  {
    RestPositionsAreUvs(n);
  }

  // ---------------------------------------------------------------------
  // The constant grid data of SpacetimeMap.tsx and StretchyMap.tsx

  datatype ConstantGridData = ConstantGridData(
    grid: seq<seq<GridEntry>>,
    initialPositions: seq<Vertex>,
    triangles: seq<Triangle>,
    springs: seq<Spring>,
    flatUvs: seq<real>)

  /** `getConstantGridData`: the mesh of the dataset's size, the 2M position
      buffer, the anchor springs followed by the route springs, and the flat
      texture coordinates. It fails where `routeMatrixToSprings` throws. */
  function ConstantGridDataOf(gd: GridData, sph: SphericalDistance): Result<ConstantGridData, SpringError>
    requires gd.size >= 2
  {
    match RouteMatrixToSprings(gd, sph)
    case Failure(err) => Failure(err)
    case Success(routeSprings) => Success(BuffersOf(gd.size, routeSprings))
  }

  /** The buffers for a grid of size n, given the route springs. */
  function BuffersOf(n: int, routeSprings: seq<Spring>): ConstantGridData
    requires n >= 2
  {
    var grid := MeshGrid(n);
    var flat := Concat(grid);
    ConstantGridData(grid, InitialPositions(flat), Triangles(n), AnchorSprings(|flat|) + routeSprings, FlatUvs(flat))
  }

  /** The layout of the buffers: M = n^2 vertices, the free half then the
      pinned half, M anchors i -> i + M before the route springs, and two
      texture coordinates per vertex; position and texture coordinates of
      vertex i are those of grid column i / n and row i % n. */
  lemma BuffersLayout(n: int, routeSprings: seq<Spring>)
    requires n >= 2
    ensures var m := n * n;
      var c := BuffersOf(n, routeSprings);
      |c.initialPositions| == 2 * m && |c.flatUvs| == 2 * m && |c.springs| == m + |routeSprings| &&
      c.springs[..m] == AnchorSprings(m) && c.springs[m..] == routeSprings &&
      c.grid == MeshGrid(n) && c.triangles == Triangles(n) &&
      forall i :: 0 <= i < m ==>
        c.initialPositions[i] == Vertex(Uv(n, i / n), Uv(n, i % n), false) &&
        c.initialPositions[i + m] == Vertex(Uv(n, i / n), Uv(n, i % n), true) &&
        c.flatUvs[2 * i] == Uv(n, i / n) && c.flatUvs[2 * i + 1] == Uv(n, i % n)
  {
    var flat := Concat(MeshGrid(n));
    FlatMeshGrid(n);
    FlatUvsAt(flat);
    InitialPositionsLayout(flat);
    var c := BuffersOf(n, routeSprings);
    assert c.springs[..n * n] == AnchorSprings(n * n);
    assert c.springs[n * n..] == routeSprings;
  }

  /** When every route spring joins two of the first M vertices, every spring
      of the buffers joins two vertices of the 2M buffer, so the buffers are
      a valid input of a step. */
  lemma BuffersSpringsInRange(n: int, routeSprings: seq<Spring>)
    requires n >= 2 && SpringsWithin(routeSprings, n * n)
    ensures var c := BuffersOf(n, routeSprings);
      SpringsWithin(c.springs, |c.initialPositions|)
  {
    BuffersLayout(n, routeSprings);
    var c := BuffersOf(n, routeSprings);
    var m := n * n;
    forall k | 0 <= k < |c.springs|
      ensures 0 <= c.springs[k].from < 2 * m && 0 <= c.springs[k].to < 2 * m
    {
      if k >= m {
        assert c.springs[k] == routeSprings[k - m];
      } else {
        assert c.springs[k] == AnchorSprings(m)[k];
      }
    }
  }

  /** For a dataset listing at most M locations, the springs of the constant
      grid data fit its position buffer. */
  lemma ConstantGridDataSpringsInRange(gd: GridData, sph: SphericalDistance)
    requires gd.size >= 2 && |gd.locations| <= gd.size * gd.size
    requires ConstantGridDataOf(gd, sph).Success?
    ensures var c := ConstantGridDataOf(gd, sph).value;
      SpringsWithin(c.springs, |c.initialPositions|)
  {
    var routeSprings := RouteMatrixToSprings(gd, sph).value;
    RouteSpringsInRange(gd, sph);
    BuffersSpringsInRange(gd.size, routeSprings);
  }

  // ---------------------------------------------------------------------
  // Gathering the corners of a triangle

  /** Every corner index has a position and a pair of texture coordinates. */
  predicate CornersIn(corners: seq<int>, positions: seq<Vertex>, flatUvs: seq<real>) {
    forall c :: 0 <= c < |corners| ==> 0 <= corners[c] < |positions| && 2 * corners[c] + 1 < |flatUvs|
  }

  /** The corners' positions, x scaled by sx and y by sy. */
  function CornerVertices(positions: seq<Vertex>, corners: seq<int>, sx: real, sy: real): seq<real>
    requires forall c :: 0 <= c < |corners| ==> 0 <= corners[c] < |positions|
  {
    if |corners| == 0 then []
    else
      var p := positions[corners[|corners| - 1]];
      CornerVertices(positions, corners[..|corners| - 1], sx, sy) + [p.x * sx, p.y * sy]
  }

  /** The corners' texture coordinates, read at 2t and 2t + 1. */
  function CornerUvs(flatUvs: seq<real>, corners: seq<int>): seq<real>
    requires forall c :: 0 <= c < |corners| ==> 0 <= corners[c] && 2 * corners[c] + 1 < |flatUvs|
  {
    if |corners| == 0 then []
    else
      var t := corners[|corners| - 1];
      CornerUvs(flatUvs, corners[..|corners| - 1]) + [flatUvs[2 * t], flatUvs[2 * t + 1]]
  }

  function Gather(positions: seq<Vertex>, flatUvs: seq<real>, corners: seq<int>, sx: real, sy: real): TriangleMesh
    requires CornersIn(corners, positions, flatUvs)
  {
    TriangleMesh(CornerVertices(positions, corners, sx, sy), CornerUvs(flatUvs, corners))
  }

  /** Corner c of the gathered item occupies slots 2c and 2c + 1 of both its
      vertex list and its texture list. */
  lemma {:induction false} GatherAt(positions: seq<Vertex>, flatUvs: seq<real>, corners: seq<int>, sx: real, sy: real)
    requires CornersIn(corners, positions, flatUvs)
    ensures var g := Gather(positions, flatUvs, corners, sx, sy);
      |g.vertices| == 2 * |corners| && |g.uvs| == 2 * |corners| &&
      forall c :: 0 <= c < |corners| ==>
        g.vertices[2 * c] == positions[corners[c]].x * sx &&
        g.vertices[2 * c + 1] == positions[corners[c]].y * sy &&
        g.uvs[2 * c] == flatUvs[2 * corners[c]] && g.uvs[2 * c + 1] == flatUvs[2 * corners[c] + 1]
  {
    if |corners| > 0 {
      var front := corners[..|corners| - 1];
      assert CornersIn(front, positions, flatUvs);
      GatherAt(positions, flatUvs, front, sx, sy);
    }
  }

  function Corners3(t: Triangle): seq<int> { [t.a, t.b, t.c] }

  /** Every triangle's corners have positions and texture coordinates. */
  predicate TrianglesIn(triangles: seq<Triangle>, positions: seq<Vertex>, flatUvs: seq<real>) {
    forall k :: 0 <= k < |triangles| ==> CornersIn(Corners3(triangles[k]), positions, flatUvs)
  }

  /** `triangles.map(...)` in `createMesh` / `createMeshTriangles`: one item
      per triangle, positions scaled by `mapSizePx` in both directions. */
  function CreateTriangleMeshes(positions: seq<Vertex>, triangles: seq<Triangle>, flatUvs: seq<real>, mapSizePx: real): seq<TriangleMesh>
    requires TrianglesIn(triangles, positions, flatUvs)
  {
    seq(|triangles|, k requires 0 <= k < |triangles| =>
      Gather(positions, flatUvs, Corners3(triangles[k]), mapSizePx, mapSizePx))
  }

  lemma TriangleCornersInGrid(n: int, k: int)
    requires n >= 2 && 0 <= k < |Triangles(n)|
    ensures forall c :: 0 <= c < 3 ==> 0 <= Corners3(Triangles(n)[k])[c] < n * n
  {
    AllTriangles(n, k);
  }

  /** The mesh triangles fit the resting buffers of a grid. */
  lemma MeshTrianglesInBuffers(n: int)
    requires n >= 2
    ensures TrianglesIn(Triangles(n), RestPositions(n), RestUvs(n))
  {
    RestPositionsAreUvs(n);
    forall k | 0 <= k < |Triangles(n)|
      ensures CornersIn(Corners3(Triangles(n)[k]), RestPositions(n), RestUvs(n))
    {
      TriangleCornersInGrid(n, k);
    }
  }

  /** When each corner's position equals its texture coordinates, the
      gathered vertex coordinates are the gathered texture coordinates times
      the scale. */
  lemma {:induction false} GatherMatchesUvs(ps: seq<Vertex>, uvs: seq<real>, corners: seq<int>, scale: real)
    requires CornersIn(corners, ps, uvs)
    requires forall c :: 0 <= c < |corners| ==>
      ps[corners[c]].x == uvs[2 * corners[c]] && ps[corners[c]].y == uvs[2 * corners[c] + 1]
    ensures var g := Gather(ps, uvs, corners, scale, scale);
      |g.vertices| == |g.uvs| == 2 * |corners| &&
      forall j :: 0 <= j < |g.vertices| ==> g.vertices[j] == g.uvs[j] * scale
  {
    if |corners| > 0 {
      var front := corners[..|corners| - 1];
      assert CornersIn(front, ps, uvs);
      GatherMatchesUvs(ps, uvs, front, scale);
    }
  }

  /** Drawn from the resting buffers, every triangle item carries vertex
      coordinates equal to its texture coordinates times `mapSizePx`: the
      map is shown undistorted before any step. */
  lemma RestMeshIsUndistorted(n: int, mapSizePx: real)
    requires n >= 2
    ensures TrianglesIn(Triangles(n), RestPositions(n), RestUvs(n))
    ensures var items := CreateTriangleMeshes(RestPositions(n), Triangles(n), RestUvs(n), mapSizePx);
      |items| == |Triangles(n)| &&
      forall k :: 0 <= k < |items| ==>
        |items[k].vertices| == 6 && |items[k].uvs| == 6 &&
        forall j :: 0 <= j < 6 ==> items[k].vertices[j] == items[k].uvs[j] * mapSizePx
  {
    TrianglesBelow(n);
    RestAtUvs(n);
    ItemsUndistorted(RestPositions(n), RestUvs(n), n * n, Triangles(n), mapSizePx);
  }

  lemma TrianglesBelow(n: int)
    requires n >= 2
    ensures forall k :: 0 <= k < |Triangles(n)| ==> forall c :: 0 <= c < 3 ==> 0 <= Corners3(Triangles(n)[k])[c] < n * n
  {
    forall k | 0 <= k < |Triangles(n)|
      ensures forall c :: 0 <= c < 3 ==> 0 <= Corners3(Triangles(n)[k])[c] < n * n
    {
      TriangleCornersInGrid(n, k);
    }
  }

  /** Triangles drawn from buffers whose first m positions sit at their
      texture coordinates, with every corner below m. */
  lemma ItemsUndistorted(ps: seq<Vertex>, uvs: seq<real>, m: int, tris: seq<Triangle>, scale: real)
    requires forall k :: 0 <= k < |tris| ==> forall c :: 0 <= c < 3 ==> 0 <= Corners3(tris[k])[c] < m
    requires AtUvs(ps, uvs, m)
    ensures TrianglesIn(tris, ps, uvs)
    ensures var items := CreateTriangleMeshes(ps, tris, uvs, scale);
      |items| == |tris| &&
      forall k :: 0 <= k < |items| ==>
        |items[k].vertices| == 6 && |items[k].uvs| == 6 &&
        forall j :: 0 <= j < 6 ==> items[k].vertices[j] == items[k].uvs[j] * scale
  {
    forall k | 0 <= k < |tris|
      ensures CornersIn(Corners3(tris[k]), ps, uvs)
    {
      ItemUndistorted(ps, uvs, m, Corners3(tris[k]), scale);
    }
    var items := CreateTriangleMeshes(ps, tris, uvs, scale);
    forall k | 0 <= k < |items|
      ensures |items[k].vertices| == 6 && |items[k].uvs| == 6 &&
        forall j :: 0 <= j < 6 ==> items[k].vertices[j] == items[k].uvs[j] * scale
    {
      ItemUndistorted(ps, uvs, m, Corners3(tris[k]), scale);
      assert items[k] == Gather(ps, uvs, Corners3(tris[k]), scale, scale);
    }
  }

  /** One triangle drawn from buffers whose first m positions sit at their
      texture coordinates. */
  lemma ItemUndistorted(ps: seq<Vertex>, uvs: seq<real>, m: int, corners: seq<int>, scale: real)
    requires |corners| == 3 && forall c :: 0 <= c < 3 ==> 0 <= corners[c] < m
    requires |ps| >= m && |uvs| >= 2 * m
    requires forall t :: 0 <= t < m ==> ps[t].x == uvs[2 * t] && ps[t].y == uvs[2 * t + 1]
    ensures CornersIn(corners, ps, uvs)
    ensures var g := Gather(ps, uvs, corners, scale, scale);
      |g.vertices| == 6 && |g.uvs| == 6 &&
      forall j :: 0 <= j < 6 ==> g.vertices[j] == g.uvs[j] * scale
  {
    GatherMatchesUvs(ps, uvs, corners, scale);
  }

  /** Whatever the current positions, each drawn triangle samples the
      texture at its own corners' grid coordinates: corner t of an item gets
      the texture coordinates of grid column t / n and row t % n. */
  lemma TextureFollowsGrid(n: int, routeSprings: seq<Spring>, positions: seq<Vertex>, mapSizePx: real)
    requires n >= 2 && |positions| >= n * n
    ensures TrianglesIn(Triangles(n), positions, BuffersOf(n, routeSprings).flatUvs)
    ensures var items := CreateTriangleMeshes(positions, Triangles(n), BuffersOf(n, routeSprings).flatUvs, mapSizePx);
      |items| == |Triangles(n)| &&
      forall k, c :: 0 <= k < |items| && 0 <= c < 3 ==>
        var t := Corners3(Triangles(n)[k])[c];
        |items[k].uvs| == 6 && items[k].uvs[2 * c] == Uv(n, t / n) && items[k].uvs[2 * c + 1] == Uv(n, t % n)
  {
    TrianglesBelow(n);
    GridUvsOfBuffers(n, routeSprings);
    ItemsSampleGrid(positions, BuffersOf(n, routeSprings).flatUvs, n, Triangles(n), mapSizePx);
  }

  /** Texture slots 2t and 2t + 1 hold the coordinates of grid column t / n
      and row t % n, for every t below n * n. */
  predicate GridUvs(uvs: seq<real>, n: int)
    requires n >= 2
  {
    |uvs| >= 2 * (n * n) &&
    forall t :: 0 <= t < n * n ==> uvs[2 * t] == Uv(n, t / n) && uvs[2 * t + 1] == Uv(n, t % n)
  }

  lemma GridUvsOfBuffers(n: int, routeSprings: seq<Spring>)
    requires n >= 2
    ensures GridUvs(BuffersOf(n, routeSprings).flatUvs, n)
  {
    BuffersLayout(n, routeSprings);
  }

  /** Triangles with corners below n * n, drawn from any positions and
      texture buffer laid out as the grid, sample the grid coordinates. */
  lemma ItemsSampleGrid(ps: seq<Vertex>, uvs: seq<real>, n: int, tris: seq<Triangle>, scale: real)
    requires n >= 2 && |ps| >= n * n && GridUvs(uvs, n)
    requires forall k :: 0 <= k < |tris| ==> forall c :: 0 <= c < 3 ==> 0 <= Corners3(tris[k])[c] < n * n
    ensures TrianglesIn(tris, ps, uvs)
    ensures var items := CreateTriangleMeshes(ps, tris, uvs, scale);
      |items| == |tris| &&
      forall k, c :: 0 <= k < |items| && 0 <= c < 3 ==>
        var t := Corners3(tris[k])[c];
        |items[k].uvs| == 6 && items[k].uvs[2 * c] == Uv(n, t / n) && items[k].uvs[2 * c + 1] == Uv(n, t % n)
  {
    forall k | 0 <= k < |tris|
      ensures CornersIn(Corners3(tris[k]), ps, uvs)
    {
      assert forall c :: 0 <= c < 3 ==> 0 <= Corners3(tris[k])[c] < n * n;
    }
    var items := CreateTriangleMeshes(ps, tris, uvs, scale);
    forall k, c | 0 <= k < |items| && 0 <= c < 3
      ensures var t := Corners3(tris[k])[c];
        |items[k].uvs| == 6 && items[k].uvs[2 * c] == Uv(n, t / n) && items[k].uvs[2 * c + 1] == Uv(n, t % n)
    {
      GatherAt(ps, uvs, Corners3(tris[k]), scale, scale);
      assert items[k] == Gather(ps, uvs, Corners3(tris[k]), scale, scale);
    }
  }

  /** The tick's conversion of PIXI's frame delta (in frames at 60 per
      second) to seconds. */
  function DeltaSeconds(delta: real): (seconds: real)
    ensures seconds * 60.0 == delta
  {
    delta / 60.0
  }
}
