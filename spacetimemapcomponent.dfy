/** frontend/src/components/SpacetimeMap.tsx: the city map component. Its
    buffers are those of `MapBuffers`, except that each spring carries an
    `isAnchor` tag; the hovered point is divided by the map size. */
module SpacetimeMapComponent {
  import opened Wrappers
  import opened Reals
  import opened Dataset
  import opened Mesh
  import opened Springs
  import opened MapBuffers

  /** A spring with its `isAnchor` field; route springs, which have no such
      field, are tagged false. */
  datatype TaggedSpring = TaggedSpring(spring: Spring, isAnchor: bool)

  datatype ComponentGridData = ComponentGridData(
    grid: seq<seq<GridEntry>>,
    initialPositions: seq<Vertex>,
    triangles: seq<Triangle>,
    springs: seq<TaggedSpring>,
    flatUvs: seq<real>)

  function Tagged(springs: seq<Spring>, isAnchor: bool): (r: seq<TaggedSpring>)
    ensures |r| == |springs|
  {
    seq(|springs|, k requires 0 <= k < |springs| => TaggedSpring(springs[k], isAnchor))
  }

  function Untagged(springs: seq<TaggedSpring>): seq<Spring> {
    seq(|springs|, k requires 0 <= k < |springs| => springs[k].spring)
  }

  /** `getConstantGridData` of the component. */
  function GetConstantGridData(gd: GridData, sph: SphericalDistance): Result<ComponentGridData, SpringError>
    requires gd.size >= 2
  {
    match RouteMatrixToSprings(gd, sph)
    case Failure(err) => Failure(err)
    case Success(routeSprings) => Success(TaggedBuffersOf(gd.size, routeSprings))
  }

  /** The component's buffers for a grid of side n and the given route
      springs: anchors tagged, route springs not. */
  function TaggedBuffersOf(n: int, routeSprings: seq<Spring>): ComponentGridData
    requires n >= 2
  {
    var b := BuffersOf(n, routeSprings);
    ComponentGridData(b.grid, b.initialPositions, b.triangles,
                      Tagged(AnchorSprings(n * n), true) + Tagged(routeSprings, false), b.flatUvs)
  }

  /** Without their tags the component's springs are the springs of the
      other components, and a spring is tagged as an anchor exactly when it
      is one of the first M. */
  lemma TaggedSpringsLayout(gd: GridData, sph: SphericalDistance)
    requires gd.size >= 2 && GetConstantGridData(gd, sph).Success?
    ensures var n := gd.size;
      var c := GetConstantGridData(gd, sph).value;
      var b := ConstantGridDataOf(gd, sph).value;
      Untagged(c.springs) == b.springs &&
      c.initialPositions == b.initialPositions && c.flatUvs == b.flatUvs && c.triangles == b.triangles &&
      forall k :: 0 <= k < |c.springs| ==> (c.springs[k].isAnchor <==> k < n * n)
  {
    var n := gd.size;
    var routeSprings := RouteMatrixToSprings(gd, sph).value;
    TaggedSpringsOf(n, routeSprings);
  }

  lemma TaggedSpringsOf(n: int, routeSprings: seq<Spring>)
    requires n >= 2
    ensures var c := TaggedBuffersOf(n, routeSprings);
      var b := BuffersOf(n, routeSprings);
      Untagged(c.springs) == b.springs &&
      c.initialPositions == b.initialPositions && c.flatUvs == b.flatUvs && c.triangles == b.triangles &&
      forall k :: 0 <= k < |c.springs| ==> (c.springs[k].isAnchor <==> k < n * n)
  {
    var c := TaggedBuffersOf(n, routeSprings);
    var b := BuffersOf(n, routeSprings);
    BuffersLayout(n, routeSprings);
    assert c.springs == Tagged(AnchorSprings(n * n), true) + Tagged(routeSprings, false);
    forall k | 0 <= k < |c.springs| ensures c.springs[k].spring == b.springs[k] {
      if k < n * n {
        assert b.springs[k] == b.springs[..n * n][k];
      } else {
        assert b.springs[k] == b.springs[n * n..][k - n * n];
      }
    }
  }

  /** `normalizedHoveredPoint`: both coordinates divided by the map size; no
      hovered point stays none. */
  function NormalizedHoveredPoint(hovered: Option<Point>, mapSizePx: real): (r: Option<Point>)
    requires mapSizePx != 0.0
    ensures r.None? <==> hovered.None?
    ensures hovered.Some? ==> r.value.x * mapSizePx == hovered.value.x && r.value.y * mapSizePx == hovered.value.y
  {
    match hovered
    case None => None
    case Some(p) =>
      QuotientTimes(p.x, mapSizePx);
      QuotientTimes(p.y, mapSizePx);
      Some(Point(p.x / mapSizePx, p.y / mapSizePx))
  }

  /** `createMeshTriangles`: item k holds the positions of triangle k's
      corners scaled by mapSizePx and their texture coordinates read at 2t
      and 2t + 1. */
  lemma CreateMeshTrianglesGathers(positions: seq<Vertex>, triangles: seq<Triangle>, flatUvs: seq<real>, mapSizePx: real)
    requires TrianglesIn(triangles, positions, flatUvs)
    ensures var items := CreateTriangleMeshes(positions, triangles, flatUvs, mapSizePx);
      |items| == |triangles| &&
      forall k, c :: 0 <= k < |items| && 0 <= c < 3 ==>
        var t := Corners3(triangles[k])[c];
        |items[k].vertices| == 6 && |items[k].uvs| == 6 &&
        items[k].vertices[2 * c] == positions[t].x * mapSizePx &&
        items[k].vertices[2 * c + 1] == positions[t].y * mapSizePx &&
        items[k].uvs[2 * c] == flatUvs[2 * t] && items[k].uvs[2 * c + 1] == flatUvs[2 * t + 1]
  {
    forall k | 0 <= k < |triangles| {
      GatherAt(positions, flatUvs, Corners3(triangles[k]), mapSizePx, mapSizePx);
    }
  }
}
