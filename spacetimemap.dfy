/** frontend/src/SpacetimeMap.tsx: the map is drawn in a square of side
    max(width, height) centred on the window; the hovered point is brought
    into that square's unit coordinates. Its constant grid data and its
    triangle gathering are `MapBuffers.ConstantGridDataOf` and
    `MapBuffers.CreateTriangleMeshes`. */
module SpacetimeMap {
  import opened Wrappers
  import opened Reals
  import opened Mesh
  import opened MapBuffers

  /** `Math.max(width, height)`. */
  function MapSizePx(width: real, height: real): real {
    if width >= height then width else height
  }

  function XOffset(width: real, height: real): real {
    (width - MapSizePx(width, height)) / 2.0
  }

  function YOffset(width: real, height: real): real {
    (height - MapSizePx(width, height)) / 2.0
  }

  /** The square covers the window: it is as large as the larger dimension,
      both offsets are non-positive, and along the larger dimension the
      offset is 0 (along the other it centres the square). */
  lemma SquareCoversWindow(width: real, height: real)
    ensures MapSizePx(width, height) >= width && MapSizePx(width, height) >= height
    ensures MapSizePx(width, height) == width || MapSizePx(width, height) == height
    ensures XOffset(width, height) <= 0.0 && YOffset(width, height) <= 0.0
    ensures XOffset(width, height) == 0.0 || YOffset(width, height) == 0.0
    ensures XOffset(width, height) * 2.0 + MapSizePx(width, height) == width
    ensures YOffset(width, height) * 2.0 + MapSizePx(width, height) == height
  {
  }

  /** `normalizedHoveredPoint`; no hovered point stays none. */
  function NormalizedHoveredPoint(hovered: Option<Point>, width: real, height: real): Option<Point>
    requires MapSizePx(width, height) != 0.0
  {
    match hovered
    case None => None
    case Some(p) =>
      var m := MapSizePx(width, height);
      Some(Point((p.x - XOffset(width, height)) / m, (p.y - YOffset(width, height)) / m))
  }

  /** Normalising can be undone: offset + normalised * mapSizePx is the
      hovered point again. */
  lemma NormalizeRoundTrip(hovered: Option<Point>, width: real, height: real)
    requires MapSizePx(width, height) != 0.0
    ensures NormalizedHoveredPoint(hovered, width, height).None? <==> hovered.None?
    ensures hovered.Some? ==>
      var q := NormalizedHoveredPoint(hovered, width, height).value;
      var m := MapSizePx(width, height);
      XOffset(width, height) + q.x * m == hovered.value.x &&
      YOffset(width, height) + q.y * m == hovered.value.y
  {
    if hovered.Some? {
      var m := MapSizePx(width, height);
      var p := hovered.value;
      QuotientTimes(p.x - XOffset(width, height), m);
      QuotientTimes(p.y - YOffset(width, height), m);
    }
  }

  /** `createMesh`: item k holds the positions of triangle k's corners scaled
      by max(width, height), and their texture coordinates read at 2t and
      2t + 1. */
  lemma CreateMeshGathers(positions: seq<Vertex>, triangles: seq<Triangle>, flatUvs: seq<real>, width: real, height: real)
    requires TrianglesIn(triangles, positions, flatUvs)
    ensures var m := MapSizePx(width, height);
      var items := CreateTriangleMeshes(positions, triangles, flatUvs, m);
      |items| == |triangles| &&
      forall k, c :: 0 <= k < |items| && 0 <= c < 3 ==>
        var t := Corners3(triangles[k])[c];
        |items[k].vertices| == 6 && |items[k].uvs| == 6 &&
        items[k].vertices[2 * c] == positions[t].x * m && items[k].vertices[2 * c + 1] == positions[t].y * m &&
        items[k].uvs[2 * c] == flatUvs[2 * t] && items[k].uvs[2 * c + 1] == flatUvs[2 * t + 1]
  {
    var m := MapSizePx(width, height);
    forall k | 0 <= k < |triangles| {
      GatherAt(positions, flatUvs, Corners3(triangles[k]), m, m);
    }
  }
}
