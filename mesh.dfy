/** The triangulated mesh of frontend/src/mesh.ts: a gridSize x gridSize grid of
    vertices at uniform texture coordinates, and two triangles per grid cell
    whose shared diagonal alternates with the parity of the cell. */
module Mesh {
  import opened Sequences

  /** One grid vertex: its position in the flat vertex buffer, its texture
      coordinate and its initial position (which equals the texture
      coordinate). */
  datatype GridEntry = GridEntry(index: int, uvX: real, uvY: real, x: real, y: real)

  /** One vertex of the position buffer (an element of `MeshState`). Pinned
      vertices are never moved by the solver. */
  datatype Vertex = Vertex(x: real, y: real, pinned: bool)

  /** Three vertex indices, in drawing order. */
  datatype Triangle = Triangle(a: int, b: int, c: int)

  // ---------------------------------------------------------------------
  // Specification of the grid

  /** The flat index of grid cell (x, y): columns first. */
  function Index(n: int, x: int, y: int): int { x * n + y }

  /** The texture coordinate of grid line `k` out of `n`. */
  function Uv(n: int, k: int): real
    requires n >= 2
  {
    k as real / (n - 1) as real
  }

  function Entry(n: int, x: int, y: int): GridEntry
    requires n >= 2
  {
    GridEntry(Index(n, x, y), Uv(n, x), Uv(n, y), Uv(n, x), Uv(n, y))
  }

  /** `grid[x][y]` for 0 <= x, y < n. */
  function MeshGrid(n: int): (g: seq<seq<GridEntry>>)
    requires n >= 2
  {
    seq(n, x => seq(n, y => Entry(n, x, y)))
  }

  // ---------------------------------------------------------------------
  // Specification of the triangulation

  /** The two triangles of cell (x, y). When x and y have the same parity they
      share the edge (x+1, y)-(x, y+1), otherwise the edge (x, y)-(x+1, y+1). */
  function CellTriangles(n: int, x: int, y: int): seq<Triangle> {
    if x % 2 == y % 2 then
      [Triangle(Index(n, x, y), Index(n, x + 1, y), Index(n, x, y + 1)),
       Triangle(Index(n, x + 1, y), Index(n, x + 1, y + 1), Index(n, x, y + 1))]
    else
      [Triangle(Index(n, x, y), Index(n, x + 1, y), Index(n, x + 1, y + 1)),
       Triangle(Index(n, x, y), Index(n, x + 1, y + 1), Index(n, x, y + 1))]
  }

  /** The triangles of cells (x, 0) .. (x, y-1), in order. */
  function ColumnTriangles(n: int, x: int, y: nat): seq<Triangle> {
    if y == 0 then [] else ColumnTriangles(n, x, y - 1) + CellTriangles(n, x, y - 1)
  }

  /** The triangles of columns 0 .. x-1 of cells, column by column. */
  function TrianglesBefore(n: int, x: nat): seq<Triangle>
    requires n >= 2
  {
    if x == 0 then [] else TrianglesBefore(n, x - 1) + ColumnTriangles(n, x - 1, n - 1)
  }

  /** `triangles` before it is flattened: all (n-1) x (n-1) cells. */
  function Triangles(n: int): seq<Triangle>
    requires n >= 2
  {
    TrianglesBefore(n, n - 1)
  }

  /** `triangles.flat()`. */
  function Flatten(ts: seq<Triangle>): (r: seq<int>) {
    if |ts| == 0 then [] else Flatten(ts[..|ts| - 1]) + [ts[|ts| - 1].a, ts[|ts| - 1].b, ts[|ts| - 1].c]
  }

  // ---------------------------------------------------------------------
  // getMesh

  /** getMesh: the grid, then the flattened triangle list. When gridSize is 0
      or less neither loop runs; a gridSize of 1 would put 0/0 (NaN) into the
      single entry's coordinates. */
  method GetMesh(gridSize: int) returns (grid: seq<seq<GridEntry>>, triangleIndices: seq<int>)
    requires gridSize != 1
    ensures gridSize <= 0 ==> grid == [] && triangleIndices == []
    ensures gridSize >= 2 ==> grid == MeshGrid(gridSize) && triangleIndices == Flatten(Triangles(gridSize))
  {
    if gridSize <= 0 {
      return [], [];
    }
    grid := BuildGrid(gridSize);
    var triangles := Triangulate(gridSize, grid);
    triangleIndices := Flatten(triangles);
  }

  /** The first loop of getMesh: pushes the entries column by column with a
      running index. */
  method BuildGrid(n: int) returns (grid: seq<seq<GridEntry>>)
    requires n >= 2
    ensures grid == MeshGrid(n)
  {
    grid := [];
    var index := 0;
    var x := 0;
    while x < n
      invariant 0 <= x <= n
      invariant index == x * n
      invariant grid == MeshGrid(n)[..x]
    {
      grid := grid + [[]];
      var y := 0;
      while y < n
        invariant 0 <= y <= n
        invariant index == x * n + y
        invariant |grid| == x + 1
        invariant grid[..x] == MeshGrid(n)[..x]
        invariant grid[x] == seq(y, j => Entry(n, x, j))
      {
        grid := grid[x := grid[x] + [GridEntry(index, Uv(n, x), Uv(n, y), Uv(n, x), Uv(n, y))]];
        index := index + 1;
        y := y + 1;
      }
      assert grid[x] == MeshGrid(n)[x];
      assert grid == MeshGrid(n)[..x + 1];
      assert index == (x + 1) * n;
      x := x + 1;
    }
  }

  /** The second loop of getMesh: two triangles per cell, read off the grid's
      indices, the diagonal chosen by the parity of the cell. */
  method Triangulate(n: int, grid: seq<seq<GridEntry>>) returns (triangles: seq<Triangle>)
    requires n >= 2 && grid == MeshGrid(n)
    ensures triangles == Triangles(n)
  {
    triangles := [];
    var x := 0;
    while x < n - 1
      invariant 0 <= x <= n - 1
      invariant triangles == TrianglesBefore(n, x)
    {
      var y := 0;
      while y < n - 1
        invariant 0 <= y <= n - 1
        invariant triangles == TrianglesBefore(n, x) + ColumnTriangles(n, x, y)
      {
        var i00, i10 := grid[x][y].index, grid[x + 1][y].index;
        var i01, i11 := grid[x][y + 1].index, grid[x + 1][y + 1].index;
        assert i00 == Index(n, x, y) && i10 == Index(n, x + 1, y);
        assert i01 == Index(n, x, y + 1) && i11 == Index(n, x + 1, y + 1);
        var cell;
        if x % 2 == y % 2 {
          cell := [Triangle(i00, i10, i01), Triangle(i10, i11, i01)];
        } else {
          cell := [Triangle(i00, i10, i11), Triangle(i00, i11, i01)];
        }
        assert cell == CellTriangles(n, x, y);
        triangles := triangles + cell;
        assert triangles == TrianglesBefore(n, x) + ColumnTriangles(n, x, y + 1) by {
          assert ColumnTriangles(n, x, y + 1) == ColumnTriangles(n, x, y) + cell;
        }
        y := y + 1;
      }
      x := x + 1;
    }
  }

  // ---------------------------------------------------------------------
  // Properties of the grid

  /** The grid has n columns of n entries and entry (x, y) carries index x*n+y. */
  lemma GridShape(n: int)
    requires n >= 2
    ensures |MeshGrid(n)| == n
    ensures forall x :: 0 <= x < n ==> |MeshGrid(n)[x]| == n
    ensures forall x, y :: 0 <= x < n && 0 <= y < n ==> MeshGrid(n)[x][y].index == x * n + y
  {
  }

  /** Every index in [0, n*n) is carried by exactly one grid entry. */
  lemma GridIndicesBijective(n: int)
    requires n >= 2
    ensures forall k :: 0 <= k < n * n ==>
      0 <= k / n < n && 0 <= k % n < n && MeshGrid(n)[k / n][k % n].index == k
    ensures forall x, y, x', y' ::
      (0 <= x < n && 0 <= y < n && 0 <= x' < n && 0 <= y' < n &&
       MeshGrid(n)[x][y].index == MeshGrid(n)[x'][y'].index) ==> x == x' && y == y'
    ensures forall x, y :: 0 <= x < n && 0 <= y < n ==> 0 <= MeshGrid(n)[x][y].index < n * n
  {
    forall k | 0 <= k < n * n
      ensures 0 <= k / n < n && 0 <= k % n < n && MeshGrid(n)[k / n][k % n].index == k
    {
      RowMajorBounds(n, k);
    }
    forall x, y, x', y' |
      0 <= x < n && 0 <= y < n && 0 <= x' < n && 0 <= y' < n &&
      MeshGrid(n)[x][y].index == MeshGrid(n)[x'][y'].index
      ensures x == x' && y == y'
    {
      RowMajorIndex(n, x, y);
      RowMajorIndex(n, x', y');
    }
    forall x, y | 0 <= x < n && 0 <= y < n
      ensures 0 <= MeshGrid(n)[x][y].index < n * n
    {
      IndexInRange(n, x, y);
    }
  }

  lemma IndexInRange(n: int, x: int, y: int)
    requires n >= 1 && 0 <= x < n && 0 <= y < n
    ensures 0 <= Index(n, x, y) < n * n
  {
    assert x * n <= (n - 1) * n;
  }

  /** Texture coordinate k/(n-1) of grid line k: 0 on the first line, 1 on
      the last, in between elsewhere. */
  lemma UvOfLine(n: int, k: int)
    requires n >= 2 && 0 <= k < n
    ensures Uv(n, k) * (n - 1) as real == k as real
    ensures 0.0 <= Uv(n, k) <= 1.0
    ensures Uv(n, k) == 0.0 <==> k == 0
    ensures Uv(n, k) == 1.0 <==> k == n - 1
  {
    var d := (n - 1) as real;
    var u := Uv(n, k);
    assert u * d == k as real;
    if u == 1.0 { assert k as real == d; }
  }

  /** Each entry's texture coordinate equals its initial position, and both
      lie in [0, 1] with 0 and 1 exactly on the border lines. */
  lemma UvBounds(n: int, x: int, y: int)
    requires n >= 2 && 0 <= x < n && 0 <= y < n
    ensures var e := MeshGrid(n)[x][y];
      && e.uvX == e.x && e.uvY == e.y
      && e.uvX * (n - 1) as real == x as real && e.uvY * (n - 1) as real == y as real
      && 0.0 <= e.uvX <= 1.0 && 0.0 <= e.uvY <= 1.0
      && (e.uvX == 0.0 <==> x == 0) && (e.uvX == 1.0 <==> x == n - 1)
      && (e.uvY == 0.0 <==> y == 0) && (e.uvY == 1.0 <==> y == n - 1)
  {
    UvOfLine(n, x);
    UvOfLine(n, y);
  }

  // ---------------------------------------------------------------------
  // Properties of the triangulation

  lemma {:induction false} ColumnTrianglesLength(n: int, x: int, y: nat)
    ensures |ColumnTriangles(n, x, y)| == 2 * y
  {
    if y > 0 { ColumnTrianglesLength(n, x, y - 1); }
  }

  lemma {:induction false} TrianglesBeforeLength(n: int, x: nat)
    requires n >= 2
    ensures |TrianglesBefore(n, x)| == 2 * (x * (n - 1))
  {
    if x > 0 {
      TrianglesBeforeLength(n, x - 1);
      ColumnTrianglesLength(n, x - 1, n - 1);
      assert (x - 1) * (n - 1) + (n - 1) == x * (n - 1);
    }
  }

  lemma {:induction false} FlattenLength(ts: seq<Triangle>)
    ensures |Flatten(ts)| == 3 * |ts|
  {
    if |ts| > 0 { FlattenLength(ts[..|ts| - 1]); }
  }

  /** Two triangles per cell: 2(n-1)^2 triangles and 6(n-1)^2 indices. */
  lemma TriangleCount(n: int)
    requires n >= 2
    ensures |Triangles(n)| == 2 * ((n - 1) * (n - 1))
    ensures |Flatten(Triangles(n))| == 6 * ((n - 1) * (n - 1))
  {
    TrianglesBeforeLength(n, n - 1);
    FlattenLength(Triangles(n));
  }

  lemma {:induction false} ColumnSlots(n: int, x: int, c: nat, y: nat)
    requires y < c
    ensures |ColumnTriangles(n, x, c)| == 2 * c
    ensures ColumnTriangles(n, x, c)[2 * y .. 2 * y + 2] == CellTriangles(n, x, y)
  {
    var prev, cell := ColumnTriangles(n, x, c - 1), CellTriangles(n, x, c - 1);
    assert ColumnTriangles(n, x, c) == prev + cell;
    assert |cell| == 2;
    ColumnTrianglesLength(n, x, c - 1);
    if y < c - 1 {
      ColumnSlots(n, x, c - 1, y);
      assert (prev + cell)[2 * y .. 2 * y + 2] == prev[2 * y .. 2 * y + 2];
    } else {
      assert y == c - 1;
      assert (prev + cell)[2 * y .. 2 * y + 2] == cell;
    }
  }

  /** Earlier columns' triangles are a prefix of later ones'. */
  lemma {:induction false} TrianglesBeforePrefix(n: int, x: nat, c: nat)
    requires n >= 2 && x <= c
    ensures TrianglesBefore(n, x) <= TrianglesBefore(n, c)
  {
    if x < c {
      TrianglesBeforePrefix(n, x, c - 1);
    }
  }

  lemma TriangleSlots(n: int, c: nat, x: nat, y: nat)
    requires n >= 2 && x < c && y < n - 1
    ensures var s := 2 * (x * (n - 1) + y);
      s + 2 <= |TrianglesBefore(n, c)| && TrianglesBefore(n, c)[s .. s + 2] == CellTriangles(n, x, y)
  {
    var m := n - 1;
    var before := TrianglesBefore(n, x);
    var column := ColumnTriangles(n, x, m);
    TrianglesBeforeLength(n, x);
    ColumnSlots(n, x, m, y);
    TrianglesBeforePrefix(n, x + 1, c);
    assert TrianglesBefore(n, x + 1) == before + column;
    var s := 2 * (x * m + y);
    assert s == |before| + 2 * y;
    assert TrianglesBefore(n, c)[s .. s + 2] == (before + column)[s .. s + 2];
    assert (before + column)[s .. s + 2] == column[2 * y .. 2 * y + 2];
  }

  /** Cell (x, y)'s two triangles are at slots 2(x(n-1)+y) and 2(x(n-1)+y)+1
      of the triangle list: cells in column-major order. */
  lemma CellSlots(n: int, x: int, y: int)
    requires n >= 2 && 0 <= x < n - 1 && 0 <= y < n - 1
    ensures var s := 2 * (x * (n - 1) + y);
      s + 2 <= |Triangles(n)| && Triangles(n)[s .. s + 2] == CellTriangles(n, x, y)
  {
    TriangleSlots(n, n - 1, x, y);
  }

  /** The four corners of cell (x, y). */
  function Corners(n: int, x: int, y: int): set<int> {
    {Index(n, x, y), Index(n, x + 1, y), Index(n, x, y + 1), Index(n, x + 1, y + 1)}
  }

  function Vertices(t: Triangle): set<int> { {t.a, t.b, t.c} }

  /** Per cell: both triangles use three distinct corners of the cell, together
      all four, and they share the diagonal the parity rule picks. */
  lemma CellDiagonal(n: int, x: int, y: int)
    requires n >= 2 && 0 <= x < n - 1 && 0 <= y < n - 1
    ensures var ts := CellTriangles(n, x, y);
      && |ts| == 2
      && (forall i :: 0 <= i < 2 ==> ts[i].a != ts[i].b && ts[i].b != ts[i].c && ts[i].a != ts[i].c)
      && (forall i :: 0 <= i < 2 ==> Vertices(ts[i]) <= Corners(n, x, y))
      && Vertices(ts[0]) + Vertices(ts[1]) == Corners(n, x, y)
      && Vertices(ts[0]) * Vertices(ts[1]) ==
           (if x % 2 == y % 2 then {Index(n, x + 1, y), Index(n, x, y + 1)}
            else {Index(n, x, y), Index(n, x + 1, y + 1)})
  {
    var k := Index(n, x, y);
    assert Index(n, x + 1, y) == k + n;
    assert Index(n, x + 1, y + 1) == k + n + 1;
    assert Index(n, x, y + 1) == k + 1;
  }

  /** Decoding a vertex index into grid coordinates. */
  function ColumnOf(n: int, k: int): int requires n > 0 { k / n }
  function RowOf(n: int, k: int): int requires n > 0 { k % n }

  lemma Decode(n: int, x: int, y: int)
    requires n > 0 && x >= 0 && 0 <= y < n
    ensures ColumnOf(n, Index(n, x, y)) == x && RowOf(n, Index(n, x, y)) == y
  {
    RowMajorIndex(n, x, y);
  }

  /** Twice the signed area of a triangle, measured in grid coordinates. */
  function DoubleSignedArea(n: int, t: Triangle): int
    requires n > 0
  {
    (ColumnOf(n, t.b) - ColumnOf(n, t.a)) * (RowOf(n, t.c) - RowOf(n, t.a))
    - (ColumnOf(n, t.c) - ColumnOf(n, t.a)) * (RowOf(n, t.b) - RowOf(n, t.a))
  }

  /** Both triangles of a cell have the same orientation and area 1/2, so
      together they have the area of the cell. */
  lemma CellWinding(n: int, x: int, y: int)
    requires n >= 2 && 0 <= x < n - 1 && 0 <= y < n - 1
    ensures forall i :: 0 <= i < 2 ==> DoubleSignedArea(n, CellTriangles(n, x, y)[i]) == 1
  {
    Decode(n, x, y);
    Decode(n, x + 1, y);
    Decode(n, x, y + 1);
    Decode(n, x + 1, y + 1);
    var ts := CellTriangles(n, x, y);
    forall i | 0 <= i < 2 ensures DoubleSignedArea(n, ts[i]) == 1 {
      var t := ts[i];
      var xa, ya := ColumnOf(n, t.a), RowOf(n, t.a);
      var xb, yb := ColumnOf(n, t.b), RowOf(n, t.b);
      var xc, yc := ColumnOf(n, t.c), RowOf(n, t.c);
      if x % 2 == y % 2 {
        if i == 0 {
          assert xb - xa == 1 && yc - ya == 1 && xc - xa == 0;
        } else {
          assert xb - xa == 0 && xc - xa == -1 && yc - ya == 1 && yb - ya == 1;
        }
      } else {
        if i == 0 {
          assert xb - xa == 1 && yc - ya == 1 && xc - xa == 1 && yb - ya == 0;
        } else {
          assert xb - xa == 1 && yc - ya == 1 && xc - xa == 0;
        }
      }
    }
  }

  /** Every triangle of the mesh: indices in [0, n*n), three distinct corners
      of its own cell, positive orientation and area 1/2. */
  lemma AllTriangles(n: int, t: int)
    requires n >= 2 && 0 <= t < |Triangles(n)|
    ensures var tri := Triangles(n)[t];
      var cell := t / 2;
      var x, y := cell / (n - 1), cell % (n - 1);
      && 0 <= x < n - 1 && 0 <= y < n - 1
      && tri == CellTriangles(n, x, y)[t % 2]
      && Vertices(tri) <= Corners(n, x, y)
      && tri.a != tri.b && tri.b != tri.c && tri.a != tri.c
      && 0 <= tri.a < n * n && 0 <= tri.b < n * n && 0 <= tri.c < n * n
      && DoubleSignedArea(n, tri) == 1
  {
    var m := n - 1;
    TriangleCount(n);
    var cell := t / 2;
    assert cell < m * m;
    RowMajorBounds(m, cell);
    var x, y := cell / m, cell % m;
    CellSlots(n, x, y);
    assert 2 * (x * m + y) == 2 * cell;
    assert Triangles(n)[t] == Triangles(n)[2 * cell .. 2 * cell + 2][t % 2];
    CellDiagonal(n, x, y);
    CellWinding(n, x, y);
    IndexInRange(n, x, y);
    IndexInRange(n, x + 1, y + 1);
    IndexInRange(n, x + 1, y);
    IndexInRange(n, x, y + 1);
  }

  /** Position 3t+j of the flat index list is corner j of triangle t. */
  lemma {:induction false} FlattenAt(ts: seq<Triangle>, t: int)
    requires 0 <= t < |ts|
    ensures |Flatten(ts)| == 3 * |ts|
    ensures Flatten(ts)[3 * t] == ts[t].a
    ensures Flatten(ts)[3 * t + 1] == ts[t].b
    ensures Flatten(ts)[3 * t + 2] == ts[t].c
  {
    FlattenLength(ts);
    FlattenLength(ts[..|ts| - 1]);
    if t < |ts| - 1 {
      FlattenAt(ts[..|ts| - 1], t);
    }
  }
}
