/** The backend's grid of sample locations (grid.py): `make_grid` as rows of
    locations, the `Grid` object that numbers and optionally snaps them, and
    its JSON form. `snap_to_road` is a parameter. */
module Grids {
  import opened Wrappers
  import opened Sequences
  import opened Locations
  import opened DistanceMatrix

  /** The rows of a grid: row y holds latitude lats[y] at every longitude. */
  function GridRowsOf(lats: seq<real>, lngs: seq<real>): seq<seq<Location>> {
    seq(|lats|, y requires 0 <= y < |lats| => seq(|lngs|, x requires 0 <= x < |lngs| => Location(lats[y], lngs[x])))
  }

  /** `make_grid` of grid.py: for each latitude, north first, a row built by
      appending one location per longitude. A size of 1 divides by zero in
      `linspace`; a size of 0 or less gives no rows. */
  method MakeGridRows(center: Location, zoom: int, size: int, mercatorScale: real)
    returns (r: Result<seq<seq<Location>>, MathError>)
    requires mercatorScale > 0.0
    ensures size == 1 <==> r.Failure?
    ensures size <= 0 ==> r == Success([])
    ensures size >= 2 ==> r == Success(GridRowsOf(GridLats(center, zoom, size, mercatorScale), GridLngs(center, zoom, size)))
  {
    var offLat := MaxOffsetLat(center, zoom, mercatorScale);
    var offLng := MaxOffsetLng(zoom);
    var latsOrError := Linspace(center.lat - offLat, center.lat + offLat, size);
    if latsOrError.Failure? {
      return Failure(latsOrError.error);
    }
    var lats := Reversed(latsOrError.value);
    var locations: seq<seq<Location>> := [];
    ghost var lngsSpec := if size >= 2 then GridLngs(center, zoom, size) else [];
    var y := 0;
    while y < |lats|
      invariant 0 <= y <= |lats| && |locations| == y
      invariant forall t :: 0 <= t < y ==> locations[t] == GridRowsOf(lats, lngsSpec)[t]
    {
      var lngs := Linspace(center.lng - offLng, center.lng + offLng, size).value;
      var row: seq<Location> := [];
      var x := 0;
      while x < |lngs|
        invariant 0 <= x <= |lngs| && |row| == x
        invariant forall t :: 0 <= t < x ==> row[t] == Location(lats[y], lngs[t])
      {
        row := row + [Location(lats[y], lngs[x])];
        x := x + 1;
      }
      assert row == GridRowsOf(lats, lngsSpec)[y];
      locations := locations + [row];
      y := y + 1;
    }
    assert locations == GridRowsOf(lats, lngsSpec);
    r := Success(locations);
  }

  /** The two `make_grid`s agree: the rows of grid.py, flattened, are the
      flat grid of location.py. */
  lemma RowsFlattenToFlatGrid(lats: seq<real>, lngs: seq<real>)
    requires |lats| == |lngs|
    ensures Concat(GridRowsOf(lats, lngs)) == FlatGridOf(lats, lngs)
  {
    var n := |lngs|;
    var rows := GridRowsOf(lats, lngs);
    ConcatOfRows(rows, n);
    var flat := FlatGridOf(lats, lngs);
    forall k | 0 <= k < |flat| ensures Concat(rows)[k] == flat[k] {
      RowMajorBounds(n, k);
      var y, x := k / n, k % n;
      FlatGridAt(lats, lngs, y, x);
      assert k == y * n + x;
      assert Concat(rows)[y * n + x] == rows[y][x];
    }
  }

  /** `make_grid` returns size rows of size locations, running north to
      south and west to east: the latitude is the same along a row and
      falls from row to row, the longitude rises along each row, and the
      corners are the centre moved by the offsets. */
  lemma GridRowsLayout(center: Location, zoom: int, size: int, mercatorScale: real)
    requires size >= 2 && mercatorScale > 0.0
    ensures var rows := GridRowsOf(GridLats(center, zoom, size, mercatorScale), GridLngs(center, zoom, size));
      var offLat := MaxOffsetLat(center, zoom, mercatorScale);
      var offLng := MaxOffsetLng(zoom);
      |rows| == size && (forall y :: 0 <= y < size ==> |rows[y]| == size) &&
      (forall y, x :: 0 <= y < size && 0 <= x < size ==> rows[y][x].lat == rows[y][0].lat) &&
      (forall y, y', x :: 0 <= y < y' < size && 0 <= x < size ==> rows[y][x].lat > rows[y'][x].lat) &&
      (forall y, x, x' :: 0 <= y < size && 0 <= x < x' < size ==> rows[y][x].lng < rows[y][x'].lng) &&
      rows[0][0] == Location(center.lat + offLat, center.lng - offLng) &&
      rows[size - 1][size - 1] == Location(center.lat - offLat, center.lng + offLng)
  {
    GridLatsSpec(center, zoom, size, mercatorScale);
    GridLngsSpec(center, zoom, size);
  }

  // ---------------------------------------------------------------------
  // Grid

  /** What `snap_to_road` answers for a location. */
  datatype SnapResult = SnapResult(location: Location, types: seq<string>, placeId: string)

  /** A grid point: where it was sampled, where it was snapped to, and its
      column and row. */
  datatype GridLocation = GridLocation(
    rawLocation: Location,
    snappedLocation: Location,
    gridX: int,
    gridY: int,
    snapResultTypes: Option<seq<string>>,
    snapResultPlaceId: Option<string>)

  /** The grid point built for the location in row y, column x. */
  function GridLocationOf(location: Location, x: int, y: int, snapToRoads: bool, snap: Location -> SnapResult): GridLocation {
    var cur := GridLocation(location, location, x, y, None, None);
    if snapToRoads then
      var s := snap(location);
      cur.(snappedLocation := s.location, snapResultTypes := Some(s.types), snapResultPlaceId := Some(s.placeId))
    else cur
  }

  /** The grid points of each row. */
  function GridLocationRows(rawGrid: seq<seq<Location>>, snapToRoads: bool, snap: Location -> SnapResult): seq<seq<GridLocation>> {
    seq(|rawGrid|, y requires 0 <= y < |rawGrid| =>
      seq(|rawGrid[y]|, x requires 0 <= x < |rawGrid[y]| => GridLocationOf(rawGrid[y][x], x, y, snapToRoads, snap)))
  }

  /** The grid points in row-major order. */
  function GridLocationsOf(rawGrid: seq<seq<Location>>, snapToRoads: bool, snap: Location -> SnapResult): seq<GridLocation> {
    Concat(GridLocationRows(rawGrid, snapToRoads, snap))
  }

  /** `Grid`: the parameters it was made with, its points and, once fetched,
      its route matrix. */
  class Grid {
    var center: Location
    var zoom: int
    var size: int
    var locations: seq<GridLocation>
    var routeMatrix: Option<seq<MatrixEntry>>

    /** The body of `Grid.__init__` after `make_grid`: one point appended per
        raw location, row by row. */
    constructor FromRawGrid(center: Location, zoom: int, size: int, rawGrid: seq<seq<Location>>,
                            snapToRoads: bool, snap: Location -> SnapResult)
      ensures this.center == center && this.zoom == zoom && this.size == size
      ensures locations == GridLocationsOf(rawGrid, snapToRoads, snap)
      ensures routeMatrix == None
    {
      ghost var rows := GridLocationRows(rawGrid, snapToRoads, snap);
      var locs: seq<GridLocation> := [];
      var y := 0;
      while y < |rawGrid|
        invariant 0 <= y <= |rawGrid|
        invariant locs == Concat(rows[..y])
      {
        var x := 0;
        while x < |rawGrid[y]|
          invariant 0 <= x <= |rawGrid[y]|
          invariant locs == Concat(rows[..y]) + rows[y][..x]
        {
          var cur := GridLocation(rawGrid[y][x], rawGrid[y][x], x, y, None, None);
          if snapToRoads {
            var snapResult := snap(rawGrid[y][x]);
            cur := cur.(snappedLocation := snapResult.location, snapResultTypes := Some(snapResult.types),
                        snapResultPlaceId := Some(snapResult.placeId));
          }
          assert rows[y][..x + 1] == rows[y][..x] + [cur];
          locs := locs + [cur];
          x := x + 1;
        }
        assert rows[..y + 1][..y] == rows[..y];
        assert rows[y][..x] == rows[y];
        y := y + 1;
      }
      assert rows[..|rawGrid|] == rows;
      this.center := center;
      this.zoom := zoom;
      this.size := size;
      locations := locs;
      routeMatrix := None;
    }

    /** `Grid(center, zoom, size, snap_to_roads)`: fails as `make_grid` does. */
    static method Create(center: Location, zoom: int, size: int, snapToRoads: bool, snap: Location -> SnapResult,
                         mercatorScale: real) returns (r: Result<Grid, MathError>)
      requires mercatorScale > 0.0
      ensures r.Failure? <==> size == 1
      ensures r.Success? ==> (fresh(r.value) && r.value.center == center && r.value.zoom == zoom &&
                              r.value.size == size && r.value.routeMatrix == None)
      ensures size <= 0 ==> r.Success? && r.value.locations == []
      ensures size >= 2 ==> (r.Success? && r.value.locations ==
        GridLocationsOf(GridRowsOf(GridLats(center, zoom, size, mercatorScale), GridLngs(center, zoom, size)), snapToRoads, snap))
    {
      var rawGrid := MakeGridRows(center, zoom, size, mercatorScale);
      if rawGrid.Failure? {
        return Failure(rawGrid.error);
      }
      var g := new Grid.FromRawGrid(center, zoom, size, rawGrid.value, snapToRoads, snap);
      return Success(g);
    }

    /** `get_snapped_locations`. */
    function SnappedLocations(): (r: seq<Location>)
      reads this
      ensures |r| == |locations|
      ensures forall k :: 0 <= k < |r| ==> r[k] == locations[k].snappedLocation
    {
      var locs := locations;
      seq(|locs|, k requires 0 <= k < |locs| => locs[k].snappedLocation)
    }

    /** `to_json`. */
    function ToJson(): (j: GridJson)
      reads this
      ensures |j.locations| == |locations|
    {
      var locs := locations;
      GridJson(center, zoom, size, seq(|locs|, k requires 0 <= k < |locs| => GridLocationToJson(locs[k])), routeMatrix)
    }
  }

  /** Grid point k of a size-by-size raw grid is row k / size, column
      k % size: it carries that raw location and those grid coordinates, and
      without snapping its snapped location is the raw one and its snap
      fields are empty. */
  lemma GridLocationsLayout(rawGrid: seq<seq<Location>>, size: nat, snapToRoads: bool, snap: Location -> SnapResult,
                            y: int, x: int)
    requires |rawGrid| == size && forall r :: 0 <= r < size ==> |rawGrid[r]| == size
    requires 0 <= y < size && 0 <= x < size
    ensures var locs := GridLocationsOf(rawGrid, snapToRoads, snap);
      |locs| == size * size && y * size + x < |locs| &&
      locs[y * size + x].rawLocation == rawGrid[y][x] &&
      locs[y * size + x].gridX == x && locs[y * size + x].gridY == y &&
      (snapToRoads ==> locs[y * size + x].snappedLocation == snap(rawGrid[y][x]).location) &&
      (!snapToRoads ==> locs[y * size + x].snappedLocation == rawGrid[y][x] &&
                        locs[y * size + x].snapResultTypes.None? && locs[y * size + x].snapResultPlaceId.None?)
  {
    var rows := GridLocationRows(rawGrid, snapToRoads, snap);
    ConcatOfRows(rows, size);
    RowMajorBelow(size, y, x);
    assert Concat(rows)[y * size + x] == rows[y][x];
    assert rows[y][x] == GridLocationOf(rawGrid[y][x], x, y, snapToRoads, snap);
  }

  /** Without snapping the snapped locations are the raw grid, flattened. */
  lemma {:induction false} UnsnappedLocations(rawGrid: seq<seq<Location>>, snap: Location -> SnapResult)
    ensures var locs := GridLocationsOf(rawGrid, false, snap);
      seq(|locs|, k requires 0 <= k < |locs| => locs[k].snappedLocation) == Concat(rawGrid)
    decreases |rawGrid|
  {
    if |rawGrid| > 0 {
      var front := rawGrid[..|rawGrid| - 1];
      UnsnappedLocations(front, snap);
      var rows := GridLocationRows(rawGrid, false, snap);
      assert rows[..|rows| - 1] == GridLocationRows(front, false, snap);
    }
  }

  /** A grid point as `GridLocation.to_json` writes it; locations stay
      locations, `Location.to_json` being undefined in location.py. */
  datatype GridLocationJson = GridLocationJson(
    rawLocation: Location,
    snappedLocation: Location,
    gridX: int,
    gridY: int,
    snapResultTypes: Option<seq<string>>,
    snapResultPlaceId: Option<string>)

  datatype GridJson = GridJson(
    center: Location,
    zoom: int,
    size: int,
    locations: seq<GridLocationJson>,
    routeMatrix: Option<seq<MatrixEntry>>)

  function GridLocationToJson(g: GridLocation): GridLocationJson {
    GridLocationJson(g.rawLocation, g.snappedLocation, g.gridX, g.gridY, g.snapResultTypes, g.snapResultPlaceId)
  }

  function GridLocationFromJson(j: GridLocationJson): GridLocation {
    GridLocation(j.rawLocation, j.snappedLocation, j.gridX, j.gridY, j.snapResultTypes, j.snapResultPlaceId)
  }

  /** `to_json` loses nothing: the grid's parameters, its points in order
      and its route matrix can be read back from it. */
  lemma ToJsonRoundTrip(g: Grid)
    ensures var j := g.ToJson();
      j.center == g.center && j.zoom == g.zoom && j.size == g.size && j.routeMatrix == g.routeMatrix &&
      seq(|j.locations|, k requires 0 <= k < |j.locations| => GridLocationFromJson(j.locations[k])) == g.locations
  {
    var j := g.ToJson();
    var back := seq(|j.locations|, k requires 0 <= k < |j.locations| => GridLocationFromJson(j.locations[k]));
    forall k | 0 <= k < |back| ensures back[k] == g.locations[k] {
      assert j.locations[k] == GridLocationToJson(g.locations[k]);
    }
  }
}
