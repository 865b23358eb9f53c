/** backend/backend/location.py: latitude/longitude pairs, their Routes API
    form, `linspace`, and the flat grid of marker locations laid over a
    static map. The Mercator scale factor (1 / cos(latitude)) is a
    parameter. */
module Locations {
  import opened Wrappers
  import opened Sequences

  datatype Location = Location(lat: real, lng: real)

  /** `with_offset`: a new location shifted by (dlat, dlng); as a value the
      receiver is untouched. */
  function WithOffset(l: Location, dlat: real, dlng: real): Location {
    Location(l.lat + dlat, l.lng + dlng)
  }

  /** Offsets add up, and the opposite offset undoes one. */
  lemma WithOffsetComposes(l: Location, a: real, b: real, c: real, d: real)
    ensures WithOffset(WithOffset(l, a, b), c, d) == WithOffset(l, a + c, b + d)
    ensures WithOffset(WithOffset(l, a, b), -a, -b) == l
    ensures WithOffset(l, 0.0, 0.0) == l
  {
  }

  // ---------------------------------------------------------------------
  // to_route_matrix_location: {"waypoint": {"location": {"latLng": {...}}}}

  datatype LatLngJson = LatLngJson(latitude: real, longitude: real)
  datatype WaypointLocation = WaypointLocation(latLng: LatLngJson)
  datatype Waypoint = Waypoint(location: WaypointLocation)
  datatype RouteMatrixLocation = RouteMatrixLocation(waypoint: Waypoint)

  function ToRouteMatrixLocation(l: Location): (r: RouteMatrixLocation)
    ensures r.waypoint.location.latLng.latitude == l.lat
    ensures r.waypoint.location.latLng.longitude == l.lng
  {
    RouteMatrixLocation(Waypoint(WaypointLocation(LatLngJson(l.lat, l.lng))))
  }

  function FromRouteMatrixLocation(r: RouteMatrixLocation): Location {
    Location(r.waypoint.location.latLng.latitude, r.waypoint.location.latLng.longitude)
  }

  /** The nesting loses nothing and adds nothing: it is a bijection between
      locations and route-matrix locations. */
  lemma RouteMatrixLocationRoundTrip(l: Location, r: RouteMatrixLocation)
    ensures FromRouteMatrixLocation(ToRouteMatrixLocation(l)) == l
    ensures ToRouteMatrixLocation(FromRouteMatrixLocation(r)) == r
  {
  }

  // ---------------------------------------------------------------------
  // linspace

  /** Python's `ZeroDivisionError`. */
  datatype MathError = ZeroDivision

  /** `linspace(a, b, n)`: for n <= 0 the comprehension is empty; for n == 1
      the step divides by zero before the first element exists. */
  function Linspace(a: real, b: real, n: int): (r: Result<seq<real>, MathError>)
    ensures r.Failure? <==> n == 1
    ensures n <= 0 ==> r == Success([])
    ensures n >= 2 ==> r.Success? && |r.value| == n
  {
    if n <= 0 then Success([])
    else if n == 1 then Failure(ZeroDivision)
    else Success(seq(n, i => a + (b - a) / ((n - 1) as real) * (i as real)))
  }

  /** n equally spaced values from a to b, increasing when a < b. */
  lemma {:induction false} LinspaceSpec(a: real, b: real, n: int)
    requires n >= 2
    ensures var r := Linspace(a, b, n).value;
      r[0] == a && r[n - 1] == b &&
      (forall i :: 0 <= i < n - 1 ==> r[i + 1] - r[i] == (b - a) / ((n - 1) as real)) &&
      (a < b ==> forall i, j :: 0 <= i < j < n ==> r[i] < r[j])
  {
    var r := Linspace(a, b, n).value;
    var step := (b - a) / ((n - 1) as real);
    assert step * ((n - 1) as real) == b - a;
    assert r[n - 1] == a + step * ((n - 1) as real);
    if a < b {
      assert step > 0.0;
      forall i, j | 0 <= i < j < n ensures r[i] < r[j] {
        assert r[j] - r[i] == step * ((j - i) as real);
        PositiveProduct(step, (j - i) as real);
      }
    }
  }

  lemma PositiveProduct(a: real, b: real)
    requires a > 0.0 && b > 0.0
    ensures a * b > 0.0
  {
  }

  /** Mirror pairs of a linspace average to the midpoint. */
  lemma {:induction false} LinspaceSymmetric(c: real, off: real, n: int, i: int)
    requires n >= 2 && 0 <= i < n
    ensures Linspace(c - off, c + off, n).value[i] + Linspace(c - off, c + off, n).value[n - 1 - i] == 2.0 * c
  {
    var step := (2.0 * off) / ((n - 1) as real);
    assert step * ((n - 1) as real) == 2.0 * off;
    calc {
      Linspace(c - off, c + off, n).value[i] + Linspace(c - off, c + off, n).value[n - 1 - i];
      (c - off + step * (i as real)) + (c - off + step * ((n - 1 - i) as real));
      2.0 * c - 2.0 * off + step * ((n - 1) as real);
    }
  }

  // ---------------------------------------------------------------------
  // make_grid

  /** Python's `2**zoom` for an integer zoom (a float below zero). */
  function Pow2(zoom: int): (p: real)
    ensures p > 0.0
    decreases if zoom < 0 then -zoom else zoom
  {
    if zoom == 0 then 1.0
    else if zoom > 0 then 2.0 * Pow2(zoom - 1)
    else Pow2(zoom + 1) / 2.0
  }

  /** Moving this far from the centre (scaled by zoom, and by Mercator in
      latitude) in each diagonal direction reaches a static map's corners. */
  const StaticMapSizeCoef: real := 280.0

  function MaxOffsetLng(zoom: int): real {
    StaticMapSizeCoef / Pow2(zoom)
  }

  function MaxOffsetLat(center: Location, zoom: int, mercatorScale: real): real
    requires mercatorScale > 0.0
  {
    StaticMapSizeCoef / Pow2(zoom) / mercatorScale
  }

  /** The rows' latitudes, north first (the reversed linspace). */
  function GridLats(center: Location, zoom: int, size: int, mercatorScale: real): (r: seq<real>)
    requires size >= 2 && mercatorScale > 0.0
    ensures |r| == size
  {
    var off := MaxOffsetLat(center, zoom, mercatorScale);
    Reversed(Linspace(center.lat - off, center.lat + off, size).value)
  }

  /** The columns' longitudes, west first. */
  function GridLngs(center: Location, zoom: int, size: int): (r: seq<real>)
    requires size >= 2
    ensures |r| == size
  {
    var off := MaxOffsetLng(zoom);
    Linspace(center.lng - off, center.lng + off, size).value
  }

  /** The grid in row-major order: element y*size + x lies in row y and
      column x. */
  function FlatGridOf(lats: seq<real>, lngs: seq<real>): (r: seq<Location>)
    requires |lats| == |lngs|
    ensures |r| == |lats| * |lngs|
  {
    var n := |lngs|;
    seq(|lats| * n, k requires 0 <= k < |lats| * n =>
      RowMajorBounds(n, k);
      Location(lats[k / n], lngs[k % n]))
  }

  lemma FlatGridAt(lats: seq<real>, lngs: seq<real>, y: int, x: int)
    requires |lats| == |lngs| && 0 <= y < |lats| && 0 <= x < |lngs|
    ensures y * |lngs| + x < |FlatGridOf(lats, lngs)|
    ensures FlatGridOf(lats, lngs)[y * |lngs| + x] == Location(lats[y], lngs[x])
  {
    var n := |lngs|;
    RowMajorIndex(n, y, x);
    RowMajorBelow(n, y, x);
    var k := y * n + x;
    assert FlatGridOf(lats, lngs)[k] == Location(lats[k / n], lngs[k % n]);
  }

  lemma RowMajorBelow(n: int, y: int, x: int)
    requires 0 <= y < n && 0 <= x < n
    ensures y * n + x < n * n
  {
    assert (n - 1 - y) * n >= 0;
  }

  /** `make_grid` of location.py: nested loops appending one location per
      (latitude, longitude) pair, latitudes outside. */
  method MakeGrid(center: Location, zoom: int, size: int, mercatorScale: real)
    returns (r: Result<seq<Location>, MathError>)
    requires mercatorScale > 0.0
    ensures size == 1 <==> r.Failure?
    ensures size <= 0 ==> r == Success([])
    ensures size >= 2 ==> r == Success(FlatGridOf(GridLats(center, zoom, size, mercatorScale), GridLngs(center, zoom, size)))
  {
    var offLat := MaxOffsetLat(center, zoom, mercatorScale);
    var offLng := MaxOffsetLng(zoom);
    var latsOrError := Linspace(center.lat - offLat, center.lat + offLat, size);
    if latsOrError.Failure? {
      return Failure(latsOrError.error);
    }
    var lats := Reversed(latsOrError.value);
    var lngs := Linspace(center.lng - offLng, center.lng + offLng, size).value;
    var n := |lats|;
    assert |lngs| == n;
    ghost var grid := FlatGridOf(lats, lngs);
    var locations: seq<Location> := [];
    var y := 0;
    while y < n
      invariant 0 <= y <= n && |lats| == n && |lngs| == n && |grid| == n * n
      invariant y * n <= n * n
      invariant locations == grid[..y * n]
    {
      var x := 0;
      while x < n
        invariant 0 <= x <= n
        invariant y * n + x <= n * n
        invariant locations == grid[..y * n + x]
      {
        FlatGridAt(lats, lngs, y, x);
        RowMajorBelow(n, y, x);
        assert grid[..y * n + x + 1] == grid[..y * n + x] + [grid[y * n + x]];
        locations := locations + [Location(lats[y], lngs[x])];
        x := x + 1;
      }
      assert y * n + n == (y + 1) * n;
      y := y + 1;
    }
    assert grid[..n * n] == grid;
    r := Success(locations);
  }

  /** The offsets are positive: the grid spans a real area around the
      centre. */
  lemma OffsetsPositive(center: Location, zoom: int, mercatorScale: real)
    requires mercatorScale > 0.0
    ensures MaxOffsetLng(zoom) > 0.0 && MaxOffsetLat(center, zoom, mercatorScale) > 0.0
  {
    var p := Pow2(zoom);
    assert StaticMapSizeCoef / p > 0.0;
    assert StaticMapSizeCoef / p / mercatorScale > 0.0;
  }

  /** Row latitudes, north first: the first row is at centre + offset, the
      last at centre - offset, they fall strictly from row to row, and
      opposite rows are symmetric about the centre. */
  lemma GridLatsSpec(center: Location, zoom: int, size: int, mercatorScale: real)
    requires size >= 2 && mercatorScale > 0.0
    ensures var lats := GridLats(center, zoom, size, mercatorScale);
      var off := MaxOffsetLat(center, zoom, mercatorScale);
      lats[0] == center.lat + off && lats[size - 1] == center.lat - off &&
      (forall i, j :: 0 <= i < j < size ==> lats[i] > lats[j]) &&
      (forall i :: 0 <= i < size ==> lats[i] + lats[size - 1 - i] == 2.0 * center.lat)
  {
    var off := MaxOffsetLat(center, zoom, mercatorScale);
    OffsetsPositive(center, zoom, mercatorScale);
    var l := Linspace(center.lat - off, center.lat + off, size).value;
    LinspaceSpec(center.lat - off, center.lat + off, size);
    var lats := GridLats(center, zoom, size, mercatorScale);
    assert forall i :: 0 <= i < size ==> lats[i] == l[size - 1 - i];
    forall i | 0 <= i < size ensures lats[i] + lats[size - 1 - i] == 2.0 * center.lat {
      LinspaceSymmetric(center.lat, off, size, i);
    }
  }

  /** Column longitudes, west first: from centre - offset to centre +
      offset, rising strictly, symmetric about the centre. */
  lemma GridLngsSpec(center: Location, zoom: int, size: int)
    requires size >= 2
    ensures var lngs := GridLngs(center, zoom, size);
      var off := MaxOffsetLng(zoom);
      lngs[0] == center.lng - off && lngs[size - 1] == center.lng + off &&
      (forall i, j :: 0 <= i < j < size ==> lngs[i] < lngs[j]) &&
      (forall i :: 0 <= i < size ==> lngs[i] + lngs[size - 1 - i] == 2.0 * center.lng)
  {
    var off := MaxOffsetLng(zoom);
    OffsetsPositive(center, zoom, 1.0);
    LinspaceSpec(center.lng - off, center.lng + off, size);
    forall i | 0 <= i < size
      ensures GridLngs(center, zoom, size)[i] + GridLngs(center, zoom, size)[size - 1 - i] == 2.0 * center.lng
    {
      LinspaceSymmetric(center.lng, off, size, i);
    }
  }

  /** Location y*size + x of the flat grid is in row y (latitude lats[y])
      and column x (longitude lngs[x]). */
  lemma MakeGridLayout(center: Location, zoom: int, size: int, mercatorScale: real, y: int, x: int)
    requires size >= 2 && mercatorScale > 0.0 && 0 <= y < size && 0 <= x < size
    ensures var g := FlatGridOf(GridLats(center, zoom, size, mercatorScale), GridLngs(center, zoom, size));
      |g| == size * size && y * size + x < |g| &&
      g[y * size + x] == Location(GridLats(center, zoom, size, mercatorScale)[y], GridLngs(center, zoom, size)[x])
  {
    FlatGridAt(GridLats(center, zoom, size, mercatorScale), GridLngs(center, zoom, size), y, x);
  }
}
