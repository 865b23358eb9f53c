# spacetime-maps, modelled in Dafny

Spacetime maps distort a city map so that distance on screen follows travel
time. The backend (Python) lays a grid of marker locations over a static
Google map, optionally snaps each marker to a road, and asks the Routes API
for the travel times between grid points. The request is chunked, or
sparsified to a subset of pairs. The frontend (TypeScript/React/PIXI) turns
the returned route matrix into springs whose rest lengths reflect travel
speed. It relaxes a triangulated mesh of the grid with those springs, one
step per animation tick, and draws the map texture on the deformed
triangles.

This project models the computational core of both halves:

- the triangulated grid mesh (`Mesh`);
- route matrix to springs, and the relaxation step (`Springs`);
- the constant buffers shared by the three map components, and the
  per-triangle gathering (`MapBuffers`, `SpacetimeMapComponent`,
  `SpacetimeMap`, `StretchyMap`);
- the debug overlay's closest point and force list (`DebugOverlay`);
- the keyboard toggles (`ViewSettings`);
- on the backend, locations, `linspace` and the flat grid (`Locations`),
  and the row grid and the `Grid` class (`Grids`);
- the departure-time parser, the days-ahead rule, the static-map checks and
  the request payload (`GMaps`);
- the chunked and sparsified distance-matrix requests (`DistanceMatrix`).

Shared helpers are `Wrappers` (Option/Result), `Strings` (JavaScript
`parseInt`, Python `int`, `split`, `strip`, `lower`, `join`), `Sequences`,
`Reals` (two facts about division) and `Dataset` (the shapes of the
frontend's grid data).

Modelling choices:

- Coordinates are `real`.
- Exceptions become `Failure` values.
- Operations that work by loops and in-place updates are methods, proved
  equal to a specification function, and the properties are lemmas about
  that function. Examples are `getMesh`, `stepSprings`, `make_grid`, the
  mask and reindexing loops, and `getClosestMeshPoint`.
- `TravelTime` and `Grid` are classes, because the source updates their
  fields in place.
- Functions the core calls but does not define are parameters. These are
  `Math.sqrt`, `Math.hypot`, the haversine distance, `getForce`, the
  Mercator scale factor, `snap_to_road`, the time-zone lookup and the Routes
  API itself. They are given only the facts the code relies on.

## Model

| member | source | states |
|---|---|---|
| Mesh.GetMesh | frontend/src/mesh.ts:15-54 | for gridSize >= 2 the grid is the n×n entry grid and the index list is the flattened alternating-diagonal triangle list; for gridSize <= 0 both are empty |
| Mesh.BuildGrid | frontend/src/mesh.ts:16-30 | the nested loops with the running index counter build exactly `grid[x][y]` = entry (index x·n+y, uv x/(n−1), y/(n−1)) |
| Mesh.Triangulate | frontend/src/mesh.ts:32-48 | the nested loops push, cell by cell in x-major order, the two triangles the parity rule picks |
| Mesh.MeshGrid | frontend/src/mesh.ts:16-30 | the n×n grid of entries; its shape and indices are `GridShape` and `GridIndicesBijective` |
| Mesh.GridShape | frontend/src/mesh.ts:16-30 | n columns of n entries, and entry (x, y) has index x·n + y |
| Mesh.GridIndicesBijective | frontend/src/mesh.ts:16-30 | every index in [0, n²) is held by exactly one grid cell, and every cell's index lies in that range |
| Mesh.IndexInRange | frontend/src/mesh.ts:18-19 | the index of a cell inside the grid is in [0, n²) |
| Mesh.Decode | frontend/src/mesh.ts:18-19 | an index x·n + y decodes back to column x and row y |
| Mesh.UvOfLine | frontend/src/mesh.ts:21-27 | the texture coordinate of grid line k is k/(n−1): it lies in [0, 1], is 0 exactly at k = 0 and 1 exactly at k = n−1 |
| Mesh.UvBounds | frontend/src/mesh.ts:21-27 | each entry's uvX/uvY and x/y are all equal to its grid line's texture coordinate and lie in [0, 1] |
| Mesh.ColumnTrianglesLength | frontend/src/mesh.ts:34-47 | y cells of one column contribute 2y triangles |
| Mesh.TrianglesBeforeLength | frontend/src/mesh.ts:33-48 | x complete columns contribute 2·x·(n−1) triangles |
| Mesh.FlattenLength | frontend/src/mesh.ts:50-53 | flattening triangles gives three indices per triangle |
| Mesh.TriangleCount | frontend/src/mesh.ts:32-53 | 2(n−1)² triangles, so the flat index list has 6(n−1)² entries |
| Mesh.ColumnSlots | frontend/src/mesh.ts:34-47 | within a column, cell y's triangles sit at slots 2y and 2y+1 |
| Mesh.TrianglesBeforePrefix | frontend/src/mesh.ts:33-48 | the triangles of earlier columns are a prefix of the triangles of later ones (push order) |
| Mesh.TriangleSlots | frontend/src/mesh.ts:33-48 | cell (x, y)'s pair sits at slots 2(x(n−1)+y) and +1 of any longer prefix of columns |
| Mesh.CellSlots | frontend/src/mesh.ts:34-35 | cell (x, y)'s two triangles occupy slots 2(x(n−1)+y) and 2(x(n−1)+y)+1 |
| Mesh.CellDiagonal | frontend/src/mesh.ts:36-46 | each triangle has three distinct corners of its cell, the pair covers all four, and they share edge (x+1,y)–(x,y+1) when x and y have equal parity and (x,y)–(x+1,y+1) otherwise |
| Mesh.CellWinding | frontend/src/mesh.ts:37-45 | both triangles of every cell have signed area +1/2 in index coordinates (same winding) |
| Mesh.Triangles | frontend/src/mesh.ts:32-48 | the triangle triples, two per cell; `AllTriangles` states what they are |
| Mesh.AllTriangles | frontend/src/mesh.ts:32-48 | triangle t belongs to cell t/2, uses three distinct corners of it, has indices in [0, n²) and positive unit winding |
| Mesh.FlattenAt | frontend/src/mesh.ts:50-53 | position 3t + j of the flat list is corner j of triangle t |
| Springs.Filter | frontend/src/springs.ts:18-34 | a filter never lengthens the list |
| Springs.FilterMembership | frontend/src/springs.ts:18-34 | an element survives a filter exactly when it was present and satisfies the predicate |
| Springs.FilterConcat | frontend/src/springs.ts:18-34 | filtering keeps the input order (it distributes over concatenation) |
| Springs.FilterTwice | frontend/src/springs.ts:18-34 | two chained filters are one filter by the conjunction |
| Springs.CandidateRoutesSpec | frontend/src/springs.ts:18-34 | an entry is a candidate exactly when its condition is ROUTE_EXISTS, its two indices differ and its duration is not "0s"; both directions of a pair are kept and order is preserved |
| Springs.ZeroSecondsSkipped | frontend/src/springs.ts:28-30 | inserting a "0s" entry anywhere changes nothing: it is skipped, not an error |
| Springs.MaxIndex | frontend/src/springs.ts:12-16 | the reduce never goes below its start value |
| Springs.NLocations | frontend/src/springs.ts:12-16 | nLocations is at least 1 |
| Springs.MaxIndexSpec | frontend/src/springs.ts:12-16 | the reduce bounds every origin and destination index and equals its start or one of them |
| Springs.NLocationsSpec | frontend/src/springs.ts:12-16 | nLocations is 1 + the largest index of any entry, rejected ones included (or 1 when none exceeds 0) |
| Springs.DurationSecondsOfNumeral | frontend/src/springs.ts:39 | a duration "<n>s" parses to n seconds |
| Springs.Measure | frontend/src/springs.ts:35-69 | on success the route keeps its entry, has non-zero seconds and distance, and speed = distance / seconds; a failure names the offending entry |
| Springs.MeasureOfSeconds | frontend/src/springs.ts:36-68 | a duration "<n>s" with n > 0 between two listed locations at non-zero distance measures successfully with n seconds |
| Springs.MeasureAll | frontend/src/springs.ts:35-69 | on success there is one measured route per candidate, each with its entry |
| Springs.MeasureAllSuccess | frontend/src/springs.ts:35-69 | on success the k-th measured route is what measuring the k-th candidate gives |
| Springs.MeasureAllFailure | frontend/src/springs.ts:36-61 | measuring fails exactly when some candidate fails, and the error is the first failing candidate's |
| Springs.SpringsOfShape | frontend/src/springs.ts:78-83 | one spring per route, from origin to destination, strength 0.1/nLocations, length·speed = average speed |
| Springs.RouteSpringsShape | frontend/src/springs.ts:71-84 | when every candidate measures, the springs are built: none for no candidates, otherwise one per candidate in order with the rest-length rule |
| Springs.MeasuredEndpointsListed | frontend/src/springs.ts:46-48 | a route that measures joins two listed locations |
| Springs.RouteSpringsInRange | frontend/src/springs.ts:46-83 | every spring built joins two listed locations |
| Springs.RouteMatrixToSprings | frontend/src/springs.ts:11-85 | the specification of routeMatrixToSprings (candidate routes measured, average speed, one spring per route); its properties are `RouteSpringsFailure`, `RouteSpringsShape` and `RouteSpringsInRange` |
| Springs.RouteSpringsFailure | frontend/src/springs.ts:35-69 | routeMatrixToSprings fails exactly when measuring the candidates fails, with the same error |
| Springs.SlowRoutesAreLong | frontend/src/springs.ts:81 | a route at the average speed has rest length 1, a slower one a rest length above 1 |
| Springs.SpeedRatioSumValue | frontend/src/springs.ts:71-81 | the sum of speed/average is the speed sum divided by the average |
| Springs.ReciprocalLengthsSumToCount | frontend/src/springs.ts:71-83 | the reciprocal rest lengths of all springs sum to their number (they average to 1) |
| Springs.RouteFilteringExample | frontend/src/springs.ts:18-83 | a matrix of one "0s" and one "120s" routable entry yields exactly one spring, for the second entry |
| Springs.AccumulateOne | frontend/src/springs.ts:100-115 | applying one more spring adds its push to its `from` accumulator and subtracts it from its `to` accumulator, positions untouched |
| Springs.StepSprings | frontend/src/springs.ts:87-122 | the snapshot, the forEach accumulation and the final map compute exactly `Stepped`: each free vertex moved by the sum of its springs' pushes, computed on pre-step positions |
| Springs.ApplySpring | frontend/src/springs.ts:100-115 | one turn of the forEach: the spring's push, measured on the positions before the step, added at `from` and taken at `to`, gives the accumulators of the springs so far plus this one |
| Springs.PinnedInvariant | frontend/src/springs.ts:92-98 | the step keeps the length and every pinned flag, and pinned vertices do not move |
| Springs.NoTimeNoDisplacement | frontend/src/springs.ts:106 | with deltaSeconds 0 no vertex is displaced |
| Springs.Stepped | frontend/src/springs.ts:100-121 | the specification of one step (each free vertex moved by the sum of the pushes of the springs touching it, pinned vertices kept); its contract is `StepSprings`, and its properties are `PinnedInvariant`, `ZeroDeltaIsIdentity` and `SteppedPermutation` |
| Springs.ZeroDeltaIsIdentity | frontend/src/springs.ts:100-121 | with no elapsed time the step is the identity, and with no springs it is the identity for every time step |
| Springs.RestingSpringPushesNothing | frontend/src/springs.ts:106 | a spring at its rest length, or of zero strength, pushes nothing |
| Springs.StretchedSpringPulls | frontend/src/springs.ts:103-114 | a stretched spring's push points from `from` towards `to`, of size (distance−length)·strength·deltaSeconds |
| Springs.ShareSumValue | frontend/src/springs.ts:111-114 | summed over vertices 0..m−1, one spring's shares are its push (if `from` is among them) minus its push (if `to` is) |
| Springs.DisplacementSumSplit | frontend/src/springs.ts:100-115 | the total displacement splits into that of all springs but the last plus the last one's |
| Springs.DisplacementsCancel | frontend/src/springs.ts:111-114 | the displacements of all vertices sum to zero (equal and opposite pushes) |
| Springs.ZeroSprings | frontend/src/springs.ts:100 | no springs displace nothing |
| Springs.DisplacementRotate | frontend/src/springs.ts:100-115 | moving a spring from the end to the front of the list changes no displacement (order independence) |
| Springs.DisplacementConcat | frontend/src/springs.ts:100-115 | the displacement of two spring lists run one after the other is the sum of their displacements |
| Springs.DisplacementPermutation | frontend/src/springs.ts:100-115 | any two spring lists holding the same springs equally often (equal multisets) give every vertex the same displacement |
| Springs.SteppedPermutation | frontend/src/springs.ts:100-121 | so the whole step is the same for every ordering of the springs |
| MapBuffers.FlatMeshGrid | frontend/src/components/SpacetimeMap.tsx:88-90 | the flattened mesh grid has n² entries and entry i is grid cell (i/n, i%n), with index i |
| MapBuffers.InitialPositionsLayout | frontend/src/components/SpacetimeMap.tsx:90-103 | the position buffer has 2M entries; entry i is free and entry i+M pinned, both at grid entry i's x, y |
| MapBuffers.FlatUvsAt | frontend/src/components/SpacetimeMap.tsx:114-119 | the flat texture buffer has 2M values, uvX_i at 2i and uvY_i at 2i+1 |
| MapBuffers.RestPositionsAreUvs | frontend/src/components/SpacetimeMap.tsx:90-119 | in the resting buffers every vertex, free or pinned, sits at its own texture coordinates |
| MapBuffers.BuffersOf | frontend/src/SpacetimeMap.tsx:81-122 | the constant buffers for a grid of side n and the route springs; `BuffersLayout` states their layout |
| MapBuffers.ConstantGridDataOf | frontend/src/SpacetimeMap.tsx:81-122 | `getConstantGridData`, failing where routeMatrixToSprings fails; `ConstantGridDataSpringsInRange` states its springs are in range |
| MapBuffers.CreateTriangleMeshes | frontend/src/SpacetimeMap.tsx:17-60 | one gathered item per triangle; `CreateMeshGathers`, `RestMeshIsUndistorted` and `TextureFollowsGrid` state what the items hold |
| MapBuffers.BuffersLayout | frontend/src/components/SpacetimeMap.tsx:83-128 | M = n² vertices free then pinned, M anchor springs i→i+M (length 0, strength 1) before the route springs, the mesh's triangles and the 2M texture values |
| MapBuffers.BuffersSpringsInRange | frontend/src/components/SpacetimeMap.tsx:105-112 | when the route springs stay within the first M vertices, every spring stays within the 2M buffer |
| MapBuffers.ConstantGridDataSpringsInRange | frontend/src/components/SpacetimeMap.tsx:83-128 | for a dataset with at most M locations the constant data's springs all fit the position buffer |
| MapBuffers.GatherAt | frontend/src/components/SpacetimeMap.tsx:27-43 | corner c of a gathered item has its scaled position at slots 2c, 2c+1 of the vertices and flatUvs[2t], flatUvs[2t+1] at the same slots of the uvs |
| MapBuffers.TriangleCornersInGrid | frontend/src/mesh.ts:36-46 | every mesh triangle's corners are vertex indices below n² |
| MapBuffers.MeshTrianglesInBuffers | frontend/src/components/SpacetimeMap.tsx:26-44 | every mesh triangle can be gathered from the resting buffers |
| MapBuffers.GatherMatchesUvs | frontend/src/components/SpacetimeMap.tsx:27-43 | when each corner sits at its texture coordinates, the gathered vertices are the uvs times the scale |
| MapBuffers.RestMeshIsUndistorted | frontend/src/components/SpacetimeMap.tsx:26-44 | drawn from the resting buffers, every triangle's vertices are its uvs times mapSizePx: the map is drawn undistorted |
| MapBuffers.TextureFollowsGrid | frontend/src/components/SpacetimeMap.tsx:36-43 | whatever the current positions, each triangle samples the texture at its corners' grid coordinates |
| MapBuffers.DeltaSeconds | frontend/src/components/SpacetimeMap.tsx:143 | the tick's seconds times 60 give back PIXI's frame delta |
| SpacetimeMapComponent.Tagged | frontend/src/components/SpacetimeMap.tsx:105-112 | tagging keeps one spring per spring |
| SpacetimeMapComponent.GetConstantGridData | frontend/src/components/SpacetimeMap.tsx:83-128 | the component's constant buffers, springs tagged; `TaggedSpringsLayout` states their layout |
| SpacetimeMapComponent.TaggedSpringsLayout | frontend/src/components/SpacetimeMap.tsx:83-128 | without tags the component's springs are the shared anchor-then-route springs, the other buffers are the shared ones, and spring k has isAnchor exactly when k < M |
| SpacetimeMapComponent.TaggedSpringsOf | frontend/src/components/SpacetimeMap.tsx:105-112 | the same layout, for any route springs |
| SpacetimeMapComponent.NormalizedHoveredPoint | frontend/src/components/SpacetimeMap.tsx:76-81 | null stays null, and the normalised point times mapSizePx is the hovered point |
| SpacetimeMapComponent.CreateMeshTrianglesGathers | frontend/src/components/SpacetimeMap.tsx:19-59 | one item per triangle, in order; its 6 vertex values are the corners' positions times mapSizePx and its uvs are flatUvs[2t], flatUvs[2t+1] |
| SpacetimeMap.SquareCoversWindow | frontend/src/SpacetimeMap.tsx:70-73 | mapSizePx is the larger dimension, both offsets are ≤ 0, at least one is 0, and 2·offset + mapSizePx is the dimension |
| SpacetimeMap.NormalizeRoundTrip | frontend/src/SpacetimeMap.tsx:75-80 | null stays null, and offset + normalised·mapSizePx gives the hovered point back |
| SpacetimeMap.CreateMeshGathers | frontend/src/SpacetimeMap.tsx:17-60 | one mesh per triangle, vertices scaled by max(width, height), uvs gathered at 2t and 2t+1 |
| StretchyMap.ChunkCountBound | frontend/src/StretchyMap.tsx:23 | the loop stepping by 3 visits run m exactly when 3m < len, i.e. ⌈len/3⌉ runs |
| StretchyMap.Chunk | frontend/src/StretchyMap.tsx:24 | the slice holds min(3, len−3k) indices, the ones at 3k, 3k+1, 3k+2 |
| StretchyMap.StretchyMeshes | frontend/src/StretchyMap.tsx:17-47 | one item per run of three indices; `CreateMesh` is proved against it and `MeshesFollowTriangles` and `GridMeshCount` state what the items are |
| StretchyMap.CreateMesh | frontend/src/StretchyMap.tsx:17-47 | the loop emits, for each run of three indices, the item gathering their positions (x by width, y by height) and their uvs at 2i, 2i+1 |
| StretchyMap.FlattenedCornersIn | frontend/src/StretchyMap.tsx:24-31 | every index of a flattened in-range triangle list can be gathered |
| StretchyMap.MeshesFollowTriangles | frontend/src/StretchyMap.tsx:22-44 | on a flattened triangle list, run k is exactly triangle k's corners |
| StretchyMap.GridMeshCount | frontend/src/StretchyMap.tsx:22-44 | for getMesh's index list the prototype draws exactly 2(n−1)² items |
| StretchyMap.StretchyBuffersLayout | frontend/src/StretchyMap.tsx:56-98 | the prototype's buffers are the shared ones with the triangle list flattened, and can be drawn from any state of at least M vertices |
| DebugOverlay.GetClosestMeshPoint | frontend/src/DebugOverlay.tsx:8-21 | 0 when every vertex is pinned (or none exists); otherwise an unpinned vertex no farther than any unpinned vertex and strictly closer than every unpinned one before it (ties go to the lowest index) |
| DebugOverlay.ClosestIsUnique | frontend/src/DebugOverlay.tsx:12-19 | at most one index meets that description, so the answer is determined |
| DebugOverlay.TouchingWithinFiltered | frontend/src/DebugOverlay.tsx:50-51 | every spring the filter keeps touches the index and has both ends in the state |
| DebugOverlay.GetForcesForEntry | frontend/src/DebugOverlay.tsx:45-68 | the force list of an entry, one item per touching spring; what each item holds is `ForcesForEntrySpec` |
| DebugOverlay.ForcesForEntrySpec | frontend/src/DebugOverlay.tsx:45-68 | one item per touching spring, in order: the item's entry is the spring's other end and its force is getForce(meshState[index], that end, length) |
| DebugOverlay.TouchingSpec | frontend/src/DebugOverlay.tsx:50-51 | a spring is listed exactly when from or to equals the index, and order is preserved |
| DebugOverlay.OtherEndOrientation | frontend/src/DebugOverlay.tsx:53-56 | the far end is `to` when the spring starts at the index and `from` when it ends there |
| ViewSettings.ToggleSetting | frontend/src/viewSettings.ts:13-18 | the named switch is negated, every other switch and the threshold are unchanged |
| ViewSettings.SettingsExtensional | frontend/src/viewSettings.ts:1-11 | settings are determined by their seven switches and the threshold |
| ViewSettings.ToggleTwice | frontend/src/viewSettings.ts:13-18 | toggling the same setting twice gives the settings back |
| ViewSettings.UpdateViewSettings | frontend/src/viewSettings.ts:20-35 | a key press never changes the distance threshold |
| ViewSettings.UpdateSpec | frontend/src/viewSettings.ts:24-34 | a mapped key toggles exactly its setting; any other key leaves the settings unchanged |
| ViewSettings.KeyCodeToSetting | frontend/src/viewSettings.ts:24-32 | the key table; `KeyTableBijective` and `KeyTableInjective` state that it is one-to-one on the seven switches |
| ViewSettings.KeyTableBijective | frontend/src/viewSettings.ts:24-32 | a key maps to setting s exactly when it is s's key: the table covers all seven switches |
| ViewSettings.KeyTableInjective | frontend/src/viewSettings.ts:24-32 | no two keys map to the same setting |
| Locations.WithOffset | backend/backend/location.py:13-14 | a new location offset by the given latitude and longitude; `WithOffsetComposes` states its algebra |
| Locations.WithOffsetComposes | backend/backend/location.py:13-14 | offsets add up, the opposite offset undoes one, and a zero offset is the identity |
| Locations.ToRouteMatrixLocation | backend/backend/location.py:16-21 | latitude and longitude sit under waypoint.location.latLng |
| Locations.RouteMatrixLocationRoundTrip | backend/backend/location.py:16-21 | the nesting is a bijection: unwrapping gives the location back and rewrapping the structure back |
| Locations.Linspace | backend/backend/location.py:27-28 | fails (division by zero) exactly when n = 1, is empty for n ≤ 0 and has n elements for n ≥ 2 |
| Locations.LinspaceSpec | backend/backend/location.py:27-28 | n values from a to b in equal steps (b−a)/(n−1), strictly increasing when a < b |
| Locations.LinspaceSymmetric | backend/backend/location.py:27-28 | mirror values of a linspace symmetric about c average to c |
| Locations.Pow2 | backend/backend/location.py:57-60 | 2**zoom is positive |
| Locations.GridLats | backend/backend/location.py:64-66 | size row latitudes |
| Locations.GridLngs | backend/backend/location.py:67-69 | size column longitudes |
| Locations.FlatGridOf | backend/backend/location.py:62-70 | a flat grid of |lats|·|lngs| locations |
| Locations.FlatGridAt | backend/backend/location.py:64-70 | element y·size + x is (lats[y], lngs[x]) |
| Locations.MakeGrid | backend/backend/location.py:48-72 | fails exactly when size = 1, is empty for size ≤ 0, and otherwise the nested loops build the flat row-major grid of the reversed latitudes and the longitudes |
| Locations.OffsetsPositive | backend/backend/location.py:56-60 | both offsets are positive |
| Locations.GridLatsSpec | backend/backend/location.py:56-66 | latitudes run from centre + max_offset_lat (north) to centre − max_offset_lat, strictly falling, symmetric about the centre |
| Locations.GridLngsSpec | backend/backend/location.py:60-69 | longitudes run from centre − max_offset_lng to centre + max_offset_lng, strictly rising, symmetric about the centre |
| Locations.MakeGridLayout | backend/backend/location.py:62-70 | the grid has size² elements and element y·size + x is (y-th latitude, x-th longitude) |
| Grids.MakeGridRows | backend/backend/grid.py:81-108 | fails exactly when size = 1, is empty for size ≤ 0, and otherwise the loops build size rows: row y is the y-th latitude with every longitude |
| Grids.RowsFlattenToFlatGrid | backend/backend/grid.py:95-106 | flattening the rows gives location.py's flat grid |
| Grids.GridRowsLayout | backend/backend/grid.py:87-106 | size rows of size; latitude constant within a row and falling row by row, longitude rising along a row; corners at centre ± offsets |
| Grids.Grid.FromRawGrid | backend/backend/grid.py:30-62 | the fields are set, the loops append one grid location per raw location row-major, and there is no route matrix yet |
| Grids.Grid.Create | backend/backend/grid.py:30-62 | apart from snap_to_road's own errors, constructing a grid fails exactly when size = 1 (the linspace division by zero), is empty for size ≤ 0, and otherwise holds the grid locations of make_grid's rows |
| Grids.Grid.SnappedLocations | backend/backend/grid.py:73-74 | one snapped location per grid location, in order: position k is the k-th grid location's snapped location |
| Grids.Grid.ToJson | backend/backend/grid.py:64-71 | centre, zoom, size and route matrix are kept, and one JSON location per grid location |
| Grids.GridLocationOf | backend/backend/grid.py:47-59 | one grid location: raw and snapped location, its grid coordinates, and the snap result when snapping; `GridLocationsLayout` states the layout |
| Grids.GridLocationsLayout | backend/backend/grid.py:41-62 | position y·size + x has raw location rawGrid[y][x], grid_x = x and grid_y = y; snapped from the snap result when snapping, and equal to the raw location with no snap fields otherwise |
| Grids.UnsnappedLocations | backend/backend/grid.py:48-62 | without snapping, the snapped locations are the raw grid flattened |
| Grids.ToJsonRoundTrip | backend/backend/grid.py:18-26 | to_json loses nothing: every grid location is recovered from its JSON in order |
| GMaps.IndexOf | backend/backend/gmaps.py:55 | the first position holding the word, or none when it is absent |
| GMaps.TravelTime.constructor | backend/backend/gmaps.py:37-41 | the four fields take the given values |
| GMaps.TravelTime.SetLocation | backend/backend/gmaps.py:79-80 | only the location changes |
| GMaps.FromString | backend/backend/gmaps.py:43-77 | fails with the parser's error, returns none for blank text, and otherwise a fresh travel time whose fields are the parsed day, hour and minute and the given location |
| GMaps.SetClock | backend/backend/gmaps.py:61-75 | sets hour and minute as the parser says, or reports its error; the day and location are untouched |
| GMaps.ParseTravelTime | backend/backend/gmaps.py:43-77 | the specification of `from_string` (blank text, three words, day, clock); its properties are `BlankMeansNone`, `ThreeWords`, `TwoWordsRejected` and `ParsedDayIsWeekday`, and `FromString` is proved against it |
| GMaps.ParseWords | backend/backend/gmaps.py:51-77 | the three words parsed: the day looked up in lower case, then the time; `KnownDay`, `WordsNeverNone` and `ParsedDayIsWeekday` state what it gives |
| GMaps.ParseTime | backend/backend/gmaps.py:59-75 | the time word and the am/pm suffix parsed into a clock; `TimeKeepsDay`, `BareHourTime` and `SetClock` state what it gives |
| GMaps.BlankMeansNone | backend/backend/gmaps.py:44-45 | the result is "no time" exactly when every character of the text is Python white space (`str.isspace`, Unicode space separators included) |
| GMaps.ParsedDayIsWeekday | backend/backend/gmaps.py:54-57 | a parsed day is in 0..6 and names the lower-cased first word, so the −1 check never fires |
| GMaps.TimeKeepsDay | backend/backend/gmaps.py:59-75 | parsing the time word keeps the day |
| GMaps.TwoWordsRejected | backend/backend/gmaps.py:49-51 | any two space-separated words are rejected as the wrong number of words |
| GMaps.CommentExampleRejected | backend/backend/gmaps.py:49-51 | the two-word text "monday 10am" is rejected as not three words |
| GMaps.LowerDays | backend/backend/gmaps.py:54-55 | each day name is lower case, has no space and is found at its own position |
| GMaps.DaysDistinct | backend/backend/gmaps.py:54 | the seven day names differ |
| GMaps.SplitThree | backend/backend/gmaps.py:51 | "a b c" splits on spaces into exactly a, b, c |
| GMaps.NumeralIsNotBlank | backend/backend/gmaps.py:44 | text starting with a digit is not blank |
| GMaps.KnownDayWords | backend/backend/gmaps.py:43-77 | three words with a known day, in any case, are read by the time-word rule with that day |
| GMaps.ThreeWords | backend/backend/gmaps.py:51-57 | non-blank text of three words is parsed from those words |
| GMaps.KnownDay | backend/backend/gmaps.py:54-59 | a known day, in any case, gives its index and the suffix is lower-cased |
| GMaps.NumeralHasNoSeparator | backend/backend/gmaps.py:61 | a numeral has no space or colon and starts with a digit |
| GMaps.BareHour | backend/backend/gmaps.py:65-75 | "12 am" is hour 0, "12 pm" hour 12, "h pm" hour h+12, "h am" hour h, with minute 0; any other suffix is an error |
| GMaps.BareHourTime | backend/backend/gmaps.py:65-75 | the same rule on the time word alone |
| GMaps.HourAndMinute | backend/backend/gmaps.py:61-64 | "h:m" gives hour h and minute m verbatim, whatever the third word is |
| GMaps.DaysAhead | backend/backend/gmaps.py:85-108 | the days-ahead rule of `to_string` and its errors; what it gives is `DaysAheadIsNextOccurrence` |
| GMaps.DaysAheadIsNextOccurrence | backend/backend/gmaps.py:85-108 | fails exactly without a location, without a time zone or with an hour/minute `time()` rejects; otherwise the result is in [0, 7], is the least number of days after which the weekday matches and the time is strictly later, and is 0 only for later today |
| GMaps.WeekdayShift | backend/backend/gmaps.py:103-105 | today's weekday advanced by days_ahead is the target weekday |
| GMaps.SameWeekday | backend/backend/gmaps.py:105-108 | no earlier day offset lands on the target weekday |
| GMaps.StaticMapQueryOf | backend/backend/gmaps.py:122-146 | the checks and query parameters of `get_static_map`; `StaticMapChecks` and `StaticMapParameters` state them |
| GMaps.StaticMapChecks | backend/backend/gmaps.py:129-133 | zoom outside 0..21 is rejected first, then a size above 640; otherwise the query is built |
| GMaps.StaticMapParameters | backend/backend/gmaps.py:138-146 | the size splits at "x" into the numeral of n twice; with no markers the markers value is a single pipe, otherwise splitting it at pipes gives "" and then each shown marker |
| GMaps.GetDistanceMatrixApiPayload | backend/backend/gmaps.py:156-179 | origins and destinations are wrapped one for one and unwrap back; the travel mode is its name; departureTime is present exactly for TRANSIT with a time given; routingPreference is present exactly for DRIVE, as TRAFFIC_UNAWARE |
| DistanceMatrix.AllFaithfulConcat | backend/backend/gmaps.py:267 | concatenating faithful entry lists stays faithful |
| DistanceMatrix.Shift | backend/backend/gmaps.py:263-266 | a present origin index grows by i, a present destination index by j, absent ones stay absent, and the route data is unchanged |
| DistanceMatrix.ShiftEntries | backend/backend/gmaps.py:260-266 | the in-place loop shifts every entry of a chunk |
| DistanceMatrix.GetBand | backend/backend/gmaps.py:250-267 | the inner loop yields the shifted chunks of one band of origins |
| DistanceMatrix.GetDistanceMatrix | backend/backend/gmaps.py:239-270 | above 50 pairs the 25×25 blocks, in order, each offset by its chunk starts; otherwise one call |
| DistanceMatrix.BlockFaithful | backend/backend/gmaps.py:251-266 | after the offsets, each index an entry of a block carries is in range of the whole lists on its own, and an entry with both indices names the origin and destination it describes |
| DistanceMatrix.BandFaithful | backend/backend/gmaps.py:250-267 | the same for a band of blocks |
| DistanceMatrix.BandsFaithful | backend/backend/gmaps.py:249-267 | the same for all bands |
| DistanceMatrix.DistanceMatrixOf | backend/backend/gmaps.py:239-270 | the specification of `get_distance_matrix`; `GetDistanceMatrix` is proved against it and `DistanceMatrixFaithful` states its indices are right |
| DistanceMatrix.DistanceMatrixFaithful | backend/backend/gmaps.py:239-270 | with an API that answers each request by its own indices, each index a returned entry carries is in range of the full origin or destination list, even when the other index is missing, and an entry with both indices describes the route between the locations they name |
| DistanceMatrix.MaskOf | backend/backend/gmaps.py:282-291 | the requested pairs, the lower triangle cleared only when `origins == destinations` holds, which for `Location` (no `__eq__`) means the same objects; `MaskShape` states its cells |
| DistanceMatrix.ClearLowerTriangle | backend/backend/gmaps.py:287-291 | the in-place loops clear exactly the cells below the diagonal of a square mask and keep every other cell |
| DistanceMatrix.BuildMask | backend/backend/gmaps.py:282-291 | the comprehension and, when mirroring is filtered and the two lists are the same objects, the clearing loops build exactly the mask function |
| DistanceMatrix.MaskShape | backend/backend/gmaps.py:282-291 | mask[i][j] is should_include, except that it is false for j < i when mirroring is filtered and the lists are the same objects; the diagonal and upper triangle are kept; two equal lists built apart get no clearing |
| DistanceMatrix.IncludedLast | backend/backend/gmaps.py:317-319 | the included columns of a row grow by the last column when it is included |
| DistanceMatrix.IncludedCount | backend/backend/gmaps.py:293 | a row has as many included columns as true cells |
| DistanceMatrix.IncludedSound | backend/backend/gmaps.py:317-319 | every listed column is in range and true |
| DistanceMatrix.IncludedIncreasing | backend/backend/gmaps.py:317-319 | the listed columns strictly increase |
| DistanceMatrix.IncludedComplete | backend/backend/gmaps.py:317-319 | every true column is listed |
| DistanceMatrix.IncludedSpec | backend/backend/gmaps.py:317-319 | the four facts together |
| DistanceMatrix.CurDestinationsEmpty | backend/backend/gmaps.py:307-314 | a row has no destinations exactly when it is all false (the row is skipped) |
| DistanceMatrix.ReindexingStep | backend/backend/gmaps.py:317-319 | one loop step adds the column under the next key exactly when it is included |
| DistanceMatrix.Reindexing | backend/backend/gmaps.py:316-319 | the loop builds the reindexing map of the row |
| DistanceMatrix.ReindexingOf | backend/backend/gmaps.py:316-319 | the reindexing map of a row; `Reindexing` is proved against it and `ReindexingSpec` states what it maps |
| DistanceMatrix.ReindexingSpec | backend/backend/gmaps.py:316-319 | keys are exactly 0..count−1, key k maps to the k-th included column, values strictly increase and every included column is reached |
| DistanceMatrix.PrependTwice | backend/backend/gmaps.py:328-335 | prepending done entries in two steps equals prepending them at once |
| DistanceMatrix.RewriteEntries | backend/backend/gmaps.py:328-333 | the in-place loop rewrites every entry or stops at the first assertion or key error |
| DistanceMatrix.GetSparsifiedDistanceMatrix | backend/backend/gmaps.py:273-335 | the mask, the count check and the per-origin requests compute exactly the sparsified result |
| DistanceMatrix.RequestRows | backend/backend/gmaps.py:303-335 | the loop over the origins: rows with no included destination are skipped, the others are requested, reindexed and rewritten in order, and the first failed rewrite is returned |
| DistanceMatrix.RewriteEntryFaithful | backend/backend/gmaps.py:328-333 | a rewritten entry's origin index, when present, is i, and its destination index, when present, is the original column and in range on its own; with both present it describes that route and the pair is included by the mask |
| DistanceMatrix.RewriteAllFaithful | backend/backend/gmaps.py:328-333 | the same for a whole response |
| DistanceMatrix.SparseFromFaithful | backend/backend/gmaps.py:304-335 | the same for the rows from i on |
| DistanceMatrix.SparsifiedOf | backend/backend/gmaps.py:273-335 | the specification of `get_sparsified_distance_matrix`; `GetSparsifiedDistanceMatrix` is proved against it, and `SparsifiedFaithful` and `NoElementsExactly` state its results and errors |
| DistanceMatrix.SparsifiedFaithful | backend/backend/gmaps.py:273-335 | with a well-behaved API the result fails exactly for a zero count or a failed rewrite; otherwise each index an entry carries is in range of the full lists on its own, and an entry with both indices describes the route between them and names a pair the mask includes |
| DistanceMatrix.RewriteEntry | backend/backend/gmaps.py:328-333 | the rewrite of one entry; `RewriteEntrySpec` states when it fails and what it gives |
| DistanceMatrix.RewriteEntrySpec | backend/backend/gmaps.py:329-333 | an entry fails exactly for an origin index other than 0 or a destination index not in the map; otherwise origin becomes i_origin and destination is remapped |
| DistanceMatrix.RewriteAllError | backend/backend/gmaps.py:328-333 | rewriting never reports "no elements" |
| DistanceMatrix.SparseFromError | backend/backend/gmaps.py:304-335 | nor do the per-row requests |
| DistanceMatrix.NoElementsExactly | backend/backend/gmaps.py:293-297 | the "no elements" error is raised exactly when the mask holds no true cell |
| Strings.DigitValue | frontend/src/springs.ts:39 | a decimal digit's value is below 10, a hex digit's below 16 |
| Strings.DigitChar | backend/backend/gmaps.py:141 | the digit character of d has value d |
| Strings.NatToString | backend/backend/gmaps.py:141 | a numeral is all digits and not empty |
| Strings.NatToStringValue | backend/backend/gmaps.py:141 | the numeral of n has value n |
| Strings.DigitPrefix | frontend/src/springs.ts:39 | the longest run of leading digits |
| Strings.DigitPrefixOfNumeral | frontend/src/springs.ts:39 | the digit run of a numeral followed by a non-digit is the numeral |
| Strings.SkipJsSpace | frontend/src/springs.ts:39 | parseInt's leading white space (ECMAScript WhiteSpace and LineTerminator characters, all Unicode space separators among them) is removed and no more: every dropped character is white space, and what is left is a suffix that does not start with white space |
| Strings.JsParseInt | frontend/src/springs.ts:39 | `parseInt` with no radix, or None where it gives NaN; `JsParseIntOfNumeral` and `JsParseIntOfDigits` state what it reads |
| Strings.JsParseIntOfNumeral | frontend/src/springs.ts:39 | parseInt reads back every numeral |
| Strings.JsParseIntOfDigits | frontend/src/springs.ts:39 | parseInt of a non-empty run of decimal digits is its decimal value |
| Strings.TrimStart | backend/backend/gmaps.py:44 | strips exactly the leading Python white space (`str.isspace`, Unicode space separators included) |
| Strings.TrimEnd | backend/backend/gmaps.py:44 | strips exactly the trailing Python white space (`str.isspace`, Unicode space separators included) |
| Strings.Strip | backend/backend/gmaps.py:44 | `str.strip` with no argument; `StripAt` and `StripEmptyIffBlank` state what it keeps |
| Strings.StripEmptyIffBlank | backend/backend/gmaps.py:44 | stripping gives "" exactly when every character is Python white space |
| Strings.Lower | backend/backend/gmaps.py:55 | lower-casing keeps the length and maps each character |
| Strings.Split | backend/backend/gmaps.py:51 | splitting yields at least one piece |
| Strings.SplitJoin | backend/backend/gmaps.py:51 | joining the pieces gives the text back, no piece holds the separator, and there is one piece more than separators |
| Strings.SplitWithoutSeparator | backend/backend/gmaps.py:51 | text without the separator splits into itself |
| Strings.SplitAtFirst | backend/backend/gmaps.py:62 | splitting at the first separator gives the word before it, then the rest's pieces |
| Strings.PyIntHasDigit | backend/backend/gmaps.py:63-66 | int() succeeds only on text holding a digit |
| Strings.PyInt | backend/backend/gmaps.py:63-66 | Python `int` of a string, or None where it raises; `PyIntOfNumeral`, `PyIntOfDigits` and `PyIntHasDigit` state what it reads |
| Strings.PyIntOfDigits | backend/backend/gmaps.py:63-66 | int() of a non-empty run of decimal digits is its decimal value |
| Strings.PyIntOfNumeral | backend/backend/gmaps.py:63-66 | int() reads back every numeral |
| Strings.SplitOfJoin | backend/backend/gmaps.py:143 | joining separator-free pieces and splitting again gives the pieces back |
| Strings.IntToString | backend/backend/gmaps.py:141 | str() of an integer is never empty |
| Sequences.ConcatOfRows | frontend/src/components/SpacetimeMap.tsx:88-90 | flattening rows of length n puts rows[x][y] at x·n + y |
| Sequences.Reversed | backend/backend/location.py:64 | reversal keeps the length and reads from the other end |
| Sequences.RowMajorIndex | frontend/src/mesh.ts:18-19 | position x·m + y decodes to row x, column y |
| Sequences.RowMajorBounds | frontend/src/mesh.ts:18-19 | every position below m² decodes to a row and a column below m |

## Left out

- Mesh.GetMesh: requires gridSize ≠ 1. A gridSize of 1 divides 0 by 0 and puts NaN into the single entry, and NaN is not modelled.
- MapBuffers.ConstantGridDataOf, MapBuffers.BuffersOf, SpacetimeMapComponent.GetConstantGridData, StretchyMap.GetConstantGridData: require a grid size of at least 2. The source also runs for a size ≤ 0 and gives empty buffers, but no dataset has such a size: `make_grid` raises for size 1, and a size ≤ 0 gives no locations, for which `get_sparsified_distance_matrix` raises "No elements to include", so no route matrix is exported. The empty-buffer case is not modelled.
- Springs.StepSprings: requires every spring to join two existing vertices. With an out-of-range index the source throws a TypeError, which the model does not capture.
- Springs.Measure: a duration without digits before the first "s" makes `parseInt` return NaN, and the source goes on to compute NaN speeds. The model reports this as an `UnparsableDuration` error instead. It reports a location index outside the dataset, where the source throws a TypeError, as `MissingLocation`.
- GMaps.SetClock: requires the minute to be the initial 0. `from_string` always calls it on a fresh travel time.
- Floating point: coordinates and speeds are exact `real`s, with no rounding, infinities or NaN. mesh.ts stores the flattened triangle indices in a `Float32Array`, which holds integers exactly only up to 2^24; the model keeps them as exact integers. The average speed over zero routes (0/0) does not arise, because without routes the model returns no springs.
- Abstract functions, each a parameter: the haversine body of `getSphericalDistance`, `Math.sqrt`, `Math.hypot`, `getMercatorScaleFactor` (given only as a positive factor) and `getForce`, which is imported from springs.ts but not defined there. The direction of a spring is the delta divided by the distance, standing for cos/sin of `atan2`.
- Network and prompts: `requests` calls, the 429 retry with `time.sleep`, `get_api_key`, URL and query-string assembly, and `confirm_if_expensive*`, which reads `input()`. The Routes API is a function from an (origins, destinations) request to its entries. The travel mode and departure time passed to it are folded into that function.
- `snap_to_road`: its reverse-geocoding request and its result-type preference, because both depend on the API response. It is a parameter returning a location, types and place id, so its `ValueError`s (a non-OK status, no result of a wanted type) are not modelled and `Grids.Grid.Create` cannot raise them.
- `TravelTime.to_string`: `TimezoneFinder`, pytz, `datetime.now`, date arithmetic and `strftime` are left out. The time-zone lookup is a parameter, and the current weekday and time are inputs. Only the days-ahead rule and the errors before it are modelled.
- Object identity: Python's `origins == destinations` on lists of `Location`, which defines no `__eq__`, compares the objects themselves. The model has no object identities; the outcome of that comparison is the parameter `sameObjects` of the sparsified request, and the method requires it to imply equal lists.
- Generators: `get_distance_matrix` and `get_sparsified_distance_matrix` yield lazily, so a caller sees the entries before an error. The model returns the whole list, or the error.
- Default arguments: Dafny has none, so the model's callers pass each value. The defaults are size_pixels=400 and scale=2 (`get_static_map`), travel_mode=DRIVE (folded into the API function), filter_mirrored=True (`get_sparsified_distance_matrix`), size=5 (`make_grid`, in location.py and grid.py) and snap_to_roads=True (`Grid`).
- Logging side effects: `console.log`/`console.error`, `logger.info` and tqdm progress bars.
- Version skew between the map components and springs.ts: both SpacetimeMap.tsx files pass extra arguments to `stepSprings`, which ignores them, and destructure its result as a pair `[newVertexPositions, _]` although it returns a single list. They also destructure `triangles` where `getMesh` returns `triangleIndices`. The model gives them getMesh's triangle triples before flattening, and the stepped list itself.
- ViewSettings: `toggleSetting` on `showSpringsThreshold` (a number) is not modelled, since only the seven boolean switches are toggled by keys. Neither are key codes that name inherited object properties.
- `Location.__str__`/`__repr__` formatting of floats: the static map's markers use a `show` parameter for `str(location)`.
- `Location.to_json`, which grid.py calls but location.py does not define: the JSON form keeps the `Location` value.
- grid.py's `linspace` is identical to location.py's and is modelled once, as `Locations.Linspace`.
- Rendering and React: PIXI drawing, `MeshTriangle`, state hooks, `useTick` wiring, `App.tsx` and the UI components.
- Command-line scripts: `export.py`, the scripts directory and `crop_video.py` (file I/O and argparse).
- Python `int()` accepts underscores between digits and non-ASCII digits. Neither is modelled. `str.lower` is modelled on ASCII letters only.
