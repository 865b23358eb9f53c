/** The dataset shapes of frontend/src/gridData.ts that the core reads: the
    sample locations (raw and snapped to a road) and the route matrix
    returned by the routing service. */
module Dataset {

  datatype LatLng = LatLng(lat: real, lng: real)

  datatype GridLocation = GridLocation(
    rawLocation: LatLng,
    snappedLocation: LatLng,
    gridX: int,
    gridY: int)

  /** One route-matrix element; `duration` is a string such as "1111s". */
  datatype RouteMatrixEntry = RouteMatrixEntry(
    originIndex: int,
    destinationIndex: int,
    duration: string,
    condition: string)

  datatype GridData = GridData(
    center: LatLng,
    zoom: real,
    size: int,
    locations: seq<GridLocation>,
    routeMatrix: seq<RouteMatrixEntry>)
}
