/** Coordinates of positions and the midpoint rule of midpoint handles. */
module Coords {

  /** A latitude/longitude pair. */
  datatype Coord = Coord(lat: real, lng: real)

  /**
   * `MiddleMarker.computeLatLng`: the coordinate-wise arithmetic mean of the
   * two endpoints, i.e. the point at equal offsets from both of them.
   */
  function Midpoint(a: Coord, b: Coord): (m: Coord)
    ensures m.lat - a.lat == b.lat - m.lat
    ensures m.lng - a.lng == b.lng - m.lng
  {
    Coord((a.lat + b.lat) / 2.0, (a.lng + b.lng) / 2.0)
  }
}
