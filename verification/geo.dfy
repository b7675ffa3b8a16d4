/** Positions on the map. Great-circle distances are not computed here: every
    operation that needs one takes the distance function as a parameter. */
module Geo {

  /** A `[longitude, latitude]` pair of ordinary numbers. */
  datatype Point = Point(lon: real, lat: real)

  /** The `[0, 0]` every malformed coordinate is replaced with. */
  const NullIsland := Point(0.0, 0.0)

  /** A distance in kilometres between two points (the Haversine formula in the app). */
  type DistanceKm = (Point, Point) -> real
}
