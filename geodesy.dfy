/** The geodesy collaborator as the animation sees it: positions, and the
    circle requests whose points the model never looks inside. */
module Geodesy {

  /** A geographic position, longitude first as the geodesy routines take it. */
  datatype Coord = Coord(lon: real, lat: real)

  /** What the geodesy routine returns for a circle request; its points are
      known only by the request that produced them. */
  datatype CirclePoints = CirclePoints(center: Coord, metres: real, count: nat)

  /** `count` points on the geodesic circle of `metres` around `center`. */
  function GeodesicCircle(center: Coord, metres: real, count: nat): CirclePoints {
    CirclePoints(center, metres, count)
  }
}
