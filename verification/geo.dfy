/** Positions, the distance between them, and the rounding applied to distances and scores. */
module Geo {

  /** A latitude/longitude pair in degrees. */
  datatype Coord = Coord(lat: real, lng: real)

  /** The great-circle (haversine) distance the source computes with floating-point
      trigonometry. The model never interprets it: every operation that filters by distance
      takes the metric as a parameter, and its properties hold for any metric. */
  type Metric = (Coord, Coord) -> real

  /** `Math.round`: the integer nearest to `x`, halves rounded up. */
  function Round(x: real): (r: int)
    ensures r as real <= x + 0.5 < r as real + 1.0
  {
    (x + 0.5).Floor
  }
}
