/**
 * The rows the core reads from the relational database. Timestamps are
 * Unix milliseconds; coordinates are the integer grid the service uses.
 */
module Entities {
  import opened Base

  datatype Coordinate = Coordinate(latitude: int, longitude: int)

  /** A row of `chairs`. `isActive` is the raw TINYINT column. */
  datatype Chair = Chair(
    id: string,
    ownerId: string,
    name: string,
    model: string,
    isActive: int,
    createdAt: int)

  /** A row of `rides`; `chairId` and `evaluation` are nullable columns. */
  datatype Ride = Ride(
    id: string,
    chairId: Option<string>,
    pickup: Coordinate,
    destination: Coordinate,
    evaluation: Option<int>)

  /** A row of `chair_locations`. */
  datatype Location = Location(
    chairId: string,
    position: Coordinate,
    createdAt: int)

  function Abs(x: int): (r: nat)
    ensures r == x || r == -x
  {
    if x < 0 then -x else x
  }

  /** |Δlatitude| + |Δlongitude|, the distance unit of the whole service. */
  function Manhattan(a: Coordinate, b: Coordinate): (r: nat)
    ensures r == 0 <==> a == b
  {
    Abs(a.latitude - b.latitude) + Abs(a.longitude - b.longitude)
  }

  lemma ManhattanSymmetric(a: Coordinate, b: Coordinate)
    ensures Manhattan(a, b) == Manhattan(b, a)
  {
  }

  lemma ManhattanTriangle(a: Coordinate, b: Coordinate, c: Coordinate)
    ensures Manhattan(a, c) <= Manhattan(a, b) + Manhattan(b, c)
  {
  }
}
