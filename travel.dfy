/** Travel time between two positions at a fixed average speed, with a
    floor of a quarter hour for every transfer. */
module Travel {
  import opened Types

  /** The shortest time any transfer takes, in hours (15 minutes). */
  const MinTravelHours: real := 0.25

  /** Hours needed to get from `p1` to `p2` at `avgSpeedKmph`: the distance
      over the speed, but never less than the quarter-hour floor. A speed of
      zero is a division by zero in the program, so it is excluded. */
  function TravelTimeHours(dist: Distance, p1: Coord, p2: Coord, avgSpeedKmph: real := 30.0): (hours: real)
    requires avgSpeedKmph != 0.0
    ensures hours >= MinTravelHours
    ensures dist(p1, p2) / avgSpeedKmph >= MinTravelHours ==> hours == dist(p1, p2) / avgSpeedKmph
    ensures dist(p1, p2) / avgSpeedKmph <= MinTravelHours ==> hours == MinTravelHours
  {
    var distance := dist(p1, p2);
    if MinTravelHours >= distance / avgSpeedKmph then MinTravelHours else distance / avgSpeedKmph
  }

  /** Above the floor the travel time grows linearly with the distance:
      the difference of two travel times is the difference of the distances
      over the speed. */
  lemma TravelTimeLinearAboveFloor(dist: Distance, a: Coord, b: Coord, c: Coord, e: Coord, avgSpeedKmph: real)
    requires avgSpeedKmph > 0.0
    requires dist(a, b) >= MinTravelHours * avgSpeedKmph && dist(c, e) >= MinTravelHours * avgSpeedKmph
    ensures TravelTimeHours(dist, c, e, avgSpeedKmph) - TravelTimeHours(dist, a, b, avgSpeedKmph)
         == (dist(c, e) - dist(a, b)) / avgSpeedKmph
  {
    assert dist(a, b) / avgSpeedKmph >= MinTravelHours;
    assert dist(c, e) / avgSpeedKmph >= MinTravelHours;
  }

  /** A longer distance never takes less time. */
  lemma TravelTimeMonotone(dist: Distance, a: Coord, b: Coord, c: Coord, e: Coord, avgSpeedKmph: real)
    requires avgSpeedKmph > 0.0
    requires dist(a, b) <= dist(c, e)
    ensures TravelTimeHours(dist, a, b, avgSpeedKmph) <= TravelTimeHours(dist, c, e, avgSpeedKmph)
  {
    assert dist(a, b) / avgSpeedKmph <= dist(c, e) / avgSpeedKmph;
  }
}
