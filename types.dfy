/** The records the planner works on: coordinates and points of interest
    (POIs) as they come from the catalog. */
module Types {

  datatype Option<T> = None | Some(value: T)

  /** A position in degrees. */
  datatype Coord = Coord(lat: real, lon: real)

  /** Great-circle distance in km between two positions. The trigonometry of
      the haversine formula is not modelled: every operation takes the
      distance function as a parameter. */
  type Distance = (Coord, Coord) -> real

  /** A catalog record. `duration` is the optional on-site time in hours
      (an absent duration counts as one hour); an absent tag list is the
      empty list, which every use treats the same way. */
  datatype Poi = Poi(name: string, lat: real, lon: real, duration: Option<real>, tags: seq<string>)
  {
    function Location(): Coord {
      Coord(lat, lon)
    }

    /** The on-site time, with the one-hour default. */
    function Duration(): real {
      match duration
      case Some(hours) => hours
      case None => 1.0
    }
  }

  /** No two positions of the list carry the same name. */
  predicate DistinctNames(pois: seq<Poi>) {
    forall i, j :: 0 <= i < j < |pois| ==> pois[i].name != pois[j].name
  }
}
