/**
 * The records a filter is evaluated on: a near-Earth object and one of its
 * close approaches to Earth, with the close approach already linked to its NEO.
 */
module Approaches {
  import opened Wrappers

  /** Number of seconds in one calendar day. */
  const SecondsPerDay: int := 86400

  /** A near-Earth object. The diameter is in kilometres. */
  datatype NearEarthObject = NearEarthObject(
    designation: string,
    name: Option<string>,
    diameter: real,
    hazardous: bool)

  /**
   * A close approach. `time` is a timezone-naive civil date-time counted in
   * seconds from midnight of calendar day 0; `distance` is in astronomical
   * units and `velocity` in km/s. `neo` is the back-reference to the NEO.
   */
  datatype CloseApproach = CloseApproach(
    designation: string,
    time: int,
    distance: real,
    velocity: real,
    neo: NearEarthObject)

  /** The calendar day of a date-time: the time of day is dropped. */
  function DateOf(time: int): (day: int)
    ensures day * SecondsPerDay <= time < (day + 1) * SecondsPerDay
  {
    time / SecondsPerDay
  }

  /** A date-time belongs to day `d` exactly when it lies between that day's midnight and the next. */
  lemma DateOfWithin(time: int, d: int)
    ensures DateOf(time) == d <==> d * SecondsPerDay <= time < (d + 1) * SecondsPerDay
  {
    var q := DateOf(time);
    assert q * SecondsPerDay <= time < (q + 1) * SecondsPerDay;
    if d < q {
      assert (d + 1) * SecondsPerDay <= q * SecondsPerDay;
    } else if d > q {
      assert (q + 1) * SecondsPerDay <= d * SecondsPerDay;
    }
  }
}
