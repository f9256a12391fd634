/**
 * Route metrics of src/App.tsx: total distance (`calculateRouteDistance`),
 * duration (`calculateRouteDuration`) and the difficulty thresholds of
 * `generateRoute`.
 */
module RouteMetrics {
  import opened Wrappers
  import opened Types

  /** Sum of the legs between consecutive places, accumulated from the start. */
  function PathLength(dist: LegDistance, places: seq<Place>): real
    decreases |places|
  {
    if |places| <= 1 then 0.0
    else
      PathLength(dist, places[..|places| - 1])
        + dist(places[|places| - 2].coordinates, places[|places| - 1].coordinates)
  }

  lemma {:induction false} PathLengthNonNegative(dist: LegDistance, places: seq<Place>)
    ensures PathLength(dist, places) >= 0.0
    decreases |places|
  {
    if |places| > 1 {
      PathLengthNonNegative(dist, places[..|places| - 1]);
    }
  }

  /** Summing from the other end gives the same total: the first leg plus the rest. */
  lemma {:induction false} PathLengthFromFront(dist: LegDistance, places: seq<Place>)
    requires |places| >= 2
    ensures PathLength(dist, places)
         == dist(places[0].coordinates, places[1].coordinates) + PathLength(dist, places[1..])
    decreases |places|
  {
    if |places| > 2 {
      var init := places[..|places| - 1];
      PathLengthFromFront(dist, init);
      assert init[1..] == places[1..][..|places| - 2];
      assert init[0] == places[0] && init[1] == places[1];
    } else {
      assert places[1..][..0] == [];
    }
  }

  /** `calculateRouteDistance`: the accumulator loop over consecutive pairs. */
  method RouteDistance(dist: LegDistance, places: seq<Place>) returns (totalDistance: real)
    ensures totalDistance == PathLength(dist, places)
    ensures totalDistance >= 0.0
    ensures |places| <= 1 ==> totalDistance == 0.0
  {
    if |places| <= 1 {
      return 0.0;
    }
    totalDistance := 0.0;
    assert places[..1] == [places[0]];
    for i := 0 to |places| - 1
      invariant totalDistance == PathLength(dist, places[..i + 1])
    {
      assert places[..i + 2][..i + 1] == places[..i + 1];
      totalDistance := totalDistance + dist(places[i].coordinates, places[i + 1].coordinates);
    }
    assert places[..|places|] == places;
    PathLengthNonNegative(dist, places);
  }

  /** Walking speed in km/h chosen by the id of the format tag. */
  function WalkingSpeed(format: Option<string>): (speed: real)
    ensures speed == 5.0 <==> format == Some("active")
    ensures speed == 3.0 <==> format == Some("leisurely")
    ensures speed == 4.0 <==> format != Some("active") && format != Some("leisurely")
  {
    if format == Some("active") then 5.0
    else if format == Some("leisurely") then 3.0
    else 4.0
  }

  /** Twenty minutes per place of the route that is stored when the duration is computed. */
  function SightseeingMinutes(stored: Option<Route>): (minutes: nat)
    ensures stored.None? ==> minutes == 0
    ensures stored.Some? ==> minutes == 20 * |stored.value.places|
  {
    match stored
    case None => 0
    case Some(route) => |route.places| * 20
  }

  /** `calculateRouteDuration(distance, format)` with the stored route it closes over. */
  function Duration(distance: real, format: Option<string>, stored: Option<Route>): real
  {
    distance / WalkingSpeed(format) * 60.0 + SightseeingMinutes(stored) as real
  }

  /** A non-negative distance gives a non-negative duration, at least the sightseeing time. */
  lemma DurationBounds(distance: real, format: Option<string>, stored: Option<Route>)
    requires distance >= 0.0
    ensures Duration(distance, format, stored) >= SightseeingMinutes(stored) as real >= 0.0
  {
    assert distance / WalkingSpeed(format) >= 0.0;
  }

  /** The walking part is the distance at the chosen speed, in minutes. */
  lemma DurationWalkingPart(distance: real, format: Option<string>, stored: Option<Route>)
    ensures (Duration(distance, format, stored) - SightseeingMinutes(stored) as real)
            * WalkingSpeed(format) == distance * 60.0
  {
  }

  /** The difficulty thresholds of `generateRoute`. */
  function DifficultyOf(distance: real): (d: Difficulty)
    ensures d == Easy <==> distance < 2.0
    ensures d == Hard <==> distance > 5.0
    ensures d == Medium <==> 2.0 <= distance <= 5.0
  {
    if distance < 2.0 then Easy else if distance > 5.0 then Hard else Medium
  }
}
