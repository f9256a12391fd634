/**
 * The map rules of src/components/InteractiveMap.tsx: which places are drawn on
 * each tab, the route polyline, the start/finish role of each route point and the
 * star string of a rating.
 */
module InteractiveMap {
  import opened Wrappers
  import opened Types
  import Text
  import Numbers

  /** The tabs that `categoryMap` sends to a single category. */
  predicate IsCategoryTab(tab: string) {
    tab in {"gastronomy", "attractions", "culture", "nature"}
  }

  /** `places.filter(p => p.category === category)`. */
  function OfCategory(places: seq<Place>, category: string): (r: seq<Place>)
    ensures |r| <= |places|
    ensures forall p :: p in r <==> p in places && PlaceCategoryId(p.category) == category
  {
    if places == [] then []
    else (if PlaceCategoryId(places[0].category) == category then [places[0]] else [])
         + OfCategory(places[1..], category)
  }

  /** The filter distributes over concatenation, so the kept places stay in catalog order. */
  lemma {:induction false} OfCategoryAppend(a: seq<Place>, b: seq<Place>, category: string)
    ensures OfCategory(a + b, category) == OfCategory(a, category) + OfCategory(b, category)
  {
    if a == [] {
      assert a + b == b;
    } else {
      assert (a + b)[0] == a[0];
      assert (a + b)[1..] == a[1..] + b;
      OfCategoryAppend(a[1..], b, category);
    }
  }

  /** `getFilteredPlaces()`. */
  function FilteredPlaces(activeTab: string, currentRoute: Option<Route>, places: seq<Place>): seq<Place> {
    if activeTab == "constructor" then
      match currentRoute
      case Some(route) => route.places
      case None => []
    else if IsCategoryTab(activeTab) then OfCategory(places, activeTab)
    else places
  }

  /** The constructor tab shows the route's places, or none without a route; a category
      tab shows that category's places; any other tab shows every place. */
  lemma FilteredPlacesByTab(activeTab: string, currentRoute: Option<Route>, places: seq<Place>)
    ensures activeTab == "constructor" && currentRoute.Some? ==>
              FilteredPlaces(activeTab, currentRoute, places) == currentRoute.value.places
    ensures activeTab == "constructor" && currentRoute.None? ==> FilteredPlaces(activeTab, currentRoute, places) == []
    ensures IsCategoryTab(activeTab) ==>
              forall p :: p in FilteredPlaces(activeTab, currentRoute, places) <==>
                p in places && PlaceCategoryId(p.category) == activeTab
    ensures activeTab != "constructor" && !IsCategoryTab(activeTab) ==>
              FilteredPlaces(activeTab, currentRoute, places) == places
  {
  }

  /** `routeCoordinates`: the coordinates of the route's places, in route order. */
  function RouteCoordinates(currentRoute: Option<Route>): (coords: seq<Coord>)
    ensures currentRoute.None? ==> coords == []
    ensures currentRoute.Some? ==> |coords| == |currentRoute.value.places|
    ensures currentRoute.Some? ==>
              forall i :: 0 <= i < |coords| ==> coords[i] == currentRoute.value.places[i].coordinates
  {
    match currentRoute
    case None => []
    case Some(route) => seq(|route.places|, i requires 0 <= i < |route.places| => route.places[i].coordinates)
  }

  /** The dashed polyline is drawn only for a route of two or more places. */
  predicate ShowsPolyline(currentRoute: Option<Route>) {
    |RouteCoordinates(currentRoute)| > 1
  }

  lemma PolylineNeedsTwoPlaces(currentRoute: Option<Route>)
    ensures ShowsPolyline(currentRoute) <==> currentRoute.Some? && |currentRoute.value.places| >= 2
  {
  }

  /** The role of the point at `index` in a route of `count` places. */
  datatype MarkerRole = Start | Finish | Waypoint(number: nat)

  function RoleAt(index: nat, count: nat): MarkerRole {
    if index == 0 then Start
    else if index == count - 1 then Finish
    else Waypoint(index + 1)
  }

  /** Index 0 is the start even when it is also the last point; the last index of a longer
      route is the finish; every other point carries its 1-based number. */
  lemma RoleAtCases(index: nat, count: nat)
    requires index < count
    ensures RoleAt(index, count) == Start <==> index == 0
    ensures RoleAt(index, count) == Finish <==> index > 0 && index == count - 1
    ensures RoleAt(index, count).Waypoint? <==> 0 < index < count - 1
    ensures RoleAt(index, count).Waypoint? ==> RoleAt(index, count).number == index + 1
  {
  }

  /** A route of two or more places has exactly one start and one finish. */
  lemma OneStartOneFinish(count: nat, i: nat, j: nat)
    requires count >= 2 && i < count && j < count
    requires (RoleAt(i, count) == Start && RoleAt(j, count) == Start)
             || (RoleAt(i, count) == Finish && RoleAt(j, count) == Finish)
    ensures i == j
  {
  }

  function RoleColor(role: MarkerRole): string {
    match role
    case Start => "#10b981"
    case Finish => "#ef4444"
    case Waypoint(_) => "#3b82f6"
  }

  /** Two markers share a colour exactly when they have the same kind of role: the start,
      the finish or a waypoint. */
  lemma RoleColorByKind(a: MarkerRole, b: MarkerRole)
    ensures RoleColor(a) == RoleColor(b) <==>
              (a.Start? && b.Start?) || (a.Finish? && b.Finish?) || (a.Waypoint? && b.Waypoint?)
  {
    assert RoleColor(Start)[1] != RoleColor(Finish)[1] && RoleColor(Start)[1] != RoleColor(Waypoint(0))[1]
           && RoleColor(Finish)[1] != RoleColor(Waypoint(0))[1];
  }

  function RoleLabel(role: MarkerRole): string {
    match role
    case Start => "\U{1F680} Старт"
    case Finish => "\U{1F3C1} Финиш"
    case Waypoint(n) => "Точка " + Text.NatToString(n)
  }

  /** Markers of different roles, and waypoints of different numbers, carry different
      labels, so every point of a route is told apart on the map. */
  lemma RoleLabelInjective(a: MarkerRole, b: MarkerRole)
    requires RoleLabel(a) == RoleLabel(b)
    ensures a == b
  {
    LabelFirstChar(a);
    LabelFirstChar(b);
    if a.Waypoint? && b.Waypoint? {
      var x := Text.NatToString(a.number);
      var y := Text.NatToString(b.number);
      assert "Точка " + x == "Точка " + y;
      assert x == ("Точка " + x)[6..];
      assert y == ("Точка " + y)[6..];
      Text.NatToStringInjective(a.number, b.number);
    }
  }

  lemma LabelFirstChar(role: MarkerRole)
    ensures |RoleLabel(role)| > 0
    ensures RoleLabel(role)[0] == (match role case Start => '\U{1F680}' case Finish => '\U{1F3C1}' case Waypoint(_) => 'Т')
  {
  }

  /** The error `String.prototype.repeat` raises for a negative count. */
  datatype StarsError = RangeError

  /** `getRatingStars(rating)`: floor(rating) stars, and one more when the fractional part
      is at least one half. */
  function RatingStars(rating: real): (r: Result<string, StarsError>)
    ensures r.Err? <==> rating < 0.0
    ensures r.Ok? ==> forall i :: 0 <= i < |r.value| ==> r.value[i] == '⭐'
  {
    var whole := rating.Floor;
    if whole < 0 then Err(RangeError)
    else Ok(Text.Repeat('⭐', whole) + (if rating - whole as real >= 0.5 then "⭐" else ""))
  }

  /** For a non-negative rating the number of stars is the rating rounded half up. */
  lemma RatingStarsCount(rating: real)
    requires rating >= 0.0
    ensures RatingStars(rating).Ok?
    ensures |RatingStars(rating).value| == Numbers.Round(rating)
  {
    var whole := rating.Floor;
    var frac := rating - whole as real;
    assert 0.0 <= frac < 1.0;
    if frac >= 0.5 {
      assert (rating + 0.5).Floor == whole + 1;
    } else {
      assert (rating + 0.5).Floor == whole;
    }
  }
}
