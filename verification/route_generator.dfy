/**
 * Route generation in src/App.tsx: the catalog filter, the cap of 8 places,
 * the route record built by `generateRoute`, the points formula, and the
 * application state that `generateRoute`, `handleTagSelect`,
 * `showPredefinedRoute`, `showPlaceOnMap` and `clearRoute` update.
 */
module RouteGenerator {
  import opened Wrappers
  import opened Types
  import Text
  import TagLists
  import RouteOptimizer
  import RouteMetrics
  import GameData

  /** The two ways `generateRoute` returns without producing a route. */
  datatype RouteError = NoTagsSelected | NoMatchingPlaces

  /** `routePlaces = matchingPlaces.slice(0, 8)`. */
  const MaxRoutePlaces: nat := 8

  /** `tagsToUse.some(tag => place.tags.includes(tag.id))`. */
  function CarriesAnyTag(place: Place, tags: seq<Tag>): (b: bool)
    ensures b <==> exists i :: 0 <= i < |tags| && tags[i].id in place.tags
  {
    if tags == [] then false
    else if tags[0].id in place.tags then true
    else
      var b := CarriesAnyTag(place, tags[1..]);
      assert b ==> exists i :: 0 <= i < |tags| && tags[i].id in place.tags by {
        if b {
          var i :| 0 <= i < |tags[1..]| && tags[1..][i].id in place.tags;
          assert tags[i + 1] == tags[1..][i];
        }
      }
      assert !b ==> forall i :: 0 <= i < |tags| ==> tags[i].id !in place.tags by {
        if !b {
          forall i | 0 < i < |tags| ensures tags[i].id !in place.tags {
            assert tags[i] == tags[1..][i - 1];
          }
        }
      }
      b
  }

  /** `places.filter(place => CarriesAnyTag(place, tags))`. */
  function Matching(catalog: seq<Place>, tags: seq<Tag>): (m: seq<Place>)
    ensures |m| <= |catalog|
    ensures forall p :: p in m <==> p in catalog && CarriesAnyTag(p, tags)
  {
    if catalog == [] then []
    else (if CarriesAnyTag(catalog[0], tags) then [catalog[0]] else []) + Matching(catalog[1..], tags)
  }

  /** The filter distributes over concatenation: matches keep their catalog order. */
  lemma {:induction false} MatchingAppend(a: seq<Place>, b: seq<Place>, tags: seq<Tag>)
    ensures Matching(a + b, tags) == Matching(a, tags) + Matching(b, tags)
  {
    if a == [] {
      assert a + b == b;
    } else {
      assert (a + b)[1..] == a[1..] + b;
      MatchingAppend(a[1..], b, tags);
    }
  }

  /** The first match is the first qualifying place of the catalog. */
  lemma {:induction false} FirstMatch(catalog: seq<Place>, tags: seq<Tag>)
    requires Matching(catalog, tags) != []
    ensures exists k :: 0 <= k < |catalog| && catalog[k] == Matching(catalog, tags)[0]
              && forall j :: 0 <= j < k ==> !CarriesAnyTag(catalog[j], tags)
  {
    if !CarriesAnyTag(catalog[0], tags) {
      FirstMatch(catalog[1..], tags);
      var k :| 0 <= k < |catalog[1..]| && catalog[1..][k] == Matching(catalog[1..], tags)[0]
                && forall j :: 0 <= j < k ==> !CarriesAnyTag(catalog[1..][j], tags);
      assert catalog[k + 1] == catalog[1..][k];
      forall j | 0 <= j < k + 1 ensures !CarriesAnyTag(catalog[j], tags) {
        if j > 0 {
          assert catalog[j] == catalog[1..][j - 1];
        }
      }
    }
  }

  /** Entry `i` is the first tag of category 'formats'. */
  predicate FirstFormatAt(selected: seq<Tag>, i: int) {
    0 <= i < |selected| && selected[i].category == Formats
    && forall j :: 0 <= j < i ==> selected[j].category != Formats
  }

  /** The id of `selectedTags.find(tag => tag.category === 'formats')`, if any. */
  function FormatTagId(selected: seq<Tag>): (f: Option<string>)
    ensures f.None? <==> forall i :: 0 <= i < |selected| ==> selected[i].category != Formats
    ensures f.Some? ==> exists i :: FirstFormatAt(selected, i) && selected[i].id == f.value
  {
    if selected == [] then None
    else if selected[0].category == Formats then Some(selected[0].id)
    else
      var f := FormatTagId(selected[1..]);
      assert f.Some? ==> exists i :: FirstFormatAt(selected, i) && selected[i].id == f.value by {
        if f.Some? {
          var i :| FirstFormatAt(selected[1..], i) && selected[1..][i].id == f.value;
          assert selected[i + 1] == selected[1..][i];
          forall j | 0 <= j < i + 1 ensures selected[j].category != Formats {
            if j > 0 {
              assert selected[j] == selected[1..][j - 1];
            }
          }
        }
      }
      assert f.None? ==> forall i :: 0 <= i < |selected| ==> selected[i].category != Formats by {
        if f.None? {
          forall i | 0 < i < |selected| ensures selected[i].category != Formats {
            assert selected[i] == selected[1..][i - 1];
          }
        }
      }
      f
  }

  /** `tags || selectedTags`: an argument array, even an empty one, wins over the selection. */
  function TagsToUse(tags: Option<seq<Tag>>, selected: seq<Tag>): seq<Tag> {
    match tags
    case Some(t) => t
    case None => selected
  }

  /** `tagsToUse.map(t => t.id)`. */
  function TagIds(tags: seq<Tag>): (ids: seq<string>)
    ensures |ids| == |tags| && forall i :: 0 <= i < |tags| ==> ids[i] == tags[i].id
  {
    seq(|tags|, i requires 0 <= i < |tags| => tags[i].id)
  }

  /** `tagsToUse.map(t => t.name)`. */
  function TagNames(tags: seq<Tag>): (names: seq<string>)
    ensures |names| == |tags| && forall i :: 0 <= i < |tags| ==> names[i] == tags[i].name
  {
    seq(|tags|, i requires 0 <= i < |tags| => tags[i].name)
  }

  /** `Маршрут "<names joined by ', '>"`. */
  function RouteName(tags: seq<Tag>): string {
    "Маршрут \"" + Text.Join(TagNames(tags), ", ") + "\""
  }

  /** The name quotes the tag names after `Маршрут `: one tag gives its name alone, two
      tags their names separated by ", ". */
  lemma RouteNameQuotesTags(tags: seq<Tag>)
    ensures var name := RouteName(tags);
      |name| >= 10 && name[..9] == "Маршрут \"" && name[|name| - 1] == '"'
    ensures |tags| == 1 ==> RouteName(tags) == "Маршрут \"" + tags[0].name + "\""
    ensures |tags| == 2 ==> RouteName(tags) == "Маршрут \"" + tags[0].name + ", " + tags[1].name + "\""
  {
    if |tags| == 2 {
      var names := TagNames(tags);
      assert names[1..] == [tags[1].name];
      assert Text.Join(names, ", ") == tags[0].name + ", " + tags[1].name;
    }
  }

  /** `Персонализированный маршрут по <n> местам`. */
  function RouteDescription(n: nat): string {
    "Персонализированный маршрут по " + Text.NatToString(n) + " местам"
  }

  /** Routes with different numbers of places get different descriptions. */
  lemma RouteDescriptionInjective(m: nat, n: nat)
    requires RouteDescription(m) == RouteDescription(n)
    ensures m == n
  {
    var prefix := "Персонализированный маршрут по ";
    var x := Text.NatToString(m);
    var y := Text.NatToString(n);
    assert |prefix| == 31;
    assert |x| == |y|;
    assert x == RouteDescription(m)[31..31 + |x|];
    assert y == RouteDescription(n)[31..31 + |y|];
    Text.NatToStringInjective(m, n);
  }

  function Min(a: nat, b: nat): nat {
    if a <= b then a else b
  }

  /**
   * The outcome of `generateRoute(tags)` as a value: the route it stores, or why it
   * stores none. `selected` is the `selectedTags` state, `stored` the route stored
   * before the call and `now` the value of `Date.now()`.
   */
  function PlanRoute(dist: LegDistance, tagsToUse: seq<Tag>, selected: seq<Tag>,
                     catalog: seq<Place>, stored: Option<Route>, now: nat): Result<Route, RouteError>
  {
    if |tagsToUse| == 0 then Err(NoTagsSelected)
    else
      var matching := Matching(catalog, tagsToUse);
      if |matching| == 0 then Err(NoMatchingPlaces)
      else
        var routePlaces := matching[..Min(MaxRoutePlaces, |matching|)];
        var optimized := RouteOptimizer.NearestNeighbour(dist, routePlaces);
        var distance := RouteMetrics.PathLength(dist, optimized);
        Ok(Route(
          "route-" + Text.NatToString(now),
          RouteName(tagsToUse),
          optimized,
          distance,
          RouteMetrics.Duration(distance, FormatTagId(selected), stored),
          RouteMetrics.DifficultyOf(distance),
          TagIds(tagsToUse),
          Some(RouteDescription(|optimized|)),
          None))
  }

  /** No route is produced exactly when the tag list is empty or no catalog place carries
      any of its tags. */
  lemma PlanRouteFails(dist: LegDistance, tagsToUse: seq<Tag>, selected: seq<Tag>,
                       catalog: seq<Place>, stored: Option<Route>, now: nat)
    ensures var r := PlanRoute(dist, tagsToUse, selected, catalog, stored, now);
      (r == Err(NoTagsSelected) <==> tagsToUse == [])
      && (r == Err(NoMatchingPlaces) <==>
            tagsToUse != [] && forall k :: 0 <= k < |catalog| ==> !CarriesAnyTag(catalog[k], tagsToUse))
  {
    var m := Matching(catalog, tagsToUse);
    if m != [] {
      assert m[0] in catalog;
    }
  }

  /** The route visits a reordering of the first min(8, #matches) matching places,
      starting with the first match, and each of them carries a selected tag. */
  lemma PlanRoutePlaces(dist: LegDistance, tagsToUse: seq<Tag>, selected: seq<Tag>,
                        catalog: seq<Place>, stored: Option<Route>, now: nat)
    requires PlanRoute(dist, tagsToUse, selected, catalog, stored, now).Ok?
    ensures var route := PlanRoute(dist, tagsToUse, selected, catalog, stored, now).value;
      var matching := Matching(catalog, tagsToUse);
      var n := Min(MaxRoutePlaces, |matching|);
      1 <= |route.places| == n <= 8
      && multiset(route.places) == multiset(matching[..n])
      && route.places[0] == matching[0]
      && forall p :: p in route.places ==> p in catalog && CarriesAnyTag(p, tagsToUse)
  {
    var matching := Matching(catalog, tagsToUse);
    var n := Min(MaxRoutePlaces, |matching|);
    var prefix := matching[..n];
    RouteOptimizer.NearestNeighbourPermutes(dist, prefix);
    var places := RouteOptimizer.NearestNeighbour(dist, prefix);
    forall p | p in places ensures p in catalog && CarriesAnyTag(p, tagsToUse) {
      assert p in multiset(places);
      assert p in prefix;
      assert p in matching;
    }
  }

  /** With at least 8 matches the route has exactly 8 places. */
  lemma PlanRouteCap(dist: LegDistance, tagsToUse: seq<Tag>, selected: seq<Tag>,
                     catalog: seq<Place>, stored: Option<Route>, now: nat)
    requires tagsToUse != [] && |Matching(catalog, tagsToUse)| >= MaxRoutePlaces
    ensures PlanRoute(dist, tagsToUse, selected, catalog, stored, now).Ok?
    ensures |PlanRoute(dist, tagsToUse, selected, catalog, stored, now).value.places| == 8
  {
    PlanRoutePlaces(dist, tagsToUse, selected, catalog, stored, now);
  }

  /** The route's distance, duration, difficulty and tags: the leg sum over the optimised
      order, the duration with the format of the selection (not of the argument) and the
      previously stored route, the 2/5 km thresholds, and the ids in selection order. */
  lemma PlanRouteMetrics(dist: LegDistance, tagsToUse: seq<Tag>, selected: seq<Tag>,
                         catalog: seq<Place>, stored: Option<Route>, now: nat)
    requires PlanRoute(dist, tagsToUse, selected, catalog, stored, now).Ok?
    ensures var route := PlanRoute(dist, tagsToUse, selected, catalog, stored, now).value;
      route.distance == RouteMetrics.PathLength(dist, route.places)
      && route.distance >= 0.0
      && (|route.places| == 1 ==> route.distance == 0.0)
      && route.duration == RouteMetrics.Duration(route.distance, FormatTagId(selected), stored)
      && route.duration >= RouteMetrics.SightseeingMinutes(stored) as real
      && (route.difficulty == Easy <==> route.distance < 2.0)
      && (route.difficulty == Hard <==> route.distance > 5.0)
      && |route.tags| == |tagsToUse|
      && (forall i :: 0 <= i < |tagsToUse| ==> route.tags[i] == tagsToUse[i].id)
      && route.id == "route-" + Text.NatToString(now)
      && route.createdAt.None?
  {
    var route := PlanRoute(dist, tagsToUse, selected, catalog, stored, now).value;
    RouteMetrics.PathLengthNonNegative(dist, route.places);
    RouteMetrics.DurationBounds(route.distance, FormatTagId(selected), stored);
  }

  /** With no route stored before, the duration is walking time only: 20 minutes per stop
      are added for the places of the previous route, not of the new one. */
  lemma FirstRouteHasNoSightseeingTime(dist: LegDistance, tagsToUse: seq<Tag>, selected: seq<Tag>,
                                       catalog: seq<Place>, now: nat)
    requires PlanRoute(dist, tagsToUse, selected, catalog, None, now).Ok?
    ensures var route := PlanRoute(dist, tagsToUse, selected, catalog, None, now).value;
      route.duration * RouteMetrics.WalkingSpeed(FormatTagId(selected)) == route.distance * 60.0
  {
    var route := PlanRoute(dist, tagsToUse, selected, catalog, None, now).value;
    RouteMetrics.DurationWalkingPart(route.distance, FormatTagId(selected), None);
  }

  /** The points total of the level effect: 10 per scan, 50 per route, 2 per whole
      kilometre walked and 25 per completed quest. */
  function TotalPoints(stats: UserStats, completedQuests: nat): int {
    stats.totalScanned * 10 + stats.routesCompleted * 50
      + stats.distanceWalked.Floor * 2 + completedQuests * 25
  }

  /** Generating a route adds exactly 50 points. */
  lemma RouteAddsFiftyPoints(stats: UserStats, completedQuests: nat)
    ensures TotalPoints(stats.(routesCompleted := stats.routesCompleted + 1), completedQuests)
            == TotalPoints(stats, completedQuests) + 50
  {
  }

  /** With non-negative counters the total is a whole number of points that some level
      holds, so the level shown never comes from the fallback. */
  lemma PointsAlwaysHaveALevel(stats: UserStats, completedQuests: nat)
    requires stats.totalScanned >= 0 && stats.routesCompleted >= 0 && stats.distanceWalked >= 0.0
    ensures TotalPoints(stats, completedQuests) >= 0
    ensures GameData.InRange(GameData.GetUserLevel(TotalPoints(stats, completedQuests) as real),
                             TotalPoints(stats, completedQuests) as real)
  {
    GameData.IntegerPointsHaveALevel(TotalPoints(stats, completedQuests));
  }

  /** The statements of `generateRoute(tags)` up to the state updates, with their early
      returns: they compute exactly `PlanRoute`. */
  method BuildRoute(dist: LegDistance, tagsToUse: seq<Tag>, selected: seq<Tag>,
                    catalog: seq<Place>, stored: Option<Route>, now: nat)
    returns (outcome: Result<Route, RouteError>)
    ensures outcome == PlanRoute(dist, tagsToUse, selected, catalog, stored, now)
  {
    if |tagsToUse| == 0 {
      return Err(NoTagsSelected);
    }
    var matching := Matching(catalog, tagsToUse);
    if |matching| == 0 {
      return Err(NoMatchingPlaces);
    }
    var routePlaces := matching[..Min(MaxRoutePlaces, |matching|)];
    var optimized := RouteOptimizer.Optimize(dist, routePlaces);
    var distance := RouteMetrics.RouteDistance(dist, optimized);
    var formatTag := FormatTagId(selected);
    var duration := RouteMetrics.Duration(distance, formatTag, stored);
    var difficulty := Medium;
    if distance < 2.0 {
      difficulty := Easy;
    } else if distance > 5.0 {
      difficulty := Hard;
    }
    assert difficulty == RouteMetrics.DifficultyOf(distance);
    var route := Route(
      "route-" + Text.NatToString(now),
      RouteName(tagsToUse),
      optimized,
      distance,
      duration,
      difficulty,
      TagIds(tagsToUse),
      Some(RouteDescription(|optimized|)),
      None);
    return Ok(route);
  }

  /** The state of the App component that the route functions read and write. */
  class Session {
    var catalog: seq<Place>
    var selectedTags: seq<Tag>
    var currentRoute: Option<Route>
    var selectedPlace: Option<Place>
    var activeTab: string
    var stats: UserStats

    /** The initial state, once the catalog has been loaded. */
    constructor (catalog: seq<Place>, stats: UserStats)
      ensures this.catalog == catalog && this.stats == stats
      ensures selectedTags == [] && currentRoute.None? && selectedPlace.None?
      ensures activeTab == "constructor"
    {
      this.catalog := catalog;
      this.stats := stats;
      selectedTags := [];
      currentRoute := None;
      selectedPlace := None;
      activeTab := "constructor";
    }

    /**
     * `generateRoute(tags)`. On success the route is stored, the constructor tab is
     * shown and `routesCompleted` rises by one; otherwise nothing changes.
     */
    method GenerateRoute(dist: LegDistance, tags: Option<seq<Tag>>, now: nat)
      returns (outcome: Result<Route, RouteError>)
      modifies this
      ensures outcome == PlanRoute(dist, TagsToUse(tags, old(selectedTags)), old(selectedTags),
                                   old(catalog), old(currentRoute), now)
      ensures catalog == old(catalog) && selectedTags == old(selectedTags)
      ensures selectedPlace == old(selectedPlace)
      ensures outcome.Ok? ==> currentRoute == Some(outcome.value) && activeTab == "constructor"
                              && stats == old(stats).(routesCompleted := old(stats).routesCompleted + 1)
      ensures outcome.Err? ==> currentRoute == old(currentRoute) && activeTab == old(activeTab)
                               && stats == old(stats)
    {
      outcome := BuildRoute(dist, TagsToUse(tags, selectedTags), selectedTags, catalog, currentRoute, now);
      if outcome.Ok? {
        currentRoute := Some(outcome.value);
        activeTab := "constructor";
        stats := stats.(routesCompleted := stats.routesCompleted + 1);
      }
    }

    /** `handleTagSelect(tag)`. */
    method HandleTagSelect(tag: Tag)
      modifies this
      ensures selectedTags == TagLists.ToggleTag(old(selectedTags), tag)
      ensures catalog == old(catalog) && currentRoute == old(currentRoute)
      ensures selectedPlace == old(selectedPlace) && activeTab == old(activeTab) && stats == old(stats)
    {
      selectedTags := TagLists.ToggleTag(selectedTags, tag);
    }

    /** `clearRoute()`: drops the route and the selection. */
    method ClearRoute()
      modifies this
      ensures currentRoute.None? && selectedTags == []
      ensures catalog == old(catalog) && selectedPlace == old(selectedPlace)
      ensures activeTab == old(activeTab) && stats == old(stats)
    {
      currentRoute := None;
      selectedTags := [];
    }

    /**
     * `showPredefinedRoute(route)`: the predefined places in their given order, the
     * distance recomputed over that order, the other fields copied, `createdAt` now.
     */
    method ShowPredefinedRoute(dist: LegDistance, predefined: PredefinedRoute, now: nat)
      modifies this
      ensures currentRoute.Some?
      ensures var r := currentRoute.value;
        r.id == predefined.id && r.name == predefined.name && r.places == predefined.places
        && r.distance == RouteMetrics.PathLength(dist, predefined.places)
        && r.duration == predefined.duration && r.difficulty == predefined.difficulty
        && r.tags == predefined.tags && r.description == Some(predefined.description)
        && r.createdAt == Some(now)
      ensures selectedPlace.None? && activeTab == "constructor"
      ensures catalog == old(catalog) && selectedTags == old(selectedTags) && stats == old(stats)
    {
      var distance := RouteMetrics.RouteDistance(dist, predefined.places);
      currentRoute := Some(Route(
        predefined.id,
        predefined.name,
        predefined.places,
        distance,
        predefined.duration,
        predefined.difficulty,
        predefined.tags,
        Some(predefined.description),
        Some(now)));
      selectedPlace := None;
      activeTab := "constructor";
    }

    /** `showPlaceOnMap(place)`: toggles the selected place by id and drops the route,
        staying on the current tab. */
    method ShowPlaceOnMap(place: Place)
      modifies this
      ensures old(selectedPlace).Some? && old(selectedPlace).value.id == place.id ==> selectedPlace.None?
      ensures !(old(selectedPlace).Some? && old(selectedPlace).value.id == place.id) ==> selectedPlace == Some(place)
      ensures currentRoute.None?
      ensures catalog == old(catalog) && selectedTags == old(selectedTags)
      ensures activeTab == old(activeTab) && stats == old(stats)
    {
      if selectedPlace.Some? && selectedPlace.value.id == place.id {
        selectedPlace := None;
      } else {
        selectedPlace := Some(place);
      }
      currentRoute := None;
    }
  }
}
