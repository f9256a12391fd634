# Saratov routes: a Dafny model of the route engine and its rule sets

This project models the core of the Saratov city-guide application. The main part is the
route construction engine of `src/App.tsx`, which works in four steps:

- It filters the place catalog by the selected tags and keeps at most 8 matches, in catalog order.
- It orders the kept places with a nearest-neighbour heuristic that starts at the first place and breaks ties toward the earlier candidate.
- It computes the route's distance, its duration (walking speed chosen by the format tag, plus 20 minutes per stop) and its difficulty (2 km and 5 km thresholds).
- It stores the route in the application state and counts it in the user statistics.

Around the engine, the model covers the small deterministic rule sets of the other files:

- **Levels:** the user-level table and the level lookup.
- **Backgrounds:** time-of-day classification and the background pick.
- **QR scanner:** the scan transition, covering de-duplication, the counter, achievements and coupons.
- **Personal cabinet:** the quest ordering, the leaderboard rank, the progress bar and the category icons.
- **Events:** event status, filtering, counters and price labels.
- **Map:** the map's place filter, marker roles and star strings.
- **Route constructor:** its tag handlers, including the drop handler that keeps the selection of its first render.
- **PDF export:** the star lines, the error they raise for a rating outside 0 to 5, and the file-name sanitiser.
- **Server:** the query builder, parameter encoding and row mapping of `GET/POST /api/places`, together with the JSON encoding of string lists that the two routes share.

Modules follow the source files:

- `RouteOptimizer`, `RouteMetrics` and `RouteGenerator` cover `src/App.tsx`. `TagLists` holds the tag-list operations shared by `App.tsx` and `RouteConstructor.tsx`.
- `GameData`, `Backgrounds`, `QRScanner`, `PersonalCabinet`, `EventsMap`, `InteractiveMap`, `RouteConstructor` and `PDFExporter` each cover the file of the same name.
- `Server` and `Json` cover `server/server.js`.
- `Types`, `Text`, `Numbers` and `Wrappers` hold the shared records and helpers.

Code that changes state step by step is modelled imperatively, and each such method is proved equal to a specification function whose properties are proved as lemmas:

- the optimizer's `while`/`for` loops (`RouteOptimizer.Optimize`);
- the distance accumulator (`RouteMetrics.RouteDistance`);
- the application state updated by `generateRoute` and the other handlers (`RouteGenerator.Session`);
- the scan transition (`QRScanner.ScanSession`, `QRScanner.CheckAchievements`);
- the in-place quest sort on an array (`PersonalCabinet.SortQuests`);
- the SQL builder with `query +=` and `params.push` (`Server.BuildPlacesQuery`).

Three behaviours of the code that look unintended are modelled as written:

- **Sightseeing time** is computed from the place count of the route stored *before* the call, or 0 when there is none. It is not the count of the route being built.
- **The format tag** is read from the `selectedTags` state, not from the tags passed to `generateRoute`.
- **`routesCompleted`** is incremented when a route is generated.

Other modelling conventions:

- The haversine leg distance is a parameter `dist` of type `LegDistance`, a function constrained only to be non-negative.
- Every value of `Math.random()` is a real parameter in [0, 1).
- Every value of `Date.now()` or `new Date()`, and the hour, are natural-number parameters.

## Model

| member | source | states |
|---|---|---|
| RouteOptimizer.Nearest | src/App.tsx:188-197 | the chosen index is in range; its candidate is at minimal distance from the tail; every earlier candidate is strictly farther, so the first of equally near candidates wins |
| RouteOptimizer.Remove | src/App.tsx:202 | `splice(k, 1)` drops exactly the element at k and keeps the others in order |
| RouteOptimizer.Optimize | src/App.tsx:182-206 | the while loop with its inner argmin scan returns exactly the nearest-neighbour path `NearestNeighbour(dist, places)` |
| RouteOptimizer.NearestNeighbourPermutes | src/App.tsx:182-205 | an input of length ≤ 1 is returned unchanged; otherwise the result has the same length and multiset of places and starts with the input's first place |
| RouteOptimizer.NearestNeighbourIsGreedy | src/App.tsx:188-202 | each place after the first is at minimal distance from its predecessor among all places that follow it |
| RouteOptimizer.NearestNeighbourTies | src/App.tsx:194-197 | for an input without repeats, of two places equally near the predecessor the one earlier in the input is taken first |
| RouteMetrics.RouteDistance | src/App.tsx:222-230 | the accumulator loop returns the sum of consecutive leg distances; this is non-negative and is 0 for fewer than 2 places |
| RouteMetrics.PathLengthNonNegative | src/App.tsx:222-230 | the summed leg distances are never negative for non-negative legs |
| RouteMetrics.PathLengthFromFront | src/App.tsx:222-230 | the total is also the first leg plus the total of the route from its second place |
| RouteMetrics.WalkingSpeed | src/App.tsx:234 | the speed is 5 iff the format is 'active', 3 iff it is 'leisurely', and 4 otherwise |
| RouteMetrics.SightseeingMinutes | src/App.tsx:236 | 0 with no stored route, otherwise 20 times the stored route's place count |
| RouteMetrics.DurationBounds | src/App.tsx:233-238 | for a non-negative distance the duration is at least the sightseeing time, which is at least 0 |
| RouteMetrics.DurationWalkingPart | src/App.tsx:235-237 | the duration minus the sightseeing time, times the speed, equals the distance times 60 |
| RouteMetrics.DifficultyOf | src/App.tsx:266-269 | easy iff distance < 2, hard iff distance > 5, medium iff 2 ≤ distance ≤ 5 |
| RouteGenerator.CarriesAnyTag | src/App.tsx:246-248 | a place qualifies iff the id of some selected tag is in its tags |
| RouteGenerator.Matching | src/App.tsx:246-248 | a place is kept iff it is in the catalog and qualifies; the result is no longer than the catalog |
| RouteGenerator.MatchingAppend | src/App.tsx:246-248 | the filter distributes over concatenation, so matches keep catalog order |
| RouteGenerator.FirstMatch | src/App.tsx:246-248 | the first match is the first qualifying place of the catalog |
| RouteGenerator.FormatTagId | src/App.tsx:263 | None iff no selected tag is of category 'formats'; otherwise the id of the first such tag |
| RouteGenerator.TagIds | src/App.tsx:278 | the route's tags are the ids of the tags used, in selection order |
| RouteGenerator.TagNames | src/App.tsx:273 | the names of the tags used, in selection order |
| RouteGenerator.RouteNameQuotesTags | src/App.tsx:273 | the name is `Маршрут "…"` quoting the tag names: one name alone, two names separated by ", " |
| RouteGenerator.RouteDescriptionInjective | src/App.tsx:279 | routes with different numbers of places get different descriptions |
| RouteGenerator.PlanRouteFails | src/App.tsx:241-253 | no route iff the tag list is empty (NoTagsSelected) or no catalog place qualifies (NoMatchingPlaces) |
| RouteGenerator.PlanRoutePlaces | src/App.tsx:255-259 | the route has min(8, #matches) ≥ 1 places; they are a permutation of the first that many matches in catalog order, start with the first match, and all qualify |
| RouteGenerator.PlanRouteCap | src/App.tsx:255-256 | with 8 or more matches the route has exactly 8 places |
| RouteGenerator.PlanRouteMetrics | src/App.tsx:261-281 | distance is the leg sum over the optimized order; duration uses the format of `selectedTags` and the previously stored route; difficulty follows the 2/5 km thresholds; tags are the ids in order; id is "route-" followed by the timestamp |
| RouteGenerator.BuildRoute | src/App.tsx:241-281 | the statements of `generateRoute` before its state updates, with both early returns, compute exactly `PlanRoute` |
| RouteGenerator.FirstRouteHasNoSightseeingTime | src/App.tsx:233-238 | with no route stored before, the duration is walking time only |
| RouteGenerator.RouteAddsFiftyPoints | src/App.tsx:158-166 | one more completed route adds exactly 50 points to the level total |
| RouteGenerator.PointsAlwaysHaveALevel | src/App.tsx:158-166 | with non-negative counters the total is a whole non-negative number that some level's range holds |
| RouteGenerator.Session.constructor | src/App.tsx:18-40 | the initial state: no tags, no route, no selected place, the constructor tab |
| RouteGenerator.Session.GenerateRoute | src/App.tsx:241-289 | the outcome is the planned route; on success the route is stored, the tab is 'constructor' and `routesCompleted` rises by exactly 1; on failure nothing changes |
| RouteGenerator.Session.HandleTagSelect | src/App.tsx:292-301 | the selection becomes its toggle by tag id; nothing else changes |
| RouteGenerator.Session.ClearRoute | src/App.tsx:304-307 | the route and the selection are cleared; nothing else changes |
| RouteGenerator.Session.ShowPredefinedRoute | src/App.tsx:310-328 | the stored route keeps the predefined order, recomputes the distance over it, copies duration, difficulty and tags, and clears the selected place |
| RouteGenerator.Session.ShowPlaceOnMap | src/App.tsx:331-340 | selecting the already selected place (by id) deselects it, any other place is selected; the route is dropped and the tab kept |
| TagLists.FindById | src/components/RouteConstructor.tsx:22 | None iff no tag has the id; otherwise a tag of the list with that id |
| TagLists.WithoutId | src/components/RouteConstructor.tsx:39-41 | a tag remains iff it was there and has a different id; no tag with the id remains |
| TagLists.WithoutIdAppend | src/components/RouteConstructor.tsx:39-41 | removal distributes over concatenation, so the other tags keep their order |
| TagLists.WithoutIdKeepsOthers | src/components/RouteConstructor.tsx:39-41 | every tag with another id keeps its multiplicity; tags with the id occur 0 times |
| TagLists.WithoutIdKeepsDistinct | src/components/RouteConstructor.tsx:39-41 | removing keeps a list without repeated ids free of repeats |
| TagLists.ToggleTagEffect | src/App.tsx:292-301 | an absent id is appended, a present id is removed everywhere; afterwards the id is present iff it was absent |
| TagLists.ToggleTwiceRestores | src/App.tsx:292-301 | toggling an absent tag twice restores the original list |
| TagLists.ToggleKeepsDistinct | src/App.tsx:292-301 | toggling keeps a list without repeated ids free of repeats |
| GameData.FirstInRange | src/data/gameData.ts:477 | the index of the first level whose range holds the points, None iff no level does |
| GameData.GetUserLevel | src/data/gameData.ts:476-478 | the result is an entry of the level table |
| GameData.LevelTableShape | src/data/gameData.ts:3-97 | six levels numbered 1 to 6 with strictly increasing lower bounds, contiguous integer ranges from 0, and level 6 unbounded |
| GameData.RangesDisjoint | src/data/gameData.ts:7-83 | no points value lies in two levels' ranges |
| GameData.GetUserLevelMatches | src/data/gameData.ts:476-478 | when a level's range holds the points, that level is returned |
| GameData.GetUserLevelFallback | src/data/gameData.ts:477 | when no range holds the points, the first level is returned |
| GameData.UnmatchedPointsFallBack | src/data/gameData.ts:477 | negative points and gap values such as 99.5 match no level and fall back to level 1 |
| GameData.IntegerPointsHaveALevel | src/data/gameData.ts:7-83 | every whole number of points ≥ 0 is held by some level, and the lookup returns a level that holds it |
| GameData.TopLevel | src/data/gameData.ts:80-83 | points ≥ 2000 give level 6, whose upper bound is absent |
| Backgrounds.TimeOfDayClasses | src/data/saratovBackgrounds.ts:157-167 | night iff hour ≥ 22 or < 6, evening iff 17 ≤ hour < 22, day iff 6 ≤ hour < 17 |
| Backgrounds.OfTime | src/data/saratovBackgrounds.ts:149 | a background is kept iff it is in the table and has the requested time of day |
| Backgrounds.ByTimeMatches | src/data/saratovBackgrounds.ts:148-154 | when the table has a background of that time of day, the pick is one of them; otherwise it is the table's first entry |
| Backgrounds.BackgroundByTimeIsOfThatTime | src/data/saratovBackgrounds.ts:148-154 | with the shipped table every time of day has a background, so the pick always has the requested time of day |
| Backgrounds.RandomBackground | src/data/saratovBackgrounds.ts:142-145 | the random pick is an entry of the table |
| Numbers.RandomIndex | src/data/saratovBackgrounds.ts:152 | `Math.floor(Math.random() * n)` is an index into a non-empty list of n entries |
| Numbers.Round | src/components/QRScanner.tsx:175 | `Math.round` returns the integer within one half of its argument, halves rounded up |
| QRScanner.FindPlace | src/components/QRScanner.tsx:66 | a catalog place with the id, None iff there is none |
| QRScanner.CategoryCount | src/components/QRScanner.tsx:65-68 | the number of collected items whose catalog place has the category, at most the collection size |
| QRScanner.CategoryCountAppend | src/components/QRScanner.tsx:65-68 | appending an item adds one to the count exactly when its place has the category |
| QRScanner.ScanAddsOneItem | src/components/QRScanner.tsx:33-52 | an already collected place changes nothing; otherwise exactly one item carrying its id, name and category is appended and `totalScanned` rises by 1 |
| QRScanner.ScanKeepsDistinct | src/components/QRScanner.tsx:33-47 | a collection without repeated place ids stays without repeats |
| QRScanner.FirstScanRule | src/components/QRScanner.tsx:58-62 | 'first-scan' gets progress 1 and is unlocked now if it was locked; an existing unlock time is kept |
| QRScanner.CultureRule | src/components/QRScanner.tsx:65-76 | 'culture-lover' progress is the culture count; it unlocks at ≥ 5 and is never re-stamped |
| QRScanner.GastronomyRule | src/components/QRScanner.tsx:79-90 | 'gastronomy-expert' progress is the gastronomy count; it unlocks at ≥ 10 and is never re-stamped |
| QRScanner.UpdatesKeepIdsAndUnlocks | src/components/QRScanner.tsx:55-91 | the achievement list keeps its length, ids and maxima, and no existing unlock time is changed |
| QRScanner.UntrackedUnchanged | src/components/QRScanner.tsx:55-91 | achievements other than the three tracked ones are unchanged |
| QRScanner.ScanCoupons | src/components/QRScanner.tsx:95-126 | existing coupons are kept in order; a 10% coupon is appended at total 1, a 15% coupon from a listed restaurant at every multiple of 5, and nothing otherwise |
| QRScanner.CheckAchievements | src/components/QRScanner.tsx:55-91 | the in-place updates of the three achievements produce `UpdatedAchievements` |
| QRScanner.ScanSession.constructor | src/components/QRScanner.tsx:14-21 | the session holds the given collection and stats |
| QRScanner.ScanSession.SimulateScan | src/components/QRScanner.tsx:28-131 | the new collection and stats are those of `ScanStep`; a place already collected leaves both unchanged |
| QRScanner.AchievementProgress | src/components/QRScanner.tsx:174-176 | the percentage is `progress / maxProgress * 100` rounded half up (within 0.5 of it); it is between 0 and 100 for progress within range, 100 at completion and 0 at no progress |
| PersonalCabinet.UserRank | src/components/PersonalCabinet.tsx:51-54 | the 1-based index of the first entry with the user's id; None iff there is none |
| PersonalCabinet.ActiveQuests | src/App.tsx:876 | a quest is listed iff it is in the list and active |
| PersonalCabinet.ActiveQuestsAppend | src/App.tsx:876 | the filter distributes over concatenation, so the active quests keep their order and multiplicity before the stable sort |
| PersonalCabinet.CompareMatchesKey | src/components/PersonalCabinet.tsx:300-314 | the comparator's sign agrees with a sort key (urgent before not urgent, then high, medium, low), so it is a consistent total preorder |
| PersonalCabinet.UrgencyOrderIsStableSort | src/components/PersonalCabinet.tsx:299-314 | the ordered quests are a permutation of the input, sorted by the comparator, with quests that compare equal in their original order |
| PersonalCabinet.UrgentFirst | src/components/PersonalCabinet.tsx:302-306 | every urgent quest comes before every quest that is not urgent |
| PersonalCabinet.SortQuests | src/components/PersonalCabinet.tsx:299-314 | sorting the array in place leaves it in the stable comparator order |
| PersonalCabinet.UrgencyOrderLength | src/components/PersonalCabinet.tsx:299-314 | the ordered list has as many quests as the input |
| PersonalCabinet.UnlockedPoints | src/components/PersonalCabinet.tsx:57 | the left fold of `reduce` gives 100 times the number of unlocked achievements |
| PersonalCabinet.CabinetPointsFormula | src/components/PersonalCabinet.tsx:57-59 | the points are 100 per unlocked achievement, 10 per scan and 50 per route, and never negative for non-negative counters |
| PersonalCabinet.ProgressBounds | src/components/PersonalCabinet.tsx:56-63 | the percentage is at most 100; it is negative below the level's minimum, between 0 and 100 inside the range, and 0 for the unbounded level |
| PersonalCabinet.QuotientBounds | src/components/PersonalCabinet.tsx:61 | the fraction of the level span is negative below it, within [0, 1] inside it and at least 1 above it |
| PersonalCabinet.CategoryIcon | src/components/PersonalCabinet.tsx:73-82 | the five known categories get their own icon and any other category the pin |
| EventsMap.StatusClasses | src/components/EventsMap.tsx:82-91 | upcoming iff now < start, ongoing iff start ≤ now ≤ end, ended iff now > end and now ≥ start |
| EventsMap.StatusDisplayInjective | src/components/EventsMap.tsx:84-89 | different statuses have different labels and different colours |
| EventsMap.FilteredEvents | src/components/EventsMap.tsx:63-65 | an event is listed iff it is active and ('all' is selected or its category is selected) |
| EventsMap.FilteredEventsAppend | src/components/EventsMap.tsx:63-65 | the filter distributes over concatenation, so order is preserved |
| EventsMap.FilteredEventsSelection | src/components/EventsMap.tsx:63-65 | 'all' keeps exactly the active events; a category keeps exactly the active events of that category |
| EventsMap.CategoryCountAtMostAll | src/components/EventsMap.tsx:114-136 | no category button counts more events than the 'all' button, whose count is the active-events total |
| EventsMap.OngoingEvents | src/components/EventsMap.tsx:118 | an event is counted as ongoing iff it is listed, active and ongoing at `now` |
| EventsMap.OngoingAtMostActive | src/components/EventsMap.tsx:114-118 | the ongoing counter never exceeds the active-events counter |
| EventsMap.FormatPrice | src/components/EventsMap.tsx:77-80 | 'Уточняется' without a price, 'Бесплатно' for 0, the number followed by ' ₽' otherwise |
| EventsMap.FormatPriceInjective | src/components/EventsMap.tsx:77-80 | distinct prices get distinct labels |
| EventsMap.EventEmoji | src/components/EventsMap.tsx:18-27 | an unknown category gets the calendar emoji |
| InteractiveMap.OfCategory | src/components/InteractiveMap.tsx:100 | a place is kept iff it is in the list and has the category |
| InteractiveMap.OfCategoryAppend | src/components/InteractiveMap.tsx:100 | the filter distributes over concatenation, so catalog order is kept |
| InteractiveMap.FilteredPlacesByTab | src/components/InteractiveMap.tsx:87-101 | the constructor tab shows the route's places or none; a category tab shows that category's places; any other tab shows all places |
| InteractiveMap.RouteCoordinates | src/components/InteractiveMap.tsx:106 | the route places' coordinates in route order, none without a route |
| InteractiveMap.PolylineNeedsTwoPlaces | src/components/InteractiveMap.tsx:386 | the polyline is drawn iff there is a route of two or more places |
| InteractiveMap.RoleAtCases | src/components/InteractiveMap.tsx:230 | index 0 is the start even when it is also the last; the last index of a longer route is the finish; other points are waypoints numbered index + 1 |
| InteractiveMap.OneStartOneFinish | src/components/InteractiveMap.tsx:230 | a route of two or more places has exactly one start and one finish |
| InteractiveMap.RoleColorByKind | src/components/InteractiveMap.tsx:230-231 | two markers share a colour iff both are the start, both the finish or both waypoints |
| InteractiveMap.RoleLabelInjective | src/components/InteractiveMap.tsx:292 | different roles, and waypoints of different numbers, get different labels |
| InteractiveMap.RatingStars | src/components/InteractiveMap.tsx:174-176 | a negative rating makes `repeat` throw; otherwise the string is made of '⭐' only |
| InteractiveMap.RatingStarsCount | src/components/InteractiveMap.tsx:174-176 | for a rating ≥ 0 the number of stars is floor(rating), plus one when the fractional part is ≥ 0.5 |
| RouteConstructor.DropTag | src/components/RouteConstructor.tsx:19-29 | the handler kept from the first render appends the tag to that first selection iff it lacks the id; otherwise the current selection stays |
| RouteConstructor.DropOnFirstSelection | src/components/RouteConstructor.tsx:19-29 | while the selection is still the first one, a drop appends the tag iff its id is not selected |
| RouteConstructor.DropDiscardsLaterTags | src/components/RouteConstructor.tsx:19-29 | a drop of a tag missing from the first selection leaves exactly the first selection and that tag |
| RouteConstructor.DropAfterClickLosesClick | src/components/RouteConstructor.tsx:19-37 | mounted empty, click A, drop B: the selection becomes [B] and A is lost |
| RouteConstructor.DropTagIdempotent | src/components/RouteConstructor.tsx:21-25 | a drop of a tag missing from the first selection leaves its id selected, and dropping the same tag again changes nothing |
| RouteConstructor.DropKeepsDistinct | src/components/RouteConstructor.tsx:21-25 | when the first and the current selections have no repeated ids, neither does the selection after a drop |
| RouteConstructor.HandleTagClick | src/components/RouteConstructor.tsx:31-37 | a click toggles the tag by id exactly as `handleTagSelect` does |
| RouteConstructor.OfTagCategory | src/components/RouteConstructor.tsx:43-47 | a tag is kept iff it is in the list and of the category |
| RouteConstructor.OfTagCategoryAppend | src/components/RouteConstructor.tsx:43-47 | the filter distributes over concatenation, so order is preserved |
| RouteConstructor.TagsByCategoryPartitions | src/components/RouteConstructor.tsx:43-47 | the three groups together hold exactly the input tags, and each group holds only its own category |
| PDFExporter.RepeatStar | src/components/PDFExporter.tsx:64 | `repeat(n)` succeeds iff n ≥ 0 and then gives exactly n copies of the character |
| PDFExporter.StarLineShape | src/components/PDFExporter.tsx:64 | the line exists iff 0 ≤ floor(rating) ≤ 5, and is then floor(rating) '★' followed by '☆', 5 symbols in all |
| PDFExporter.Sanitize | src/components/PDFExporter.tsx:118 | the result has one character per UTF-16 code unit, each a kept letter or digit or '_' |
| PDFExporter.SanitizeByPosition | src/components/PDFExporter.tsx:118 | without surrogate pairs the length is preserved and each character is kept or replaced by '_' |
| PDFExporter.SanitizeFixed | src/components/PDFExporter.tsx:118 | a name of kept characters and '_' is left unchanged |
| PDFExporter.SanitizeIdempotent | src/components/PDFExporter.tsx:118 | sanitising twice equals sanitising once |
| PDFExporter.YoIsReplaced | src/components/PDFExporter.tsx:118 | 'ё' lies outside а–я and is replaced |
| PDFExporter.StarLines | src/components/PDFExporter.tsx:44-64 | the loop over the places fails iff some place's star line throws; otherwise it yields every place's star line, in order |
| PDFExporter.ExportFileName | src/components/PDFExporter.tsx:11-118 | nothing without a route; the `repeat` error iff some place's star line throws; otherwise the document is saved as the sanitised name plus ".pdf" |
| PDFExporter.ExportSavedIffRatingsInRange | src/components/PDFExporter.tsx:44-118 | a route is saved iff every place's rating has a floor between 0 and 5 |
| PDFExporter.DifficultyLabelInjective | src/components/PDFExporter.tsx:33-34 | the three difficulties print three different labels |
| Json.Stringify | server/server.js:155 | `JSON.stringify` of a string list is bracketed |
| Json.EscapeThenParse | server/server.js:109-111 | decoding an escaped character gives the character back and resumes exactly after its escape |
| Json.ParseStringify | server/server.js:109-111 | `JSON.parse(JSON.stringify(xs))` gives back xs for every string list |
| Server.BuildPlacesQuery | server/server.js:80-97 | the imperative builder produces the query and parameters of `PlacesQuery` and `PlacesParams` |
| Server.PushPatterns | server/server.js:94 | pushing one `%tag%` per tag appends exactly the patterns of the tags, in order, to the parameters |
| Server.NoFilterQuery | server/server.js:82-97 | with neither filter the query is `SELECT * FROM places ORDER BY rating DESC` with no parameters |
| Server.FilteredQueryForms | server/server.js:85-97 | the category clause comes first; tag conditions are joined by ' OR ' in parentheses and attached with ' AND ' after a category, else with ' WHERE ' |
| Server.QueryEndsWithOrder | server/server.js:97 | every query ends with ' ORDER BY rating DESC' |
| Server.ParamsLayout | server/server.js:85-95 | parameters are the category when present, then `%tag%` for each comma-separated tag in order; stripping the '%' and joining with ',' gives back the tags value |
| Server.PlaceholdersMatchParams | server/server.js:82-97 | the number of '?' in the query equals the number of parameters |
| Server.PostParams | server/server.js:153-158 | one parameter per inserted column |
| Server.JsonList | server/server.js:109-111 | a falsy column reads as the empty list |
| Server.MapRows | server/server.js:105-121 | the rows map iff every row maps, and then row by row in order |
| Server.PostThenGet | server/server.js:153-158 | a row inserted by POST is read back by GET as the body: coordinates in order, tags parsed back, rating defaulting to 0, photos to [], and a businessInfo object even without one, with isPremium as a boolean |

## Left out

- The haversine formula of `getDistance` (src/App.tsx:209-219) is not modelled. The leg distance is the parameter `dist`, constrained only to be non-negative, so nothing about symmetry or exact values is claimed.
- Clock and randomness are inputs. `Date.now()`, `new Date()` and `getHours()` become natural-number parameters. Each `Math.random()` becomes a real in [0, 1), and one `now` serves every use within one call.
- React state, hooks, `useEffect` persistence to `localStorage`, `alert`, the DOM and all JSX rendering are not modelled. `RouteGenerator.Session` stands for the state the handlers write. In particular the effect at `src/App.tsx:69-73`, which clears `selectedPlace` whenever the tab is not 'places', is not part of the `Session` contracts, so `GenerateRoute` keeps `selectedPlace` although the app clears it once the tab becomes 'constructor'.
- The user-id generation in src/App.tsx is not modelled.
- Leaflet map calls, the jsPDF page layout and `splitTextToSize`, `navigator.share` and the clipboard are not modelled.
- The text of `shareRoute` is not modelled.
- Express routing, SQLite execution, server seeding, the `/api/tags` and update routes, and the axios wrappers of src/services/api.ts are not modelled. The model keeps only the query text, the parameter lists and the row mapping.
- `toFixed`, `toLocaleDateString` and other display formatting are not modelled.
- Gradient fallbacks of the backgrounds are not modelled. src/components/SaratovBackground.tsx and src/components/DragDropTag.tsx are not part of this model.
- JavaScript numbers are modelled as unbounded reals and integers. NaN and Infinity are not modelled, except `maxPoints: Infinity`, which becomes an absent upper bound.
- Lookups in object literals (`categoryMap`, the icon tables, `urgencyOrder`) are modelled for their own keys only. Inherited prototype keys such as "constructor" are not considered.
- Query values given as arrays (repeated query parameters) are not modelled. Each filter is an optional string.
- `JSON.parse` is modelled for the canonical output of `JSON.stringify` on string lists. Whitespace, surrogate escapes and non-list JSON in a column make `JsonList` fail rather than being decoded.
- A POST body without `tags` or `coordinates` is not modelled. The source throws on a missing `coordinates`, and `JSON.stringify(undefined)` stores NULL.
- Predefined routes of src/data/saratovData.ts are static data; the id resolution that drops unknown ids is not modelled, and `ShowPredefinedRoute` takes the resolved places.
- Aliasing of achievement objects between the old and new stats in `simulateScan` is not modelled. Achievements are values, so the update of the old stats' objects is not captured.
- QRScanner.ScanSession.SimulateScan: the chosen place is a parameter, so an empty catalog (where the source reads `undefined`) is not modelled.
- QRScanner.AchievementProgress: requires `maxProgress > 0`, because the source divides by it.
- PersonalCabinet.ProgressBounds: requires a bounded level to have `maxPoints > minPoints`, because the source divides by their difference.
- PersonalCabinet.SortQuests: states the result of a stable sort by the comparator, not the engine's sorting algorithm.
- EventsMap.FormatPrice: prices are whole numbers; the decimal rendering of fractional prices is not modelled.
- RouteConstructor.DropTag: react-dnd is not part of this model; the model takes from react-dnd's documented behaviour that `useDrop` with a spec factory and no dependency list builds the handler once, so the drop sees the selection of the first render. `src/App.tsx` does not mount this component (line 7).
- PDFExporter.ExportFileName: the drawing calls of `generatePDF` go through jsPDF and are assumed not to throw; only the star line's `repeat` error is modelled.
