# Campus navigation core in Dafny

A Dafny model of the logic at the centre of a React Native campus-navigation
app. It covers:

- **Route selector.** Each candidate walking route gets five sub-scores:
  normalised distance, normalised duration, pedestrian traffic, path quality and
  accessibility. These are combined with weights that callers can override. The
  best candidate is picked by a stable descending sort. The module also gives
  time-of-day weight tables and a two-route comparison with a one-line reason.
- **Route calculation.** Loosely typed endpoint arguments are coerced, a
  coordinate is valid when it is a pair of non-NaN numbers, a
  directions-provider reply is turned into a display route, and a
  straight-line fallback route is used when there is no usable reply.
- **Saved data.** Saved routes, favourite places and recent searches are kept
  in a key-value store: saving, deleting, de-duplicating, capping and clearing.
- **Building directory.** The static directory can be filtered by type,
  searched case-insensitively and filtered by distance.
- **Search hook.** The landmark search box is modelled as a state machine.

All scores are exact reals. The clock, the straight-line distance function, the
presence of the access token, the provider's reply, fresh record ids and
timestamps are all parameters.

Modules (one file each):

| file | module | models |
|---|---|---|
| `optional.dfy` | `Optional` | `Option` with `GetOr` (JavaScript `undefined` and default arguments) |
| `seqs.dfy` | `Seqs` | `Array.prototype.filter` as `Filter`, order preservation as `Subseq` |
| `text.dfy` | `Text` | ASCII `toLowerCase` and `String.prototype.includes` |
| `geo.dfy` | `Geo` | `[lon, lat]` points and the abstract distance function |
| `js_values.dfy` | `JsValues` | the loosely typed values `calculateRoute` accepts |
| `campus_time.dfy` | `CampusTime` | clock readings and the schedule windows the scorers use |
| `route_scoring.dfy` | `RouteScoring` | sub-scores, normalisation, weights, `scoreRoute`, `getTimeBasedPreferences` |
| `route_selection.dfy` | `RouteSelection` | `selectBestRoute` and its stable sort |
| `route_comparison.dfy` | `RouteComparison` | `compareRoutes` and `determineMainReason` |
| `navigation_utils.dfy` | `NavigationUtils` | `calculateRoute`, `isValidCoordinate`, `getFallbackRoute` |
| `saved_routes.dfy` | `SavedRoutes` | saved routes, favourites and recent searches |
| `campus_buildings.dfy` | `CampusBuildings` | the building directory and its three queries |
| `search_hook.dfy` | `SearchHook` | the `useSearch` state transitions |

## Model

| member | source | states |
|---|---|---|
| RouteScoring.DefaultWeightsValid | utils/aiRouteSelector.js:7-13 | The baseline weight table is non-negative and sums to one, both on its own and when merged with no overrides. |
| RouteScoring.MergeWeights | utils/aiRouteSelector.js:157 | Each weight key the caller supplies replaces the baseline value and every other key keeps it; with no overrides the baseline comes back unchanged. |
| RouteScoring.MergeFullOverride | utils/aiRouteSelector.js:157 | Overriding all five keys yields exactly the overriding table, whatever the baseline was. |
| RouteScoring.PedestrianTrafficScore | utils/aiRouteSelector.js:46-73 | The traffic score is always between 0.4 and 1.0, so the 0.1 floor never applies. The contract gives the exact value for each of the four combinations of class-change time and peak hours, split at a distance of 500 m. |
| CampusTime.ClassChangeMinutes | utils/aiRouteSelector.js:50-53 | Within an hour, class-change time is exactly minutes 0-5, 20-30 and 50-59. |
| RouteScoring.PathQualityScore | utils/aiRouteSelector.js:79-102 | Path quality always lies in [0.3, 1.0]. In daytime it is 0.7 under 300 m, 0.6 under 600 m and 0.5 otherwise, each 0.1 higher at midday. After dark (from 18:00 to 06:00) it is 1.0 under 300 m, 0.9 under 400 m, 0.4 under 600 m and 0.3 otherwise, so it is at least 0.9 exactly when the route is shorter than 400 m. |
| RouteScoring.PathQualityAntitone | utils/aiRouteSelector.js:79-102 | For a fixed hour, a longer route never gets a higher path-quality score. |
| CampusTime.NightWindowsDiffer | utils/aiRouteSelector.js:93 | The path scorer's night (from 18:00) and the weight table's night (from 20:00) differ exactly at 18:00 and 19:00, and the weight table's night lies inside the path scorer's. |
| RouteScoring.FewTurns | utils/aiRouteSelector.js:120-121 | For a positive distance, the few-turns condition holds exactly when there are fewer than 3 steps per km. For a negative distance it always holds. For a zero distance it never holds, because the quotient is Infinity or NaN. |
| RouteScoring.AccessibilityScore | utils/aiRouteSelector.js:108-126 | Accessibility lies in [0.7, 1.0]. It is 1.0 exactly for a route under 400 m with few turns, 0.9 for a route under 400 m without, 0.8 for a route of 400 m or more with few turns, and 0.7 exactly for a route of 400 m or more without. A zero-length route gets 0.9. |
| RouteScoring.Normalize | utils/aiRouteSelector.js:131-134 | A batch whose values all agree normalises to 0.5. Otherwise the batch minimum maps to 1, the maximum to 0, and values in between to [0, 1]. |
| RouteScoring.NormalizeAffine | utils/aiRouteSelector.js:131-134 | Away from a tie the score is `(max - value) / (max - min)`: multiplied by the batch span it gives the distance from the value to the maximum. |
| RouteScoring.NormalizeMidpoint | utils/aiRouteSelector.js:131-134 | The value halfway between the batch extremes scores exactly one half. |
| RouteScoring.NormalizeAntitone | utils/aiRouteSelector.js:131-134 | A larger raw value never normalises to a higher score. |
| RouteScoring.MinOf | utils/aiRouteSelector.js:144 | The minimum of a non-empty list is one of its elements and is at most every element. |
| RouteScoring.MaxOf | utils/aiRouteSelector.js:145 | The maximum of a non-empty list is one of its elements and is at least every element. |
| RouteScoring.ScoreRoute | utils/aiRouteSelector.js:139-177 | The total is the merged-weight sum of the breakdown. The distance and duration entries are the route's values normalised over the batch minimum and maximum. The traffic, path-quality and accessibility entries are those scorers' values for the route and the clock. For a batch member, the distance and duration scores lie in [0, 1]. A uniform batch scores 0.5. Where the batch differs, the shortest member scores 1 on distance and the longest 0, and the quickest member scores 1 on duration and the slowest 0. |
| RouteScoring.ScoreRouteMonotone | utils/aiRouteSelector.js:131-152 | Within one batch, a shorter route never scores lower on distance and a quicker one never scores lower on duration. |
| RouteScoring.ScoreWithinUnit | utils/aiRouteSelector.js:160-165 | A batch member scored with valid merged weights has a total in [0, 1]. |
| RouteScoring.TimeBasedPreferences | utils/aiRouteSelector.js:218-251 | The class-change table applies during peak-hour class changes and takes precedence over the night table. The night table applies from 20:00 to 06:00, and the baseline table applies otherwise. Every table is valid, and each puts its largest weight on duration, path quality or distance respectively. |
| RouteSelection.ScoreAll | utils/aiRouteSelector.js:196-199 | Every candidate is paired with its own score against the whole batch, in input order. |
| RouteSelection.SelectBestRoute | utils/aiRouteSelector.js:182-212 | There is no selection exactly when the list is missing or empty. Otherwise the winner and every alternative are candidates paired with their own scores, and there is one alternative per other candidate. The winner scores at least as much as every candidate, and the alternatives are in descending order of score. A single candidate wins alone with 0.5 distance and duration scores. |
| RouteSelection.SelectionIsRanking | utils/aiRouteSelector.js:187-211 | The winner followed by the alternatives is exactly the ranking of the scored batch, in both branches. |
| RouteSelection.SelectionIsStablePermutation | utils/aiRouteSelector.js:196-202 | The result is a stable permutation of the input. Every candidate appears as often as it was given, each output position names its input position, and equal totals keep their input order. |
| RouteSelection.StrictWinnerOfTwo | utils/aiRouteSelector.js:195-211 | Of two candidates, the one with the strictly higher total wins and the other is the only alternative. |
| RouteSelection.ShorterRouteWinsScenario | utils/aiRouteSelector.js:139-212 | At 10:10 with no overrides, a 400 m, 300 s route beats an 800 m, 250 s route by 0.62 to 0.555. |
| RouteComparison.MaxEntry | utils/aiRouteSelector.js:296-298 | The reduce keeps the first entry with the greatest number and skips NaN entries. It stays at the empty key exactly when every entry is NaN. |
| RouteComparison.DetermineMainReason | utils/aiRouteSelector.js:287-309 | As written, only the duration and distance differences are numbers. The reason is the distance sentence exactly when the distance gain is strictly larger, and the time sentence otherwise. |
| RouteComparison.CrowdingAdvantageMisreported | utils/aiRouteSelector.js:288-294 | For one pair of breakdowns that differ mostly in crowding, the lookup as written names the walking time, while the lookup over the real keys names crowding. |
| RouteComparison.IntendedMainReason | utils/aiRouteSelector.js:300-308 | The reason is the sentence of the first breakdown component, in reasons-table order, with the greatest gain. It is never the catch-all sentence. |
| RouteComparison.IntendedReasonNamesDominantGain | utils/aiRouteSelector.js:300-308 | A component whose gain strictly beats every other component's is the one named. |
| RouteComparison.CompareRoutes | utils/aiRouteSelector.js:256-282 | Both routes are scored against the batch with the baseline weights. Route 1 is recommended exactly when it scores strictly higher. The reason is the lookup as written applied to the winner and the loser, so it is always the walking-time or the walking-distance sentence. The time and distance differences are the absolute differences in minutes and kilometres. |
| RouteComparison.CompareRoutesIntended | utils/aiRouteSelector.js:256-308 | The same scores and recommendation, with the reason from the corrected lookup over the breakdown's real keys, never the catch-all sentence. |
| RouteComparison.EqualTimesReportedAsFaster | utils/aiRouteSelector.js:266-308 | Two 400 m, 300 s routes at 10:10, one without turns and one with ten steps: the first wins, and as written the reason is "faster walking time" although the times are equal; the corrected lookup gives "easier navigation". |
| RouteComparison.CompareRoutesSwap | utils/aiRouteSelector.js:266-272 | Swapping the arguments never recommends the same physical route twice unless the scores tie. On a tie, each call recommends its second argument. |
| NavigationUtils.IsValidCoordinate | utils/navigationUtils.js:88-95 | A value is valid exactly when it is the two-number array of some point. |
| NavigationUtils.SafePoint | utils/navigationUtils.js:99-100 | A valid coordinate denotes the point whose array it is; anything else becomes the point `[0, 0]`. |
| NavigationUtils.SafePointOfPair | utils/navigationUtils.js:99-100 | A point's array form is valid and reads back as the same point. |
| NavigationUtils.CoerceEndpoint | utils/navigationUtils.js:18-34 | Coercion always yields a two-element array. An array of length two is kept as it is. An object whose `coordinates` is an array of length two gives that array. Every other array, object or value gives `[0, 0]`. |
| NavigationUtils.CoerceIdempotent | utils/navigationUtils.js:18-34 | Coercing an already coerced endpoint changes nothing. |
| NavigationUtils.CoercedPointRoundTrip | utils/navigationUtils.js:18-34 | A point passed as its array or wrapped in an object's `coordinates` reaches the route calculation as the same point. |
| NavigationUtils.WalkingMinutes | utils/navigationUtils.js:139 | The walking time is at least one minute. It is the least whole number of minutes that covers the distance at 5 km/h. |
| NavigationUtils.ShortWalkRoundsUp | utils/navigationUtils.js:139 | 0.086 km rounds up to 2 minutes. |
| NavigationUtils.FallbackRoute | utils/navigationUtils.js:97-158 | The polyline is the two sanitised endpoints. Identical endpoints give a zero route. Otherwise the route has the straight-line distance and its walking time. |
| NavigationUtils.MalformedEndpointsGiveEmptyRoute | utils/navigationUtils.js:99-111 | Two malformed endpoints both become `[0, 0]`, so the fallback is the empty route at `[0, 0]`. |
| NavigationUtils.MapProviderRoute | utils/navigationUtils.js:68-74 | Metres become kilometres and seconds become whole minutes, rounded up. Missing or zero values read as zero, and a missing geometry becomes the straight segment. |
| NavigationUtils.CalculateRoute | utils/navigationUtils.js:3-85 | A null or undefined endpoint gives the empty route at `[0, 0]`. With the app configuration present, a missing token, invalid coordinates, a failed request or a reply without routes gives the fallback route on the coerced endpoints. Otherwise the first reply route is mapped. |
| SavedRoutes.Stamp | utils/savedRoutes.js:15-19 | The record's fields are the caller's fields plus `id` and the timestamp key. The caller's own `id` wins over the fresh one, and the timestamp wins over everything. |
| SavedRoutes.SaveRoute | utils/savedRoutes.js:12-27 | The new record is first, followed by the earlier list, and the list is cut to 20. No other key changes. |
| SavedRoutes.DeleteRoute | utils/savedRoutes.js:39-49 | The saved list loses exactly the records with that id, and every other record keeps its multiplicity. Deleting succeeds, and no other key changes. |
| SavedRoutes.DeleteThenGone | utils/savedRoutes.js:29-49 | After a delete, no saved route carries the id and every saved route with another id is still listed. |
| SavedRoutes.WithoutIdPreservesOrder | utils/savedRoutes.js:42 | The records kept by a delete stay in their original order. |
| SavedRoutes.AddFavorite | utils/savedRoutes.js:52-67 | The new favourite is prepended with neither a cap nor a duplicate check. No other key changes. |
| SavedRoutes.RemoveFavorite | utils/savedRoutes.js:79-89 | The favourites list loses exactly the records with that id. No other key changes. |
| SavedRoutes.IsFavorite | utils/savedRoutes.js:91-98 | An id is a favourite exactly when removing it would shorten the favourites list. |
| SavedRoutes.RemoveThenNotFavorite | utils/savedRoutes.js:79-98 | After removing an id, it is no longer a favourite. |
| SavedRoutes.AddThenFavorite | utils/savedRoutes.js:52-98 | A freshly added place is a favourite under the id it was stored with. |
| SavedRoutes.AddRecentSearch | utils/savedRoutes.js:101-113 | The search is first, followed by the earlier searches under another name, in their old order, as many as fit. The list holds the smaller of 10 and one more than those searches. No later entry has the search's name. No other key changes. |
| SavedRoutes.OtherSearches | utils/savedRoutes.js:105 | The earlier searches under another name are kept, each as often as before and in their old order, and no others. |
| SavedRoutes.Read | utils/savedRoutes.js:115-123 | A missing key reads as the empty list, and a stored key reads as its list. |
| SavedRoutes.GetSavedRoutes | utils/savedRoutes.js:29-37 | The saved routes are the stored list, or empty when nothing is stored. |
| SavedRoutes.GetFavorites | utils/savedRoutes.js:69-77 | The favourites are the stored list, or empty when nothing is stored. |
| SavedRoutes.GetRecentSearches | utils/savedRoutes.js:115-123 | The recent searches are the stored list, or empty when nothing is stored. |
| SavedRoutes.AddedSearchOccursOnce | utils/savedRoutes.js:101-123 | After adding a search, exactly one recent search has its name. |
| SavedRoutes.ClearRecentSearches | utils/savedRoutes.js:125-133 | The recent-searches key is removed and every other key is unchanged. |
| SavedRoutes.ClearThenEmpty | utils/savedRoutes.js:115-133 | After clearing, the recent searches read as the empty list. |
| CampusBuildings.DirectoryTypesStyled | utils/campusBuildings.js:6-105 | Every building's type has an icon and colour entry. |
| CampusBuildings.BuildingsByType | utils/campusBuildings.js:107-109 | The result is exactly the buildings of that type, in directory order, each as often as in the directory. |
| CampusBuildings.BuildingIdsDistinct | utils/campusBuildings.js:6-95 | No two buildings of the shipped directory share an id. |
| CampusBuildings.SearchBuildings | utils/campusBuildings.js:111-118 | The result is exactly the buildings whose name, type or some facility contains the query ignoring case, in directory order, each as often as in the directory. |
| CampusBuildings.SearchIgnoresCase | utils/campusBuildings.js:111-118 | Queries that differ only in letter case give the same list. |
| CampusBuildings.SearchLowerCaseQuery | utils/campusBuildings.js:112 | Lower-casing the query first changes nothing. |
| CampusBuildings.EmptySearchListsAll | utils/campusBuildings.js:111-118 | The empty query lists the whole directory. |
| CampusBuildings.NearbyBuildings | utils/campusBuildings.js:120-125 | The result is exactly the buildings within the radius, or within 0.5 km when no radius is given, in directory order, each as often as in the directory. |
| CampusBuildings.NearbyMonotone | utils/campusBuildings.js:120-125 | A wider radius keeps every building a narrower one found. |
| CampusBuildings.ShippedQueriesHaveDistinctIds | utils/campusBuildings.js:6-125 | On the shipped directory, the by-type, search and nearby results each list every building at most once. |
| SearchHook.LandmarkIdsDistinct | constants/landmarks.js:3-11 | No two landmarks of the shipped catalog share an id. |
| SearchHook.HandleSearch | hooks/useSearch.js:17-34 | The query is recorded. A non-empty query shows exactly the landmarks whose name, non-empty description or type contains it ignoring case, in catalog order and each as often as in the catalog. The empty query hides an empty list. |
| SearchHook.ShippedSearchHasDistinctIds | hooks/useSearch.js:17-34 | Searching the shipped catalog lists each landmark at most once. |
| SearchHook.SearchIgnoresCase | hooks/useSearch.js:22-26 | Queries that differ only in letter case find the same landmarks. |
| SearchHook.FoundByOwnName | hooks/useSearch.js:22-26 | Every landmark with a non-empty name is found by searching for its name. |
| SearchHook.ClearSearch | hooks/useSearch.js:36-41 | Clearing empties the query and the results, hides the list and drops the focus: the hook's initial state. |
| SearchHook.ClearForgetsSearch | hooks/useSearch.js:36-41 | Clearing after a search gives the same state as clearing without it: the initial state. |
| SearchHook.SelectResult | hooks/useSearch.js:43-48 | The chosen name becomes the query. The list is hidden and the box unfocused, but the results are kept. |
| SearchHook.SelectedResultIsFoundAgain | hooks/useSearch.js:43-48 | After a listed result is picked, searching the query it leaves in the box lists that result again. |
| SearchHook.ShowAllLocations | hooks/useSearch.js:11-15 | The full catalog is shown, and the query and focus are untouched. |
| SearchHook.SearchNarrowsFullListing | hooks/useSearch.js:11-34 | Every search result appears in the full listing. |
| SearchHook.SetFocused | hooks/useSearch.js:8 | Setting the focus flag changes the focus and nothing else. |

## Left out

- The HTTP request to the directions provider, its timeout and its JSON parsing. The outcome is a parameter: failure, or a reply whose `routes` may be missing.
- `fetchAlternativeRoutes` in `utils/aiRouteSelector.js`. It only builds a URL, fetches and returns the reply's routes, so it is I/O only.
- The Haversine trigonometry. The straight-line distance is an abstract function parameter. Because of that, two branches of `getFallbackRoute` are not modelled. One is the NaN guard, which returns a zero route (utils/navigationUtils.js:127-134). An endpoint such as `[Infinity, 0]` passes `isValidCoordinate` and reaches it, but `JsValues.Num` has no Infinity to write it with. The other is the `catch` returning `1.0 km / 10 min` (utils/navigationUtils.js:149-157), which is unreachable in practice: with sanitised arrays nothing in the formula throws.
- `toFixed` formatting. Distances, time differences and scores are exact reals, not one- or two-decimal strings.
- IEEE floating point in general. Scores are exact reals, so sums such as 0.1 + 0.2 carry no rounding error. Infinity and NaN are modelled only where the code visibly depends on them: the zero-distance turns quotient, the undefined breakdown keys, and the -Infinity reduce seed.
- Reading the clock. The hour and minute are a `Clock` parameter, and record ids and ISO timestamps are string parameters. The source calls `new Date()` afresh in each scorer and for each route (utils/aiRouteSelector.js:47-48, 82) and again for the weight table (utils/aiRouteSelector.js:219-220). A batch scored across a minute or hour boundary can therefore mix two readings. The model takes all these reads as one reading, so every scorer and every candidate of a call sees the same `Clock`.
- Storage failures and every `catch` path in the saved-data functions, which would return `null`, `false` or `[]`. The store is a pure map from key to parsed list, and malformed JSON is not modelled. Each saved-data call is one atomic step. In the source, each is an awaited read followed by an awaited write, so concurrent calls can interleave and lose an update. Records hold string values only, so a numeric `id`, which never equals a string id under `===` or `!==` (utils/savedRoutes.js:42, 82, 94), is not represented.
- Console logging, the React components, `useNavigation`, `useLocation`, the build plugins and the styles.
- Text.Lower: folds ASCII letters only, while JavaScript's `toLowerCase` also folds other Unicode letters. All names in the shipped data are ASCII, and search queries are assumed to be ASCII too: a query holding, say, the Kelvin sign or a dotted capital I folds differently in JavaScript.
- RouteScoring.ScoreRoute: requires a non-empty batch. With an empty batch the source's `Math.min()` is Infinity and `Math.max()` is -Infinity, so the distance, duration and total scores are NaN, while the traffic, path-quality and accessibility scores stay finite.
- RouteComparison.CompareRoutes: requires a non-empty batch, for the same reason.
- NavigationUtils.CalculateRoute: assumes the app configuration is present. The token is read as `Constants.expoConfig.extra?.MAPBOX_ACCESS_TOKEN` (utils/navigationUtils.js:38), before the `try` opens (utils/navigationUtils.js:44). A missing `expoConfig` therefore makes the call reject with a TypeError instead of falling back; the caller wraps the call in its own `try` (hooks/useNavigation.js:37-39). Token presence is the `hasToken` parameter.
- CampusBuildings.BuildingsByType: takes the directory as a parameter. In the source, `getBuildingsByType`, `searchBuildings` and `getNearbyBuildings` each filter the module's own `campusBuildings` list (utils/campusBuildings.js:107-125), which is `CampusBuildings.Buildings` here. The same holds for `SearchBuildings` and `NearbyBuildings`.
- SearchHook.HandleSearch: takes the landmark catalog as a parameter. In the source, the hook imports `landmarks` (hooks/useSearch.js:2) and filters it at hooks/useSearch.js:22, which is `SearchHook.Landmarks` here. The same holds for `ShowAllLocations`, which shows that list at hooks/useSearch.js:13.
- `RouteComparison.CompareRoutes` follows the code, including the reason lookup as written. `RouteComparison.CompareRoutesIntended` is the same comparison with the corrected lookup; see Findings.
- The code's night window for path quality starts at 18:00, while the night weight table starts at 20:00. The model follows the code on both counts; `CampusTime.NightWindowsDiffer` states the gap.

## Findings

| source | as written | input that shows it | evidently intended | confidence | as-written member | corrected member |
|---|---|---|---|---|---|---|
| utils/aiRouteSelector.js:288-294 | The differences are built from breakdown keys `traffic`, `safety` and `roadQuality`, which `scoreRoute` never produces. Those differences are NaN, so only duration or distance can ever be named. "less crowded path", "better path conditions (paved/lit)" and "easier navigation" are unreachable. | `compareRoutes(a, b, [a, b])` at 10:10 with a = 400 m, 300 s, no steps and b = 400 m, 300 s, ten steps: route 1 wins only on accessibility (0.8 against 0.7; totals 0.605 against 0.595), yet the reason given is "faster walking time" although both walks take the same time | Take the differences over the five keys the breakdown and the reasons table share, and name the component with the greatest gain ("easier navigation" here) | high (not executed) | RouteComparison.CompareRoutes, RouteComparison.DetermineMainReason, RouteComparison.EqualTimesReportedAsFaster | RouteComparison.CompareRoutesIntended, RouteComparison.IntendedMainReason |
