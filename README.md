# Satellite overlay and monitoring dashboard, modelled in Dafny

This project models the two pieces of logic in the fruit-growing monitoring web app.

**The NASA GIBS overlay** (`src/components/NasaTileLayer.jsx`):
- A custom Leaflet tile layer keeps its URL template for itself and gives the base layer an empty URL. It builds each tile URL by three chained string replacements in the order `{z}`, `{y}`, `{x}`.
- The `NasaTileLayer` component runs an effect. The effect removes the layer it made last, makes a new one and adds it to the map. It leaves a cleanup that removes that layer again.

**The dashboard page** (`src/pages/Dashboard.jsx`):
- the total-area and average-health cards;
- the health colour tiers;
- the `all` / `healthy` / `alert` table filter;
- the update of one area from the server's answer;
- the rule each fetch follows: use the server's field when it is there, otherwise the built-in sample data or default.

Modules, one per file:
- `Options` (`options.dfy`): the optional value used for missing JSON fields and absent props.
- `TileTemplate` (`tile_template.dfy`): first-occurrence `String.prototype.replace` and Number-to-string conversion of coordinates. It also holds the tile URL and the properties of both.
- `NasaTileLayer` (`nasa_tile_layer.dfy`): classes for the map's layer set, the GIBS layer and the mounted component.
  - The component's React lifecycle is modelled by the methods `RunEffect`, `Cleanup`, `Render` and `Unmount`.
  - It keeps the invariant that at most one of its layers is on the map.
- `Dashboard` (`dashboard.dfy`): the pure list operations of the page.
- `DashboardFetch` (`dashboard_fetch.dfy`): request outcomes and their fallbacks, the sample data, and `refreshAreaData`.

`opacity` is one of the effect's dependencies, so a new opacity does not change the layer's opacity in place: it removes the layer and creates a fresh one with the new opacity. The model follows the code (`Render`, `Deps`).

The tile URL is specified two ways, and both are proved to agree for every template:
- as the source computes it, by three chained first-occurrence replacements (`TileUrl`);
- by name, in one left-to-right pass that replaces the first `{z}`, `{y}` and `{x}` wherever each stands (`Substitute`).

They agree because a coordinate's text is a sign and digits, so no replacement can create or break another placeholder (`ChainSubstitute`).

## Model

| member | source | states |
|---|---|---|
| TileTemplate.Replace | src/components/NasaTileLayer.jsx:15-18 | `replace` with a string pattern substitutes at most one match: the length is unchanged, or changed once by the replacement's length minus the pattern's |
| TileTemplate.ReplaceFirst | src/components/NasaTileLayer.jsx:15-18 | `replace` with a string pattern swaps the first occurrence for the replacement, keeps the text before and after it, and leaves later occurrences alone |
| TileTemplate.ReplaceAbsent | src/components/NasaTileLayer.jsx:15-18 | when the pattern does not occur, `replace` returns the string unchanged |
| TileTemplate.ReplaceAfterPlainPrefix | src/components/NasaTileLayer.jsx:15-18 | a placeholder preceded only by text without `{` is the one replaced, and the text around it is kept |
| TileTemplate.NatToString | src/components/NasaTileLayer.jsx:16-18 | a natural number is written as non-empty decimal digits with no leading zero; only 0 starts with `0`, and it is written `0` |
| TileTemplate.NumberToString | src/components/NasaTileLayer.jsx:16-18 | a coordinate becomes a non-empty string with no `{`: a sign exactly when it is negative, then decimal digits without leading zeros that read back as its magnitude |
| TileTemplate.NatToStringRoundTrip | src/components/NasaTileLayer.jsx:16-18 | reading back the decimal digits of a natural number gives the number again |
| TileTemplate.TileUrl | src/components/NasaTileLayer.jsx:12-19 | the three chained replacements give the by-name substitution for every template: the first `{z}` gets the zoom, the first `{y}` the row and the first `{x}` the column, in whatever order they stand, and all other text is copied |
| TileTemplate.ChainSubstitute | src/components/NasaTileLayer.jsx:15-18 | with a sign-and-digits text for each placeholder, the chained replacements of any of the three placeholders equal the one-pass substitution of the same ones: no replacement creates or destroys an occurrence of another placeholder |
| TileTemplate.SubstituteDone | src/components/NasaTileLayer.jsx:15-18 | once all three placeholders have been replaced, the rest of the template, later repeats included, is copied literally |
| TileTemplate.SubstitutePlainPrefix | src/components/NasaTileLayer.jsx:15-18 | text without `{` in front of the placeholders is copied unchanged |
| TileTemplate.SubstituteOtherBrace | src/components/NasaTileLayer.jsx:15-18 | a `{` that opens no placeholder still to be replaced, such as another `{…}` field or a repeat, is copied |
| TileTemplate.SubstituteRepeatedZoom | src/components/NasaTileLayer.jsx:16 | a `{z}` after the first one is copied as it stands |
| TileTemplate.SubstituteReversed | src/components/NasaTileLayer.jsx:12-19 | in a template in the order `{x}`, `{y}`, `{z}` each placeholder still gets its own value, and the text between them is kept |
| TileTemplate.SubstituteZoomTwice | src/components/NasaTileLayer.jsx:15-18 | a second `{z}` between the first one and `{y}` stays literally, while `{y}` and `{x}` after it are still replaced |
| TileTemplate.TileUrlReversedOrder | src/components/NasaTileLayer.jsx:12-19 | `{x}/{y}/{z}` with column 3, row 7 and zoom 5 gives `3/7/5` |
| TileTemplate.TileUrlRepeatBeforeColumn | src/components/NasaTileLayer.jsx:15-18 | `{z}/{z}/{y}/{x}` with column 3, row 7 and zoom 5 gives `5/{z}/7/3` |
| TileTemplate.TileUrlWithoutPlaceholders | src/components/NasaTileLayer.jsx:15-18 | a template with none of `{z}`, `{y}`, `{x}` gives itself as the tile URL |
| TileTemplate.ReplaceChainGibsOrder | src/components/NasaTileLayer.jsx:15-18 | the three chained replacements on `a{z}b{y}d{x}e` give `a z b y d x e` for any substituted text without `{` |
| TileTemplate.TileUrlGibsOrder | src/components/NasaTileLayer.jsx:12-19 | on a template in GIBS order, `{z}` becomes the zoom, `{y}` the row and `{x}` the column, and all other text, repeated placeholders after `{x}` included, is kept |
| TileTemplate.TileUrlExample | src/components/NasaTileLayer.jsx:12-19 | `https://host/{z}/{y}/{x}.png` with zoom 5, column 3, row 7 gives `https://host/5/7/3.png` |
| TileTemplate.TileUrlRepeatedZoom | src/components/NasaTileLayer.jsx:15-18 | in a template `{z}…{y}…{x}…{z}`, the second `{z}` stays literally at the end of the tile URL |
| NasaTileLayer.GibsLayer.constructor | src/components/NasaTileLayer.jsx:7-10 | the layer keeps the template and the opacity, and its base URL is empty, so tile URLs come from the template |
| NasaTileLayer.GibsLayer.GetTileUrl | src/components/NasaTileLayer.jsx:12-19 | a tile's URL is the by-name substitution of its coordinates into the stored template, not into the base layer's empty URL |
| NasaTileLayer.LeafletMap.AddLayer | src/components/NasaTileLayer.jsx:40 | adding a layer puts it in the map's layer set and changes nothing else |
| NasaTileLayer.LeafletMap.RemoveLayer | src/components/NasaTileLayer.jsx:31 | removing a layer takes it out of the map's layer set and changes nothing else |
| NasaTileLayer.Detached | src/components/NasaTileLayer.jsx:30-32 | removing the referenced layer, if any, takes out that layer and only that one |
| NasaTileLayer.NasaTileLayerComponent.AtMostOneOverlay | src/components/NasaTileLayer.jsx:26-47 | under the component's invariant, at most one layer it made is on the map, and none while its reference is empty |
| NasaTileLayer.NasaTileLayerComponent.constructor | src/components/NasaTileLayer.jsx:22-24 | mounting starts with an empty reference, no pending cleanup, no layer of its own on the map and the map unchanged |
| NasaTileLayer.NasaTileLayerComponent.RunEffect | src/components/NasaTileLayer.jsx:26-41 | an empty URL adds no layer, leaves no cleanup and changes nothing. Otherwise the old layer is removed, a fresh layer with the template URL and the opacity is referenced and added, a cleanup is left, and exactly that layer of the component is on the map |
| NasaTileLayer.NasaTileLayerComponent.Cleanup | src/components/NasaTileLayer.jsx:42-46 | the referenced layer is removed and no layer of the component is left on the map; the reference is kept |
| NasaTileLayer.NasaTileLayerComponent.Render | src/components/NasaTileLayer.jsx:22-47 | default opacity 0.7. Unchanged `url`, `selectedDate` and `opacity` change nothing. A change runs the pending cleanup, then the effect. With a URL, the map loses the old layer and gains exactly the new one, whose cleanup is pending. With an empty URL, the map loses the old layer, the reference is kept and no cleanup is pending. The invariant is kept |
| NasaTileLayer.NasaTileLayerComponent.Unmount | src/components/NasaTileLayer.jsx:42-46 | unmounting runs the pending cleanup, so no layer of the component remains on the map; the reference is kept |
| NasaTileLayer.DateChangeSwapsLayer | src/components/NasaTileLayer.jsx:26-47 | a new date with the same URL takes the first layer off the map and puts a different, second layer on it as the only overlay |
| Dashboard.SumBy | src/pages/Dashboard.jsx:90 | the `reduce` sum of values that are all non-negative is non-negative |
| Dashboard.SumByAppend | src/pages/Dashboard.jsx:90 | the sum over a concatenation is the sum of the two sums |
| Dashboard.SumByWithin | src/pages/Dashboard.jsx:90-92 | when every value lies in [lo, hi], a sum of n values lies in [n·lo, n·hi] |
| Dashboard.TotalArea | src/pages/Dashboard.jsx:90 | the total area is the sum of the sizes over the unfiltered list, and 0 for an empty list |
| Dashboard.Round | src/pages/Dashboard.jsx:92 | `Math.round` gives the nearest integer, halves rounded up: x − 1/2 < r ≤ x + 1/2 |
| Dashboard.AvgHealth | src/pages/Dashboard.jsx:91-93 | the average health is 0 for an empty list and otherwise `Math.round(sum/n)`, which equals `(2·sum + n) div (2·n)` |
| Dashboard.HalfUpWithin | src/pages/Dashboard.jsx:92 | a sum between n·lo and n·hi, divided by n and rounded half up, lies in [lo, hi] |
| Dashboard.AvgHealthWithin | src/pages/Dashboard.jsx:91-93 | when every health lies in [lo, hi], so does the average health, so it lies between the minimum and the maximum health |
| Dashboard.HealthTier | src/pages/Dashboard.jsx:95-105 | healthy exactly from 90, attention exactly from 75 up to 90, critical exactly below 75 |
| Dashboard.HealthColor | src/pages/Dashboard.jsx:95-99 | green exactly from 90, yellow exactly from 75 up to 90, red exactly below 75; it is the colour of the health tier |
| Dashboard.HealthBg | src/pages/Dashboard.jsx:101-105 | the bar colour on the same thresholds; it is the bar colour of the health tier |
| Dashboard.ColorAgreesWithBg | src/pages/Dashboard.jsx:95-105 | two healths share a text colour exactly when they share a bar colour, and exactly when they share a tier |
| Dashboard.TierMonotone | src/pages/Dashboard.jsx:95-105 | a higher health never gets a worse tier |
| Dashboard.Shown | src/pages/Dashboard.jsx:107-111 | `healthy` shows exactly the areas of the healthy (green) tier, `alert` exactly the others, and any other filter value shows every area |
| Dashboard.FilterAreas | src/pages/Dashboard.jsx:107-111 | the filtered table is never longer than the list |
| Dashboard.FilterMembership | src/pages/Dashboard.jsx:107-111 | an area is in the filtered table exactly when it is in the list and the filter shows it |
| Dashboard.FilterThresholds | src/pages/Dashboard.jsx:107-111 | `healthy` keeps exactly the areas with health ≥ 90 (the green ones), `alert` exactly those with health < 90 |
| Dashboard.FilterOtherShowsAll | src/pages/Dashboard.jsx:107-111 | any other filter value shows the whole list |
| Dashboard.FilterIsSubsequence | src/pages/Dashboard.jsx:107-111 | the filtered table is a subsequence of the list, in the list's order |
| Dashboard.HealthyAlertPartition | src/pages/Dashboard.jsx:107-111 | the healthy and the alert tables together hold every area of the list exactly as often as the list does |
| Dashboard.HealthyAlertLength | src/pages/Dashboard.jsx:107-111 | the lengths of the healthy and the alert tables add up to the length of the list |
| Dashboard.HealthyAlertTotalArea | src/pages/Dashboard.jsx:90-111 | the total areas of the healthy and the alert tables add up to the total area |
| Dashboard.ApplyPatch | src/pages/Dashboard.jsx:129 | every field the answer carries overrides the area's field, and every field it does not carry is kept |
| Dashboard.ApplyPatchLaws | src/pages/Dashboard.jsx:129 | spreading the empty answer changes nothing, the same answer twice is once, and two answers in a row are their merge |
| Dashboard.MergeById | src/pages/Dashboard.jsx:128-130 | the update keeps the length and order, leaves every area with another id unchanged, and gives the area with the id the answer's fields over its own |
| Dashboard.MergeWithoutEffect | src/pages/Dashboard.jsx:128-130 | an answer without fields, or an id no area has, leaves the list as it was |
| Dashboard.MergeIdempotent | src/pages/Dashboard.jsx:128-130 | repeating the update with the same answer changes nothing more, even when the answer changes the area's id |
| Dashboard.MergeKeepsTotalArea | src/pages/Dashboard.jsx:90-130 | an answer without a size leaves the total area as it was |
| DashboardFetch.OrFallback | src/pages/Dashboard.jsx:36-38 | a field that is there is used; a thrown request or a missing field gives the fallback |
| DashboardFetch.FetchAreasData | src/pages/Dashboard.jsx:33-40 | the server's areas when it sends them, otherwise, and when the request throws, the three sample areas |
| DashboardFetch.FetchFruitStats | src/pages/Dashboard.jsx:43-50 | the server's fruit statistics when it sends them, otherwise, and when the request throws, the sample statistics |
| DashboardFetch.FetchAlerts | src/pages/Dashboard.jsx:137-144 | the server's alerts when it sends them, otherwise, and when the request throws, no alerts |
| DashboardFetch.FetchMapStats | src/pages/Dashboard.jsx:147-160 | the answer's body when there is one, otherwise, and when the request throws, 2 coastal, 3 backland and 1 valley regions |
| DashboardFetch.AreasEmptyOnlyWhenServerSaysSo | src/pages/Dashboard.jsx:36-38 | the area list is empty exactly when the server answered with an empty list, which is truthy and kept |
| DashboardFetch.NoAlertsExactly | src/pages/Dashboard.jsx:139-143 | there are no alerts exactly when the request threw, the answer held none, or it held an empty list |
| DashboardFetch.MapStatsLeaveInitial | src/pages/Dashboard.jsx:12-158 | after the map-stats fetch the counts are all zero exactly when the server sent zeros |
| DashboardFetch.LoadDashboard | src/pages/Dashboard.jsx:53-68 | a full load gives the areas, fruits, alerts and region counts each its own request's field when the answer carries it, and otherwise the sample areas, the sample fruits, no alerts and 2/3/1 regions |
| DashboardFetch.OfflineDashboard | src/pages/Dashboard.jsx:20-158 | with every request throwing, the page shows the sample areas and fruits, no alerts and the fallback region counts |
| DashboardFetch.RefreshAreaData | src/pages/Dashboard.jsx:125-134 | an answer updates the area with the id, the other areas keep their place and value, and a missing body spreads nothing. A thrown request fetches the whole list again |
| DashboardFetch.RefreshWithoutBody | src/pages/Dashboard.jsx:127-130 | an answer without a body leaves the list exactly as it was |
| DashboardFetch.RefreshIdempotent | src/pages/Dashboard.jsx:127-130 | refreshing an area twice with the same answer is refreshing it once, whatever fields the answer carries |
| DashboardFetch.MockAreasCards | src/pages/Dashboard.jsx:20-24 | the sample areas give a total area of 750 and an average health of 85 |
| DashboardFetch.MockAreasFilters | src/pages/Dashboard.jsx:20-24 | of the sample areas only Russas is healthy, and Jaguaruana and Aracati are on alert |

## Left out

- JSX rendering of every page and component: it is markup with no stated behaviour.
- Network I/O: the axios instance, every request, and the order and concurrency of `Promise.all`. Request outcomes are parameters of type `Response` instead.
- A `refreshAreaData` whose answer arrives after other updates: it is modelled as applied to the list it is given.
- The loading, error, online and last-update flags, the period selector, and `useState` sequencing. These are async UI state and carry no logic beyond the fetch rules.
- The five-minute refresh timer and the JSON export: timers and the DOM are outside the model.
- Dates, locale formatting and the layer's `Date.now()` key: the key does not affect which layers are on the map.
- The progress-bar width `(count / 1580) * 100`: floating-point display arithmetic.
- The particle background, the `About`, `Footer` and `Navbar` components, `App` routing and the app's home page (the URL fetch for the overlay and its date key). They are either static or not part of this model.
- Area sizes and healths are modelled as integers, as they are in the sample data. A server that sends fractional numbers is not modelled.
- An answer field set to `null` inside a patch: it would overwrite an area's field with `null`. `AreaPatch` only says whether a field is there.
- Extra fields in an answer that an area does not have: the model has no place for them.
- A `url` prop that is `undefined` or `null`: it is modelled as the empty string, which the effect treats the same way.
- The `map` dependency of the effect: a component instance is modelled on one fixed map, which is what `useMap` gives it.
- Non-integral coordinates: tile coordinates are integers, so Number-to-string conversion is modelled only for integers.
- NumberToString: for magnitudes of 10^21 and more, JavaScript writes exponent notation (`1e+21`). The model always writes plain digits, because tile coordinates never get that large.
- A present but falsy non-list value in an answer, such as `0` or `""`: the model types each field as the list or object the page expects.
