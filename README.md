# Bus route viewer: the rules under the page

The page shows one bus company's (KMB) routes in a selector, and a
direction button. When a route is chosen it draws the route's stops on a
map, joins them with a polyline, and lists the stops with the minutes until
the next bus. This project models the rules in `main.js` that decide what
the user sees once the provider's data has arrived:

- **Selection state** (module `App`, class `App.Page`): the selected route and
  the direction, which starts at `inbound`. The button flips it. A reload is a
  no-op while no route is selected. JavaScript's truthiness applies here, so
  the empty string also counts as "no route" (`App.Selected`).
- **Route menu** (`RouteMenu`): the selector offers the route numbers of the
  first 100 records of the provider's route list, in the provider's order.
- **Layer clearing** (`Layers`): before drawing, every marker, circle-marker and
  polyline layer is removed. Every other layer stays, in order. Then one more
  tile layer is added. Tile layers are never removed, so each load whose
  route-stop fetch succeeds leaves one tile layer more
  (`Layers.ClearedAddsOneTile`, `Load.OtherLayersAfterLoad`). A load whose
  route-stop fetch fails adds none.
- **Route geometry** (`Geometry`): each stop is looked up in turn. It gives
  one `[lat, long]` pair and one marker. The first failed lookup stops the
  run. Once every stop is resolved, a polyline through the pairs is drawn,
  but only if there is at least one pair.
- **ETA grouping** (`EtaGrouping`): the flat list of `{stop, eta}` records
  becomes a dictionary from stop id to that stop's arrivals, in input order.
- **ETA label** (`EtaLabel`): a stop with arrivals shows
  `max(0, floor((first - now) / 60000))` minutes. The arrival used is the
  first one recorded for the stop. Instants are integer milliseconds.
  A stop without arrivals shows the sentinel `暫無班次` ("no service").
- **Stop list and failure state** (`StopList`, `Load`): the list first shows a
  single loading item. If any request of the run fails, it ends as a single
  failure item. Otherwise it holds one entry per route stop, in route order.

`Load.LoadView` is the specification of one run of the loader. It maps the
fetched data (`Load.Provider`), the selection and the clock reading to the
map's layers and the stop list. `App.Page.LoadRouteStops` is proved to
produce exactly that state. The lemmas of `Load` state what a run shows.

The fetched data is an input. A key missing from one of `Provider`'s maps
stands for a request whose fetch or JSON parse throws. The clock is an input
too: `now`, in milliseconds.

Points of the page's behaviour that are easy to mistake:

- The label uses the stop's first recorded arrival (index 0), not the
  earliest of its arrivals (`EtaLabel.FirstNotEarliest`).
- A route with no stops gives an empty list and no polyline. It is not a
  failure state.
- After a failure, the map is not reset to a clean state:
  - If the route-stop fetch fails, the previous route's markers and polyline
    stay.
  - If a stop lookup fails, the markers of the stops before it stay.
  - If the ETA fetch fails, the new markers and polyline stay while the list
    shows the failure item.
- A result of an earlier, slower load is not discarded when a newer load has
  started: the page has no such mechanism. The company is fixed to KMB. There
  is no vehicle polling and no simulated bus motion.

## Model

| member | source | states |
|---|---|---|
| `Direction.Toggle` | main.js:46 | the result is always inbound or outbound; it is outbound exactly when the input was inbound, and inbound for every other input |
| `Direction.ToggleSwaps` | main.js:46 | on inbound/outbound the button changes the value, and pressing it twice restores it |
| `RouteMenu.RouteNumbers` | main.js:31-35 | one option per route record, holding that record's route number, in list order |
| `RouteMenu.MenuRoutes` | main.js:31 | at most 100 options; exactly min(100, n) of them; option i is route i of the provider's list |
| `RouteMenu.ShortListWhole` | main.js:31 | a list of at most 100 routes is offered whole |
| `EtaGrouping.GroupEtas` | main.js:89-93 | the loop's dictionary equals the reference grouping: each stop that occurs maps to its arrivals in record order |
| `EtaGrouping.ArrivalsNonEmpty` | main.js:91-92 | a stop's list is non-empty if and only if some record is for that stop |
| `EtaGrouping.NoEmptyList` | main.js:89-93 | no key of the dictionary maps to an empty list |
| `EtaGrouping.GroupingSnoc` | main.js:90-93 | one more record changes the dictionary exactly as one loop step does: create the list if missing, then push |
| `EtaGrouping.RecordListed` | main.js:90-92 | every record's eta is in its own stop's list, at the position counted by the earlier records for that stop |
| `EtaGrouping.OrderKept` | main.js:90-92 | for two records of one stop, the earlier record's eta comes first in the list |
| `EtaGrouping.FirstArrival` | main.js:92 | the head of a stop's list is the eta of the first record for that stop |
| `EtaGrouping.TotalGrouping` | main.js:89-93 | all lists together hold exactly as many arrivals as there are records |
| `EtaLabel.MinutesUntil` | main.js:110 | never negative; 0 for any arrival at or before now, or less than a minute ahead; otherwise n whole minutes with n*60000 <= arrival - now < (n+1)*60000 |
| `EtaLabel.MinutesExact` | main.js:110 | an arrival k*60000 + r ms ahead, with 0 <= r < 60000, reads k |
| `EtaLabel.StopLabel` | main.js:107-114 | the sentinel exactly when the stop has no list or an empty one |
| `EtaLabel.LabelFromRecords` | main.js:107-110 | a stop's label is the minutes until the eta of its first record in list order |
| `EtaLabel.NoServiceIff` | main.js:107-113 | a stop gets the sentinel, not a number, exactly when no ETA record is for it |
| `EtaLabel.FirstNotEarliest` | main.js:107-108 | with arrivals 2 and 1 minutes ahead, listed in that order, the label is 2: the first record, not the earliest |
| `EtaLabel.Decimal` | main.js:111 | the minute count is written as decimal digits without a leading zero, denoting the count |
| `EtaLabel.LabelText` | main.js:111-113 | the sentinel's span reads `暫無班次`; a minute count's span is its decimal digits followed by ` 分鐘` |
| `EtaLabel.LabelRoundTrip` | main.js:111-113 | the span's text determines the label: the sentinel never reads as a number, and distinct minute counts read differently |
| `Layers.Kept` | main.js:63-67 | every layer left after clearing was on the map and is not a marker, circle marker or polyline; the result is never longer than the map |
| `Layers.RemoveOverlays` | main.js:63-67 | the clearing loop leaves exactly the filtered layer list |
| `Layers.KeptMembers` | main.js:64 | a layer survives clearing if and only if it was on the map and is not a marker, circle marker or polyline |
| `Layers.KeptNoOverlays` | main.js:63-67 | a map without such layers is left unchanged, order included |
| `Layers.OverlaysOfKept` | main.js:63-67 | after clearing no marker, circle marker or polyline remains |
| `Layers.ClearedAddsOneTile` | main.js:63-68 | clearing keeps every tile layer and adds one, so the tile count grows by exactly one per clearing |
| `Layers.ClearIdempotent` | main.js:63-67 | clearing a cleared map removes nothing more |
| `Geometry.ResolvedPrefix` | main.js:72-76 | the metadata of the stops before the first failed lookup, in route order; the next stop's lookup is the one that fails |
| `Geometry.DrawRoute` | main.js:71-80 | one coordinate pair and one marker per resolved stop, in route order; complete exactly when every lookup succeeds, and then the list has one entry per stop |
| `Geometry.ResolvedAll` | main.js:72-76 | the whole route resolves if and only if every stop's lookup succeeds |
| `StopList.ItemText` | main.js:102-113 | the loading item reads `載入中...` (main.js:55) and the failure item `載入失敗` (main.js:122); a stop entry reads its Chinese name, ` / `, its English name, then its label's text |
| `StopList.StatusTextsDiffer` | main.js:55 | the loading message and the failure message (main.js:122) read differently |
| `StopList.BuildEntries` | main.js:95-118 | one entry per route stop, in route order, with the stop's two names and its minute or sentinel label |
| `Load.LoadView` | main.js:51-124 | one run on its four paths: a failed route-stop fetch leaves the map untouched; a failed stop lookup leaves the cleared map with the markers before it; a failed ETA fetch leaves all markers and the polyline; each of these ends the list as the single failure item, and a fully successful run ends it with one entry per stop; the loading item never remains |
| `Load.NoLoadingAfterRun` | main.js:55-122 | whatever fails, the loading item is gone from the list when the run ends |
| `Load.FailedIff` | main.js:55-122 | the list ends as the single failure item if and only if some request of the run fails |
| `Load.SuccessList` | main.js:95-118 | on success, one entry per route stop in route order, each labelled from the grouped ETA records, with no loading or failure item |
| `Load.OverlaysAfterLoad` | main.js:62-84 | once the route-stop fetch has succeeded, the markers and polylines on the map are exactly this run's markers and polyline; nothing from earlier remains |
| `Load.PolylineAfterLoad` | main.js:71-84 | a polyline is on the map if and only if every stop resolved and the route has a stop; its points are the stops' coordinates in route order |
| `Load.OtherLayersAfterLoad` | main.js:58-68 | a failed route-stop fetch leaves the map untouched; otherwise every other layer keeps its place and exactly one tile layer is added |
| `Load.LoadTwice` | main.js:51-124 | loading the same selection twice on the same data gives the same list and the same markers and polyline |
| `Load.ThreeStopsTwoEtas` | main.js:71-118 | three stops with ETA records for two of them: three entries, the sentinel for the stop without records, clamped minutes for the others, and a three-point polyline |
| `App.Selected` | main.js:47-52 | no route (null) and the empty string both fail the guard; a route that passes it is a non-empty string |
| `App.Page.constructor` | main.js:20-21 | the page starts with no route, direction inbound, an empty selector and a map holding the one tile layer added at main.js:3-5 |
| `App.Page.LoadRoutes` | main.js:24-36 | the selector's options become the menu of the fetched list; when that fetch throws nothing changes |
| `App.Page.SelectRoute` | main.js:38-41 | the chosen value becomes the current route, then the page reloads; an empty value changes nothing else |
| `App.Page.ToggleDirection` | main.js:45-48 | the direction flips; with a route selected the page shows that route's run in the new direction, and without one nothing else changes |
| `App.Page.LoadRouteStops` | main.js:51-124 | without a selected route nothing changes; with one, the map and list become the specified run for (route, direction), and the selection and the menu remain as they were |

## Left out

- Leaflet itself is not modelled (map set-up, `fitBounds`, tile URL and
  options, marker and polyline styling): these are rendering calls. Layers are
  abstract kinds, and a popup is its text.
- `fetch`, `res.json()` and the `{data: ...}` envelope are network I/O.
  `Load.Provider` holds the parsed data. One missing key stands for every kind
  of failure (network, HTTP, parse).
- Load.LoadView: a route-stop response whose `data` is not a list is treated
  like a failed route-stop fetch, which leaves the map untouched. The page
  notices that case only after it has cleared the map.
- App.Page.LoadRouteStops: the second lookup of each stop, for its names,
  returns the same metadata as the first. The provider is an unchanging
  snapshot, so a failure of only that second request is not modelled.
- App.Page.LoadRouteStops: uses one clock reading `now` for every stop. The
  page reads the clock once per stop.
- DOM building (`innerHTML`, list items, spans, event listener registration):
  the list is a sequence of items and `StopList.ItemText` gives each item's
  text.
- The wall-clock display is only a display.
- Date parsing and locale formatting: arrivals are integer milliseconds. An
  ETA that is `null` or a string that does not parse is not modelled; the
  page would turn these into epoch 0 or NaN.
- Overlapping runs of the loader are not modelled. A run is
  sequential and atomic, so the route and direction read again before the
  ETA fetch are the ones the run started with.
- `console.error` only logs.
- App.Page.LoadRouteStops: the loading item of main.js:55 is a transient
  state. A run is atomic here, so every path overwrites it before the run ends,
  and no contract can show it. `Load.NoLoadingAfterRun` states that it never
  remains.
- EtaGrouping.GroupEtas: the dictionary is a map from stop id to list. Property
  names that a plain JavaScript object inherits (a stop id such as
  `constructor`) are not modelled.
