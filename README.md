# Weather widget: cache-or-fetch controller

A model, in Dafny, of the logic of a browser weather widget (`weather-app/script.js`).
On each cycle the widget looks at one storage slot (key `weatherData`) that holds either
nothing or a record `{data, timestamp}`. When the record is younger than one hour
(3,600,000 ms, strict comparison) it displays the stored data and stops. Otherwise it
asks the platform for the position, fetches the weather for those coordinates, and
treats any response whose `cod` is not the number 200, and any network or decoding
failure, as an error with an "Error fetching" notice. On success it overwrites the slot
with the response and the current time, then displays the response. The refresh
button removes the slot and runs the cycle again. Two presentation rules carry logic:
the temperature label `Math.round(temp)` followed by `°C`, and the three background
tiers by temperature.

Files and modules:

- `wrappers.dfy` (`Wrappers`): `Option`.
- `cache.dfy` (`Cache`): the provider response, the cache entry (kept under the key
  `weatherData`), the one-hour duration, freshness and the success test on `cod`.
- `decimal.dfy` (`Decimal`): the text JavaScript writes for an integral number. It comes
  with a reading-back function and a round-trip proof.
- `presenter.dfy` (`Presenter`): `Math.round`, the temperature label, the background
  tier, and the text fields of the view.
- `controller.dfy` (`Controller`): one cycle as a function of the slot and an environment
  value (`Cycle`), the refresh handler (`Refresh`), and a whole page session as a fold
  over triggers (`Run`). The lemmas state the ordering and "nothing else happens"
  properties. The class `Widget` holds the slot as a field. Its methods
  `GetWeatherData`, `RemoveItem` and `OnRefresh` update the slot step by step, append
  to a ghost trace of effects, and are proved equal to the functions.

The outside world enters a cycle as parameters (`Controller.Env`):

- the clock reading at the freshness check;
- whether geolocation exists;
- the outcome of the position request: coordinates, the error callback, or no answer at all;
- the outcome of `fetch` plus `res.json()`;
- the clock reading when the response is written;
- whether the storage accepts the write.

The entry is stamped by a second `Date.now()` (script.js:40), read after the fetch, not by
the reading used for the freshness test (script.js:16). The model keeps both readings and
ties neither to the other. The effects are
`LocationRequested`, `FetchIssued(lat, lon)`, `Stored(entry)`, `Removed`, `Display(data)`
and `Alert(kind)`. `AlertMessage` gives the three notices their exact texts.

Behaviour of the code worth knowing:

- A malformed slot is not a miss. `JSON.parse` at script.js:15 is unguarded, so the call
  rejects. The slot is modelled as holding the record exactly, with no parse step.
- The provider's `message` is only thrown and logged (script.js:36, 46). The user sees the
  generic "Error fetching" notice, and so does the model.
- `localStorage.setItem` at script.js:40 sits inside the `try`. A write the storage refuses (quota exceeded)
  is caught like a failed fetch: "Error fetching", no display, the slot unchanged.
- `getCurrentPosition` at script.js:25 is called without a timeout. A request the user
  never answers calls neither callback, and the cycle ends after the request with no notice.
- `cod` is compared with `!==` (script.js:35). The model's `StatusCode` separates the number
  200 from the string `"200"` and from a missing field, so only the number counts as success.

## Model

| member | source | states |
|---|---|---|
| Cache.FreshnessBoundary | weather-app/script.js:6-16 | the duration is 3,600,000 ms; an entry is fresh iff now is before timestamp + 3,600,000; it is fresh at 3,599,999 ms of age and stale at exactly 3,600,000 |
| Cache.StaleStaysStale | weather-app/script.js:16 | an entry that is stale at some time is stale at every later time |
| Cache.OnlyNumber200Succeeds | weather-app/script.js:35-37 | a response succeeds iff its cod is the number 200; the string "200" and a missing cod fail |
| Decimal.NatToString | weather-app/script.js:70 | the text of a natural number is non-empty, all digits, with no leading zero; it starts with '0' iff the number is 0 |
| Decimal.IntToString | weather-app/script.js:70 | the text of an integer is canonical (optional '-', then digits with no leading zero, never "-0"); it starts with '-' iff the number is negative |
| Decimal.NatRoundTrip | weather-app/script.js:70 | reading the digits of n back gives n |
| Decimal.IntRoundTrip | weather-app/script.js:70 | reading the text of an integer back gives that integer |
| Decimal.IntToStringInjective | weather-app/script.js:70 | distinct integers get distinct texts |
| Presenter.Round | weather-app/script.js:70 | Math.round gives the integer n with n - 0.5 <= x < n + 0.5, so halves go toward +infinity |
| Presenter.RoundIsNearest | weather-app/script.js:70 | any integer within that half-open distance of x is Round(x): the rounding is unique |
| Presenter.RoundMonotone | weather-app/script.js:70 | rounding preserves order |
| Presenter.TempLabel | weather-app/script.js:70 | the temperature label ends in "°C" and what precedes the suffix is a canonical integer text |
| Presenter.TempLabelDenotesRounded | weather-app/script.js:70 | the number in front of "°C" reads back as the rounded temperature |
| Presenter.TempLabelExamples | weather-app/script.js:70 | 21.6 gives "22°C", 21.4 gives "21°C", 25 gives "25°C", 21.5 gives "22°C", -2.5 gives "-2°C", -0.4 gives "0°C" |
| Presenter.Tier | weather-app/script.js:87-93 | Hot iff temp >= 30, Mild iff 20 <= temp < 30, Cool iff temp < 20 (exhaustive and disjoint) |
| Presenter.TierMonotone | weather-app/script.js:87-93 | a warmer temperature never gets a cooler tier |
| Presenter.TierExamples | weather-app/script.js:87-93 | 30 is Hot, 29.9 and 20 are Mild, 19.9 is Cool, 32 is Hot, 25 is Mild |
| Presenter.RenderFaithful | weather-app/script.js:69-77 | the view shows the city and description as received, the rounded temperature, humidity before "%" and pressure before " hPa" as numbers that read back exactly, and the tier of the unrounded temperature |
| Controller.FreshHit | weather-app/script.js:13-20 | a fresh entry is displayed exactly as stored, and that is the cycle's only effect: no position request, no fetch, no write, slot unchanged |
| Controller.HourOldEntryIsStale | weather-app/script.js:16-25 | an entry exactly one hour old is not used; with geolocation available, the cycle's first effect is the position request |
| Controller.MissRequestsLocationOnce | weather-app/script.js:23-43 | on a miss with geolocation, exactly one position request comes first; a fetch happens iff coordinates arrive; any fetch is the second effect and carries those coordinates, so there is at most one; every display comes after a write of the displayed data, stamped with the write time |
| Controller.FetchFailureAlerts | weather-app/script.js:29-48 | a cod other than the number 200, a network/decoding failure, or a refused storage write leaves the slot unchanged; the effects are exactly request, fetch, "Error fetching" notice; nothing is written or displayed |
| Controller.SuccessStoresThenDisplays | weather-app/script.js:39-43 | a successful response the storage accepts replaces any prior entry with {data, writeTime}; the effects are exactly request, one fetch with the coordinates, the write, then the display of that same data |
| Controller.LocationFailureAlerts | weather-app/script.js:49-54 | a denied position or missing geolocation leaves the slot unchanged, fetches and displays nothing, and gives the matching notice (after the request, or alone when unsupported) |
| Controller.UnansweredRequestStops | weather-app/script.js:24-25 | a position request that is never answered is the cycle's only effect; no notice, no fetch, slot unchanged |
| Controller.AlertMessagesDistinct | weather-app/script.js:47-53 | the three notices get three different texts |
| Controller.CycleKeepsOrStoresSuccess | weather-app/script.js:11-55 | a cycle either keeps the slot or stores a successful response stamped with the write time; every display is the fresh entry found or data stored earlier in the same cycle |
| Controller.RefreshNeverUsesCache | weather-app/script.js:110-113 | refresh removes the slot first, then behaves as a cycle over an empty slot; every display comes after a fetch and after a write of the displayed data, in that order; with geolocation its second effect is the position request |
| Controller.ConcreteCycles | weather-app/script.js:11-55 | cold start at (10, 20) with cod 200 and temp 25: request, fetch, store, display, shown as "25°C" on the mild background; cold start with a denied position: request then notice, slot still empty; a one-second-old entry is displayed with no request |
| Controller.RefreshIsClearThenLoad | weather-app/script.js:110-113 | a session that ends in a removal followed by a cycle ends in the state the refresh function gives |
| Controller.RunInvariant | weather-app/script.js:11-55 | over any session of loads and refreshes, only successful responses are written, the slot holds either what was found at load or a written entry, and every display shows data found at load or data written before it |
| Controller.Widget.constructor | weather-app/script.js:13 | the page starts with whatever the storage slot holds, an empty trace and an empty session; the initial call at script.js:118 is then the session's first GetWeatherData |
| Controller.Widget.GetWeatherData | weather-app/script.js:11-55 | the method's new slot and appended effects are exactly those of Cycle, and the object stays the run of its session |
| Controller.Widget.RemoveItem | weather-app/script.js:111 | the slot becomes empty and one removal is appended |
| Controller.Widget.OnRefresh | weather-app/script.js:110-113 | the new slot and appended effects are exactly those of Refresh |

## Left out

- DOM writes through `querySelector`/`textContent` are not modelled; displaying is the `Display(data)` effect, and `Presenter.Render` gives the text fields as values.
- The wind speed text is left out: JavaScript's formatting of fractional numbers has no counterpart here.
- The "Last updated" stamp is left out: `toLocaleTimeString` depends on the locale and the clock.
- GSAP animations and the gradient strings are cosmetic library calls. Only the tier is modelled.
- The URL template, the API key and the real network and JSON decoding are outside the model; the fetch outcome is an input of the cycle.
- `localStorage` serialisation is left out; the slot holds the record exactly. An unparsable slot would reject the call in the source, and the model does not claim it counts as a miss.
- Controller.Cycle: does not model `localStorage.getItem` throwing at script.js:13, nor `removeItem` throwing at script.js:111, when storage is blocked. Both happen outside any `try`. The first rejects the call; the second stops the refresh handler before `getWeatherData` runs.
- Console logging is left out; it has no effect on state or display.
- Floating-point precision is not modelled; temperatures are reals.
- Decimal.IntToString: gives the JavaScript text only for integers; the exponent notation JavaScript uses from 1e21 upward is not modelled.
- Overlapping refresh clicks, and callbacks racing to write the slot, are event-loop concurrency and out of scope. Each cycle is modelled as running to completion before the next trigger.
- A response lacking `main` or `weather[0]` is not modelled, so `displayWeather` never throws here. The response record always has those fields, and humidity and pressure are integers, as the provider sends them.
