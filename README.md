# Camera event dashboard — event list pipeline

This project models the part of the dashboard's `script.js` that is more than page wiring. The page keeps a list
of camera-triggered events (`allEvents`) and a derived list that it displays (`filteredEvents`):

- **Adding an event** (`addEvent`) looks the event's `id` up with a linear search. A new id is appended. A known
  id is overwritten at the position where it was found. The whole list is then written back under the storage
  key `dashboard_events`, and the figures and the displayed list are refreshed.
- **Filtering** (`applyFilters`) keeps the events that pass three checks:
  - a camera check: the select holds `all`, or exactly the event's camera name;
  - a time-window check: `all`, `today`, `week` or `month`;
  - a case-insensitive search: the term must occur in the camera name, a space, and the formatted time.
    An empty term switches the search off.
- **Rendering** (`renderEvents`) sorts the filtered list in place, newest timestamp first.
- **Figures** (`updateStats`) are the total number of events and the number dated today. Both are taken over the
  whole list, whatever the filter says.

Modules, one per component:

- `Wrappers`: an `Option` type.
- `Text`: ASCII lower-casing and substring search.
- `Events`: the event record.
- `EventStore`: the upsert rule.
- `FilterEngine`: the filter predicate and the figures.
- `Sorting`: the in-place sort on an array.
- `DashboardPage`: a `Dashboard` class holding the page's state.

In the class, `allEvents` is a sequence field that the methods reassign. `filteredEvents` is an array. Filtering
allocates a fresh one, and rendering sorts that array in place. `storage` holds what the key `dashboard_events`
contains; it is given to the constructor because it outlives the page. The values of the three inputs are
parameters (`Criteria`). So is "now" (`Clock`): today's calendar date and the instants one week and one month
back. Whether a storage write succeeds is the parameter `writeOk`.

The upsert is specified by the function `Upsert`. This function is defined recursively from the front of the list
and is independent of the method's search-then-write body. Lemmas show the two agree: `Upsert` appends when the
id is new and overwrites at the first match otherwise. The sort is specified outright: it returns a permutation
with non-increasing timestamps.

## Model

| member | source | states |
|---|---|---|
| `EventStore.Upsert` | script.js:68-78 | adding keeps the length when the id is already present and grows it by one otherwise; the added event is in the result |
| `EventStore.FindIndex` | script.js:70 | returns -1 exactly when no event has the id, and otherwise the first position that holds it |
| `EventStore.UpsertAbsent` | script.js:72-74 | a new id is appended: the old list followed by the new event, earlier elements unchanged |
| `EventStore.UpsertPresent` | script.js:75-78 | a known id is overwritten at the position `findIndex` returns; length and every other position unchanged |
| `EventStore.UpsertKeepsUnique` | script.js:70-78 | unique ids stay unique after adding, and the added event is the only element with its id |
| `EventStore.UpsertTwice` | script.js:70-78 | adding `e` and then `e2` with the same id gives the same list as adding `e2` alone |
| `EventStore.UpsertIdempotent` | script.js:70-78 | adding the same event a second time changes nothing |
| `EventStore.UpsertKeepsOthers` | script.js:70-78 | adding never loses an event whose id differs from the added one |
| `Text.LowerChar` | script.js:128 | the result is never an ASCII capital; a capital maps to its small letter; other characters are unchanged |
| `Text.Lower` | script.js:164 | lower-casing keeps the length and lower-cases each character in place |
| `Text.LowerConcat` | script.js:164 | lower-casing the joined search text is joining the lower-cased parts |
| `Text.Contains` | script.js:165 | definition, no contract: the left-to-right substring search of `includes` |
| `Text.ContainsIff` | script.js:165 | the left-to-right search succeeds exactly when the pattern occurs at some position of the text |
| `Text.ContainsEmpty` | script.js:163-165 | the empty term is found in every text, so the emptiness guard only short-cuts the search |
| `Text.ContainsExtend` | script.js:164-165 | a term found in a prefix of the search text is found in the whole text |
| `FilterEngine.CameraPasses` | script.js:134 | definition, no contract: the select holds `all` or exactly the event's camera name |
| `FilterEngine.TimePasses` | script.js:139-160 | definition, no contract: `today` compares dates, `week`/`month` reject timestamps before the threshold, any other value passes |
| `FilterEngine.SearchText` | script.js:164 | definition, no contract: camera name, a space, and the formatted time or the empty text |
| `FilterEngine.SearchPasses` | script.js:163-168 | definition, no contract: an empty lower-cased term passes; otherwise the lower-cased search text must contain it |
| `FilterEngine.Matches` | script.js:132-171 | definition, no contract: the conjunction of the camera, time and search checks |
| `FilterEngine.Filter` | script.js:132-171 | the result is no longer than the list; every kept event is in the list and passes all three checks; every event of the list that passes them is kept |
| `FilterEngine.FilterIsSubsequence` | script.js:132-171 | the filtered list is a subsequence of `allEvents`: events are dropped, never reordered |
| `FilterEngine.FilterMultiplicity` | script.js:132-171 | each event occurs in the filtered list as often as in `allEvents` when it passes the checks, and not at all otherwise |
| `FilterEngine.FilterNoCriteria` | script.js:134-168 | with camera `all`, time frame `all` and an empty search, the filtered list equals `allEvents` |
| `FilterEngine.FilterKeepsOnlyMatches` | script.js:134-168 | each kept event has the selected camera; under `today` it has today's date; under `week`/`month` its timestamp is at least the threshold; with a non-empty term its lower-cased search text contains the lower-cased term |
| `FilterEngine.SearchFindsCameraName` | script.js:163-167 | a term found in the lower-cased camera name alone always passes the search, whatever the formatted time is |
| `FilterEngine.OnDay` | script.js:238-242 | the kept events are exactly those of the list dated `day`, and there are no more of them than in the list |
| `FilterEngine.ComputeStats` | script.js:233-245 | the total is the size of the whole list, and the today figure is at most the total; neither depends on the filter criteria |
| `FilterEngine.TodayCountIsTodayWindow` | script.js:238-242 | the events counted as today's are exactly those the `today` time window alone displays, so the two figures agree |
| `FilterEngine.OnDayCount` | script.js:239-244 | each event is counted as today's exactly as often as it occurs in the list when it is dated today, and never otherwise |
| `Sorting.SortNewestFirst` | script.js:192 | afterwards the array is a permutation of what it held, and timestamps never increase from left to right |
| `DashboardPage.Dashboard.constructor` | script.js:20-21 | both lists start empty and the figures are zero; storage keeps what an earlier visit left there |
| `DashboardPage.Dashboard.AddEvent` | script.js:68-86 | the new list is `Upsert` of the old one: append for a new id, overwrite at the first match otherwise, unique ids preserved; when the write succeeds, storage holds the new list and the figures and the sorted, filtered list are refreshed from it; when it throws, storage, figures and list stay as they were |
| `DashboardPage.Dashboard.ReceiveEvent` | script.js:44-53 | an event read from the page address is stamped with its display time and then added, with all of `AddEvent`'s outcomes; with no event, no field changes |
| `DashboardPage.Dashboard.LoadEvents` | script.js:89-102 | storage is unchanged; nothing stored keeps the collection, unparsable text empties it without refreshing the page, a stored list replaces it and refreshes the figures and the list |
| `DashboardPage.OpenPage` | script.js:24-33 | start-up as written: after a successful add of the address's event, storage holds that one event alone, whatever was stored before, and the collection is read back from it |
| `DashboardPage.UrlImportDropsHistory` | script.js:26-29 | one stored event and one event in the address: after start-up the stored event is neither on the page nor in storage |
| `DashboardPage.OpenPageLoadFirst` | script.js:24-33 | start-up with loading first: the collection is the address's event upserted into the stored list, written back, and every stored event with another id survives |
| `DashboardPage.Dashboard.UpdateStats` | script.js:233-245 | the total is the length of `allEvents`; the today figure counts its events dated today and equals the size of the `today` window |
| `DashboardPage.Dashboard.ApplyFilters` | script.js:127-174 | `allEvents` is unchanged; a fresh array holds a permutation of the filtered list, newest first, each element passing all checks |
| `DashboardPage.Dashboard.RenderEvents` | script.js:186-192 | the displayed array keeps its events and ends up newest first |

## Left out

- Page wiring is not modelled because it has no logic of its own. This covers DOM lookups, cards and the detail
  modal, event listeners, and the notification with its timer (script.js:1-14, 104-124, 176-230, 247-292).
- JSON parsing and encoding are not modelled because they are foreign serialisation. The stored key is a `Slot`:
  absent (or empty), text that does not parse, or a list of events.
- DashboardPage.Dashboard.AddEvent: why a write fails (the storage quota) is not modelled; the caller says
  whether it succeeded. A failed write leaves the changed `allEvents` in place and skips the refresh, as the thrown
  error does at script.js:81-85; the logging in `checkUrlForEventId`'s catch (script.js:60-61) is left out.
- `checkUrlForEventId` is reduced to `ReceiveEvent`. URL parsing, the per-event storage read, its JSON parse
  errors, `history.replaceState` and the notification are foreign calls, so the caller supplies the parsed event
  (or none) and its `toLocaleString` text.
- Date handling is not modelled because it depends on locale, time zone and the platform's date library.
  - `toDateString` becomes the integer field `day`.
  - `new Date(timestamp)` becomes the integer field `timestamp`.
  - The `setDate(-7)` / `setMonth(-1)` thresholds become `Clock.weekAgo` / `Clock.monthAgo`, supplied by the
    caller. Their calendar-arithmetic quirks at month boundaries are outside the model.
- Events.Event: an unparsable timestamp (an Invalid Date) is not modelled. Every event has an integer instant and
  date. In the code, such an event passes the week and month windows and sorts unpredictably.
- FilterEngine.Filter: one clock reading is taken for the whole pass. The code reads `new Date()` again for each
  event.
- Text.Lower: only ASCII letters are lower-cased. JavaScript's `toLowerCase` folds all of Unicode.
- FilterEngine.SearchText: malformed events are not modelled. In the code, a missing camera name is rendered as
  the text `undefined`; in the model every event has all its fields.
- Sorting.SortNewestFirst: does not state that events with equal timestamps keep their filtered order. That
  stability comes from the JavaScript engine's `Array.prototype.sort`; the model promises only a permutation,
  newest first.

## Findings

| source | as written | input that shows it | evidently intended | confidence | as-written member | corrected member |
|---|---|---|---|---|---|---|
| script.js:26-29 | the address's event is added (and the whole collection written to `dashboard_events`) before `loadEvents` reads that key, while the collection is still empty | stored list `[a]`, address event `b` with another id, write succeeds: storage and page end with `[b]` only (`UrlImportDropsHistory`) | load the stored list first, then add the event, so storage ends with `a` and `b` | high, not executed | `DashboardPage.OpenPage` | `DashboardPage.OpenPageLoadFirst` |
