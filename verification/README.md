# Scroll event logger — a Dafny model of its event pipeline

The scroll event logger is a small browser demo. A scrollable pane reports
`scroll` and `scrollend` events. Each event is appended to an event log that
holds at most 50 entries, evicting the oldest first. Each event also
re-measures four edge distances from the pane's geometry: left, top, right
and bottom. A Clear button empties the log.

The logic exists in three variants. The React component (`src/App.tsx`)
keeps the log immutably, as `[...prev.slice(-49), newLog]`. The plain
scripts (`src/main.ts` and its untyped twin `src/main.js`, whose logic is
line-for-line the same) push onto a module-level array and shift once when
it passes 50 entries.

The model is made of these modules:

- `Js`: the JavaScript built-ins used. These are `slice` with a negative
  start, `shift`, and `Math.round` over exact reals, where
  `Math.round(x) = floor(x + 1/2)` and ties go towards +∞.
- `ScrollMetrics`: the geometry snapshot, the four metrics and their
  computation. It also has the update that does nothing when the container
  element is absent.
- `BoundedLog`: both eviction styles over any entry type. `Window`, "the
  newest 50 entries of the whole history", is their common reference
  definition. The module proves the two styles equal under the capacity
  bound, and shows they are not equal without it.
- `Events`: the event kinds, and the inputs a session receives.
- `ReactApp` and `VanillaApp`: each variant's entry type, `addLog`,
  clear and event handlers. The plain scripts' mutable module-level state
  becomes a state value passed from handler to handler.
- `Agreement`: fed the same events, the two variants hold the same log
  (ignoring the React-only `details` caption) and show the same metrics.

Ids (from `crypto.randomUUID`) and timestamps (from `toLocaleTimeString`)
are opaque strings supplied with each event. The container's geometry is
also supplied with each event, or absent when there is no container.

Two behaviours of the code are easy to misstate:

- Appending returns nothing in the code. It does not return the new entry.
- Rounding is JavaScript's `Math.round`, which sends ties towards +∞
  (`-2.5` becomes `-2`). It is neither "half away from zero" nor "half to
  even".

## Model

| member | source | states |
|---|---|---|
| `Js.SliceFrom` | src/App.tsx:47 | `slice(start)` returns a suffix of the array. A negative start gives the last `min(-start, n)` elements; a non-negative one gives `max(n - start, 0)` elements |
| `Js.Shift` | src/main.ts:69 | `shift()` on an empty array leaves it empty and removes nothing. Otherwise it removes the first element, and putting that element back in front restores the array |
| `Js.Round` | src/App.tsx:55-58 | `Math.round(x)` is an integer `n` with `n - 1/2 <= x < n + 1/2`: the nearest integer, ties going up |
| `Js.RoundUnique` | src/main.js:29-32 | Only one integer is nearest, so the rounded value is fully determined |
| `ScrollMetrics.Compute` | src/App.tsx:54-59 | Each metric is the nearest integer to its exact edge distance: `scrollLeft`, `scrollTop`, `scrollWidth - clientWidth - scrollLeft` and `scrollHeight - clientHeight - scrollTop` |
| `ScrollMetrics.ComputeIsUnique` | src/main.ts:29-32 | Any four integers that are each nearest to their edge distance are exactly the computed metrics |
| `ScrollMetrics.Update` | src/App.tsx:51-61 | With no scroller element the metrics are unchanged. Otherwise all four are recomputed from the geometry |
| `ScrollMetrics.OppositeEdgesSum` | src/App.tsx:55-58 | `left + right` lies in `(range - 1, range + 1]` for the horizontal scroll range `scrollWidth - clientWidth`, and likewise `top + bottom` vertically |
| `ScrollMetrics.IntegralGeometryIsExact` | src/main.js:29-32 | With whole-pixel geometry each metric equals its exact distance, `left + right == scrollWidth - clientWidth` and `top + bottom == scrollHeight - clientHeight` |
| `ScrollMetrics.InRangeIsNonNegative` | src/main.ts:29-32 | If `0 <= scrollLeft <= scrollWidth - clientWidth` and likewise vertically, all four metrics are non-negative |
| `ScrollMetrics.CornerExamples` | src/App.tsx:54-59 | 800-pixel content in a 400-pixel viewport: the top-left corner gives (0, 0, 400, 400) and the bottom-right gives (400, 400, 0, 0) |
| `BoundedLog.SliceAppend` | src/App.tsx:47 | The result has length `min(n, 49) + 1`, so at most 50. The new entry is last. The entries before it are the last `min(n, 49)` entries of the old log, in order. With fewer than 50 entries nothing is evicted |
| `BoundedLog.PushShift` | src/main.ts:67-69 | The new entry is last. A log under 50 just grows by it. From 50 or more entries the length stays the same, and exactly the oldest entry `logs[0]` leaves. A log within the bound stays within it |
| `BoundedLog.SliceAppendIsWindow` | src/App.tsx:46-47 | React-style appending keeps exactly the newest 50 entries of the old log followed by the new one |
| `BoundedLog.PushShiftMatchesSliceAppend` | src/main.js:67-72 | When the log holds at most 50 entries, push-then-shift gives the same log as `slice(-49)` plus append |
| `BoundedLog.PushShiftIsWindow` | src/main.ts:67-76 | When the log holds at most 50 entries, push-then-shift keeps exactly the newest 50 entries |
| `BoundedLog.AgreementNeedsBound` | src/main.ts:68-69 | From a log of 51 entries the two styles disagree, so the capacity bound is needed for their equivalence |
| `BoundedLog.AppendAllIsWindow` | src/App.tsx:38-49 | After any sequence of appends, the log holds the newest 50 entries of the whole history in the order they were logged |
| `BoundedLog.PushAllMatchesAppendAll` | src/main.ts:67-69 | From a log of at most 50 entries, push-then-shift and `slice(-49)` plus append log any sequence of entries to the same result |
| `BoundedLog.UnderCapacityKeepsAll` | src/main.js:60-75 | Appending up to 50 entries to an empty log keeps all of them, in order, with push-then-shift and with `slice(-49)` plus append alike |
| `BoundedLog.OverflowEvictsFirst` | src/main.js:67-72 | Appending 51 entries to an empty log keeps entries 2 to 51, in either style: the first is the only one evicted |
| `ReactApp.Details` | src/App.tsx:44 | The caption is "Scrolling..." exactly for `scroll` and "Scroll operation completed" exactly for `scrollend` |
| `ReactApp.AddLog` | src/App.tsx:38-49 | The new entry is last, with the requested kind, id, timestamp and caption. The log is the newest 50 entries of the old log followed by it |
| `ReactApp.Mount` | src/App.tsx:63-83 | At mount the log is empty. The metrics are measured once when the container exists, and stay at the initial zeros otherwise |
| `ReactApp.OnScrollEvent` | src/App.tsx:67-75 | A `scroll` or `scrollend` event logs the event, then re-measures the metrics, or keeps them when the container is absent |
| `ReactApp.ClearLogs` | src/App.tsx:148 | Clear empties the log whatever its length, and leaves the metrics alone |
| `ReactApp.Step` | src/App.tsx:67-148 | A `scroll` or `scrollend` event goes to its handler, which logs it and re-measures. A click on Clear empties the log and keeps the metrics |
| `ReactApp.Run` | src/App.tsx:63-89 | An empty sequence of events changes nothing. After a final clear the log is empty. After a final scroll event, that event's entry is the newest. A log within 50 entries stays within them |
| `ReactApp.RunIsWindow` | src/App.tsx:38-49 | Events are handled one at a time, in delivery order. After any sequence of events and clears, the log holds the newest 50 entries logged since the last clear, oldest first |
| `ReactApp.ClearThenLogStartsFresh` | src/App.tsx:147-148 | The first event after a clear yields a log of exactly its own entry |
| `VanillaApp.AddLog` | src/main.ts:60-79 | The new record is last. Under 50 records the log just grows. From 50 records only the oldest leaves. A log within the bound stays within it and holds the newest 50 records |
| `VanillaApp.Start` | src/main.ts:106-107 | The initial `updateMetrics()` shows measured metrics when the container exists, and leaves the page's metrics otherwise. The log starts empty |
| `VanillaApp.OnScrollEvent` | src/main.js:84-95 | Each listener logs its event kind, then re-measures the metrics, or keeps them when the container is absent |
| `VanillaApp.ClearLogs` | src/main.ts:81-82 | `clearLogs` empties the log and leaves the metrics alone |
| `VanillaApp.Step` | src/main.ts:90-104 | A `scroll` or `scrollend` event goes to its listener, which logs it and re-measures. A click on Clear runs `clearLogs` |
| `VanillaApp.Run` | src/main.js:84-98 | An empty sequence of events changes nothing. After a final clear the log is empty. After a final scroll event, that event's record is the newest |
| `VanillaApp.RunIsWindow` | src/main.ts:60-104 | Events are handled one at a time, in delivery order. After any sequence of events and clears, the log holds the newest 50 records logged since the last clear, oldest first |
| `VanillaApp.RunStaysBounded` | src/main.js:67-69 | Whatever sequence of events and clears arrives, the log never holds more than 50 records |
| `Agreement.OnScrollEventCorresponds` | src/main.ts:91-99 | One scroll event keeps the two variants in step: the same records, and the same metrics |
| `Agreement.RunsCorrespond` | src/App.tsx:67-75 | Any sequence of events and clears keeps corresponding React and plain-script states in step |
| `Agreement.VariantsAgree` | src/main.ts:89-107 | From start-up, after any events, both variants hold the same log (ignoring captions) within 50 entries, and show the same metrics |

`src/main.js` repeats the logic of `src/main.ts` line for line up to
line 69. Only type annotations and CSS class names differ. After that, the shift branch ends at line 72, `clearLogs` is at 77-78, the
listeners are at 84-95 and the initial `updateMetrics()` is at line 102.
The `VanillaApp` members model both files.

## Left out

- DOM rendering is not modelled: `renderLog`, removing rows, toggling the empty state, `scrollIntoView` and the `px` text of the metric labels. None of them affects the log or the metric values.
- React machinery is not modelled: `useState`, `useCallback`, `useEffect`, refs, registering and removing listeners, and the JSX markup. The listeners are modelled as the `Step` of each variant.
- Listener registration is over-approximated. Both variants register their scroll listeners only when the container exists (src/App.tsx:65 and 79-80, src/main.ts:90). The model nevertheless accepts scroll events after a start-up without a container, and scroll events whose geometry is absent. The source never delivers such events. Likewise, the plain scripts register the Clear listener only when the button exists (src/main.ts:102-104, src/main.js:97-99), but the model accepts a click on Clear regardless. `Mount` models only the metrics side of the early return at src/App.tsx:65.
- Failing page lookups and id generation are not modelled. The model assumes that the log container and the four metric elements exist, and that `crypto.randomUUID()` succeeds. The plain scripts dereference those elements without null checks (src/main.js:29-32, 54, 70 and 79), and `crypto.randomUUID()` throws outside a secure context. If such a call throws in a listener, the handler stops before `updateMetrics()` and the page keeps stale metrics. `VanillaApp.OnScrollEvent` and `Agreement.VariantsAgree` hold only when those calls succeed.
- Timestamp formatting (`formatTime`, `toLocaleTimeString`) is locale-dependent and reads the clock. Timestamps are opaque caller-supplied strings, so the model does not state that timestamps are non-decreasing.
- Id generation (`crypto.randomUUID`) is a randomness source. Ids are caller-supplied strings, and the model does not claim they are unique.
- IEEE-754 behaviour of `Math.round` and of the geometry is not modelled (negative zero, NaN, precision). Geometry is exact `real` arithmetic.
- Browser event delivery is a host concern: the ordering, coalescing and asynchrony of `scroll`/`scrollend` events. A session is a sequence of events processed one at a time, in order.
- The metrics the plain-script page shows before its first measurement come from markup that is not part of this model. `VanillaApp.Start` takes them as a parameter, and `Agreement.VariantsAgree` assumes zeros, the React component's initial value.
- Repeatability of the metric computation for the same geometry needs no lemma. Every operation here is a pure function.
