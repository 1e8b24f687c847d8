# Agent status board — a Dafny model

This project models the data logic of a contact-center dashboard that shows
the live status of agents (on a call, handling a ticket, available, away),
read from a single webhook feed. The original is one Streamlit script,
`app-3.py`. Its logic is woven between rendering calls. Here that logic is
lifted out into pure functions over immutable datatypes:

- **Feed loading** (`Feed`). The request and JSON decoding are an input
  (`Response`). A non-list payload is wrapped into a one-element list. The
  agents are stably sorted by the rank of their status. Any failure yields
  no agents together with the exception's text.
- **Status classification and ordering** (`Agents`, `Sorting`). Statuses
  are ranked by their index in `on_call, busy, available, away`, or 99 when
  missing or unrecognised. The sort is a stable insertion sort. It is proved
  to be a permutation, non-decreasing in rank and stable. It is also proved
  equal to the concatenation of the rank 0, 1, 2, 3 and 99 subsequences.
- **Relative time** (`TimeFormat`, `Text`). `time_since` is modelled over
  the elapsed seconds: placeholder, seconds, minutes, or hours and minutes.
  The text rendering includes decimal digits.
- **Metrics** (`Aggregates`): per-status counts, the active count and the
  total.
- **Filtering** (`Filtering`). Selector labels map to categories. The
  category test is combined by AND with a case-insensitive substring search
  on name or email.
- **Selection** (`Selection`). The session's selected email toggles, closes
  and is resolved against the full agent list.
- **Display fallbacks** (`Display`): status style, ticket badge, ticket
  label and accent, and when the error box is shown.
- **One run of the script** (`Dashboard`), composing all of the above.

Files: `wrappers.dfy` (Option, Result), `agents.dfy`, `sorting.dfy`,
`feed.dfy`, `text.dfy`, `timefmt.dfy`, `aggregates.dfy`, `filtering.dfy`,
`selection.dfy`, `display.dfy`, `dashboard.dfy`.

The model follows the code where its behaviour is easy to misread:

- A failed fetch returns an empty list. The previous list is not kept.
- A JSON object holding an array field is not unwrapped. It is treated as
  one agent.
- Records without a name are not dropped.
- Error texts are not truncated.
- A missing or unrecognised status renders with the `away` style. It still
  ranks 99 (after `away`) and is not counted as away. So the four counts
  add up to the total only when every status is recognised
  (`Aggregates.CountsSumToTotalIff`).
- A timestamp without a UTC offset (for example `2024-05-01T10:00:00`)
  parses to a naive datetime. Subtracting it from the aware clock raises,
  and the bare `except` returns the placeholder, exactly as for an
  unparsable timestamp.
- Identity is the email alone, with no fallback to the name. A card's
  button selects `email` defaulted to `""`. The lookup compares against the
  raw email, which is absent. So an agent without an email is never shown
  in the panel (`Selection.NoEmailNeverResolved`).

## Model

| member | source | states |
|---|---|---|
| Agents.Classify | app-3.py:66-67 | a raw status is recognised exactly when it is one of the four names of `STATUS_ORDER`, and is `Missing` exactly when the key is absent |
| Agents.ClassifyRoundTrip | app-3.py:106-109 | classification loses nothing: the raw `a.get("status")` value is recovered from it, so comparing classified statuses is comparing the raw values |
| Agents.RankIsIndex | app-3.py:66-67 | the sort key is the index of the status in `STATUS_ORDER` when it is one of the four names, and 99 otherwise; it is always one of 0, 1, 2, 3, 99 |
| Sorting.SortByRank | app-3.py:64-68 | the sorted list is a permutation of the feed, of the same length, with ranks non-decreasing |
| Sorting.SortIsStable | app-3.py:64-68 | for every rank, the agents of that rank appear in the sorted list exactly in their feed order, as Python's stable `sorted` keeps them |
| Sorting.SortIsBucketOrder | app-3.py:64-68 | the sorted list equals the rank-0, 1, 2, 3 and 99 subsequences of the feed, concatenated |
| Sorting.SortedUnique | app-3.py:64-68 | a rank-sorted list is determined by its per-rank subsequences, so any stable sort by this key yields the same list |
| Feed.Wrap | app-3.py:63 | an array payload is taken as it is; any other value becomes the only element of a one-element list |
| Feed.Keyed | app-3.py:64-67 | the key is computed for every element: success exactly when every element is a JSON object, otherwise the `AttributeError` text of the first element that is not |
| Feed.GetAgents | app-3.py:58-70 | the error is absent exactly when the request succeeded and every element is an object; then the agents are the sorted, stable permutation of the feed; on any error the list is empty; a failed request's message is passed through, and a payload with a non-object element reports the `AttributeError` text naming the type of the first such element |
| Feed.GetAgentsIsBucketOrder | app-3.py:63-68 | a successful fetch returns on_call, busy, available, away, then unrecognised agents, each group in feed order |
| Feed.SingleObjectIsOneAgent | app-3.py:63 | a non-list payload that is one object becomes exactly a one-element list, with no error |
| Feed.UnrankedAfterAway | app-3.py:66-67 | in a successful result every agent with a missing or unrecognised status comes after every `away` agent |
| Text.Lower | app-3.py:150 | lower-casing keeps the length and maps each character, leaving no upper-case ASCII letter |
| Text.Upper | app-3.py:215 | upper-casing keeps the length and maps each character, leaving no lower-case ASCII letter |
| Text.CaseMappingIdempotent | app-3.py:150 | lower-casing or upper-casing a second time changes nothing |
| Text.ContainsIffOccurs | app-3.py:150 | the substring scan holds exactly when the needle occurs at some index of the haystack |
| Text.NatDigitsRoundTrip | app-3.py:79-81 | the decimal text of a count reads back to the same number |
| Text.DecimalIffNatDigits | app-3.py:79-81 | a string is the canonical decimal text of a number (digits only, no leading zero, reading back to it) exactly when it is the text `str` produces, so each number has one text |
| Text.IntDigits | app-3.py:79 | `str(diff)`: a non-negative number is its canonical decimal text; a negative one is a minus sign followed by the canonical text of its absolute value |
| TimeFormat.TimeSince | app-3.py:74-83 | no timestamp gives the placeholder; under 60 s (negative included) gives the seconds themselves; 60 s to under an hour gives 1..59 minutes; otherwise hours of at least 1 and minutes 0..59; the shown amount reconstructs the elapsed time to within the last unit: `h*3600 + m*60 <= diff < h*3600 + m*60 + 60` |
| TimeFormat.Render | app-3.py:74-83 | the placeholder text appears exactly for a missing time; otherwise the text shows the amount in canonical decimal: seconds with their sign and an `s`, minutes with an `m`, hours and minutes as `<h>h <m>m`, each number reading back to the amount |
| TimeFormat.RenderInjective | app-3.py:79-81 | two shapes that render to the same text are the same shape with the same amounts, so the text determines the relative time |
| TimeFormat.RenderExamples | app-3.py:79-81 | 59 s, 90 s, 2 h 5 min and -5 s render as `59s`, `1m`, `2h 5m` and `-5s`; a missing time renders as the placeholder |
| Aggregates.CountStatus | app-3.py:106-109 | a status count never exceeds the number of agents |
| Aggregates.CountIsPositions | app-3.py:106-109 | each count equals the number of positions whose agent has exactly that status |
| Aggregates.CountsPartition | app-3.py:105-111 | the four counts plus the number of unrecognised or missing statuses equal the total |
| Aggregates.ComputeMetrics | app-3.py:105-117 | each card counts exactly the positions holding its own status; total is the list length; active is on_call + busy + available and at most the total; the gap between the four counts and the total is the unrecognised agents |
| Aggregates.CountStatusPermutation | app-3.py:105-110 | counts depend only on which agents are present, not on their order |
| Aggregates.MetricsPermutation | app-3.py:105-111 | reordering the agent list leaves all metrics unchanged |
| Aggregates.CountsSumToTotalIff | app-3.py:105-111 | the four counts add up to the total if and only if every agent's status is one of the four names |
| Aggregates.EmptyMetrics | app-3.py:105-111 | an empty list gives zero for every metric |
| Filtering.SelectedFilter | app-3.py:144-145 | each selector label maps to "all" or one of the four status names, and to "all" exactly for "Todos" |
| Filtering.FilterMapKeys | app-3.py:137-144 | the map's keys are exactly the five selector labels |
| Filtering.FilterMapAligned | app-3.py:137-144 | "Todos" selects "all" and every other label selects the status at the same position of the display order |
| Filtering.FilterMapValues | app-3.py:144 | the categories reached are "all" and the four status names, so the map is onto |
| Filtering.FilterMapInjective | app-3.py:144 | different labels select different categories, so the map is one-to-one |
| Filtering.MatchesCategory | app-3.py:149 | every agent passes "all"; for any other category exactly the agents whose status is the one that category names pass |
| Filtering.MatchesSearch | app-3.py:150 | an empty search passes every agent; otherwise an agent passes exactly when the lower-cased search occurs at some index of its lower-cased name or lower-cased email, a missing field read as "" |
| Filtering.FilterAgents | app-3.py:147-151 | the grid is an order-preserving subsequence of the agents; every shown agent passes both the category and the search test; every agent passing both is shown, as often as it occurs |
| Filtering.FilterAllIsIdentity | app-3.py:147-151 | category "all" with an empty search shows every agent, in order |
| Filtering.FilterIdempotent | app-3.py:147-151 | filtering the grid again with the same settings changes nothing |
| Filtering.SubsequenceSkip | app-3.py:147-151 | skipping an agent that fails the test keeps the result a subsequence of the list |
| Selection.CardKey | app-3.py:172 | a card's key is the agent's email, or `""` when the email is absent |
| Selection.Toggle | app-3.py:183-184 | pressing a card closes the panel exactly when that key is selected, and otherwise selects that key |
| Selection.Close | app-3.py:218-219 | closing always leaves nothing selected |
| Selection.ToggleTwice | app-3.py:184 | pressing the same card twice, from nothing selected or from that card selected, restores the previous state |
| Selection.Resolve | app-3.py:189 | nothing selected resolves to nothing; otherwise the result is the first agent of the list whose email equals the key, or nothing when no agent's email equals it, without error |
| Selection.NoEmailNeverResolved | app-3.py:172-189 | an agent whose record has no email is never resolved, whatever the selection and however its card is pressed |
| Display.StyleFor | app-3.py:168-169 | a recognised status gets its own configuration entry; a missing or unrecognised one gets the `away` entry |
| Display.StatusConfigCoversOrder | app-3.py:10-17 | the style table has exactly the four statuses of the display order |
| Display.UnrecognisedLooksAway | app-3.py:192-193 | in the detail panel too, a missing or unrecognised status renders exactly like `away` |
| Display.TicketBadge | app-3.py:170-177 | the badge appears exactly when the ticket count is present and above zero, and shows that count |
| Display.TicketLabel | app-3.py:215 | a missing or empty type is labelled `TICKET`; otherwise the label is the upper-cased type, of the same length; no label contains a lower-case ASCII letter |
| Display.TicketAccent | app-3.py:215 | the accent is amber exactly when the type is `Llamadas`, and blue otherwise |
| Display.LabelDoesNotDecideAccent | app-3.py:215 | `llamadas` and `Llamadas` share the label `LLAMADAS`, but only the latter is amber |
| Display.ShowsError | app-3.py:101-102 | the error box appears exactly when an error text is present and non-empty |
| Dashboard.DetailPanel | app-3.py:159-190 | a panel is shown only when the grid is non-empty and something is selected, and then shows the first agent of the full list with the selected email; it is shown whenever such an agent exists |
| Dashboard.Present | app-3.py:105-190 | the page drawn from a fetch's result: the metrics are those of the list, so each card counts exactly its own status and the total is the list length; the grid is a subsequence of the list holding every agent that passes the filter, as often as it occurs, and no other; the panel shows the first agent of the list with the selected email whenever the grid is non-empty and such an agent exists, and nothing otherwise; an empty list gives zero metrics, an empty grid and no panel |
| Dashboard.Cycle | app-3.py:99-190 | one run: the list and the error are those of the fetch, so a payload holding a non-object reports the `AttributeError` text of the first one; the metrics are those of the list, each card counting exactly its own status; no error exactly when the request succeeded and every element is an object, and then the list is the feed's rank buckets concatenated; a failed request's message is the error, and after any error the list, grid and panel are empty and every metric is zero; the grid holds exactly the agents passing the selected label's category and the search, in list order; the panel shows the first agent of the list with the selected email whenever the grid is non-empty and such an agent exists |
| Dashboard.MetricsOfFeed | app-3.py:99-111 | after a successful load the metrics equal those of the feed in its arrival order |
| Dashboard.DetailIgnoresFilter | app-3.py:188-189 | the panel depends on the full list and the selection only: any two non-empty grids, whatever filter produced them, give the same panel |
| Dashboard.DetailMayBeFilteredOut | app-3.py:147-190 | for every fetch, filter, search and selection, the agent the selection resolves to in the full list is shown in the panel whenever the grid is non-empty, even when the filter hides its own card |
| Dashboard.ExampleFilteredOut | app-3.py:147-190 | one such run: with Ana away and Beto on a call, "En llamada" leaves only Beto's card while Ana's panel stays open |

## Left out

- HTTP request, status check and JSON decoding (`requests.get`,
  `raise_for_status`, `r.json()`). They are network I/O and a foreign
  parser. Their outcome is the `Feed.Response` input: a failure text, or
  the decoded payload.
- Timestamp parsing (`datetime.fromisoformat`, `Z` replacement), the clock
  (`datetime.now()`) and the `int()` truncation of the elapsed seconds.
  They are clock access and library parsing. `TimeFormat.TimeSince`
  receives the whole elapsed seconds, or `None` whenever the source
  returns the placeholder before formatting: an empty or missing
  timestamp, or any exception inside the `try` (one that does not parse,
  one without a UTC offset, or a value that is not a string).
- The `st.cache_data` time-to-live cache, the manual "Actualizar" cache
  clear, and the `time.sleep` + `st.rerun` refresh loop. These are
  framework caching and a blocking timer with no logic of their own.
- Page setup, CSS, HTML markup, column layout, the "Actualizado" clock
  line, the "DESDE" meta line and the "Sin tickets activos" text. These
  are presentation only.
- JSON values of unexpected types inside an object are not modelled. This
  covers a `null` or non-string name, email, status or ticket type, and a
  non-integer ticket count. A field is either absent or holds a value of
  the expected type. In the source, a `null` status behaves like a missing
  one. A `null` name raises in the filter, outside any handler, but only
  when the agent passes the category test and the search text is
  non-empty, since `and` and `or` short-circuit. A `null` email raises
  only in that case and only when the name test has failed first.
- Text.Lower: maps ASCII letters only. Python's `str.lower` applies full
  Unicode case mapping, which is not modelled.
- Text.Upper: maps ASCII letters only, for the same reason. Python's
  `str.upper` can also lengthen a string (for example `ß`), which the model
  cannot.
- Streamlit's widget keys (`btn_{email}`) are not modelled, nor is
  their uniqueness requirement. Two cards in the grid share a key when
  they have the same email, or when neither has an email, or when one has
  the email `""` and the other none. Streamlit then raises at the
  second card's button (app-3.py line 183). That ends the run before the
  detail panel (line 188) and before the `time.sleep` and `st.rerun` of
  the auto-refresh (lines 223-224), so the page stops refreshing itself.
  The model assumes keys are distinct and always completes the run.
