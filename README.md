# ops-observability-dashboard — verified model of the API core

This project models the request-metrics aggregator and the event log behind
the ops observability dashboard's API, together with the decision logic of
the event write endpoint, and proves properties of them in Dafny.

- `metrics.dfy` (module `Metrics`): `MetricsStore`, a class whose fields are
  the request and error totals, the per-status counters, the per-`"METHOD route"`
  bundles (count, errors, latency sum) and the keys of those bundles in first-seen
  order (the dictionary's iteration order). `Record` updates them in place and keeps
  the invariant `Consistent`:
  - the request total is the sum of the status counters and of the route counts;
  - the error total is the sum of the route error counts;
  - every route has had a request and has no more errors than requests.

  `Snapshot` builds the report in a loop. It proves that the route reports
  add back up to the totals, and that every average latency is `total/count`,
  or 0 for a route with no requests.
- `events_store.dfy` (module `Events`): `EventStore`, a class over the events
  table, held as a sequence of rows in insertion order.
  - `AddEvent` inserts one event under a given id and timestamp and echoes it.
    A taken id (the table's primary key) or a database that refuses the write
    is an error, and nothing is written.
  - `ListEvents` states the listing relationally. Every row returned passes the
    level and service filters. The rows are newest first and the count is the
    clamped limit or all the matches. No matching row left out is newer than one
    returned.
  - `Summary` counts rows per level and per service. Those counts sum to the
    table size, and each equals the number of rows the filter on that value
    selects before any limit is applied.
- `events_api.dfy` (module `EventsApi`):
  - the shared-token check: 503 when no server token is configured, 401 when
    the header is missing or differs;
  - body validation against the allowed levels and types and the length bounds,
    with defaults filled in;
  - the `meta` merge, where a caller's `"type"` wins over the body's type;
  - `PostEvent`, which checks the token, then the body, then the store;
  - `GetEvents`, the listing endpoint with its default limit of 50.
- `tally.dfy` (module `Tally`): sums over `map<string, nat>` counters, and the
  same sums taken along a key order.
- `text.dfy` (module `Text`): decimal rendering of integers (`str(int)`), the
  ordering of SQLite TEXT values, and splitting a string at its first space.
- `wrappers.dfy` (module `Wrappers`): `Option` and `Result`.

The clock, the random id and the request timestamp are parameters: `now` for
`time.time()`, and `id` and `ts` for `uuid4()` and the ISO-8601 timestamp.
Whether the database refuses a write is the parameter `dbFails`.
Latencies are whole milliseconds (`nat`).

## Model

| member | source | states |
|---|---|---|
| Metrics.MetricsStore.constructor | api/src/metrics.py:7-12 | the new store has zero totals, no status counters, no routes, keeps `now` as its start time, and satisfies the invariant |
| Metrics.MetricsStore.Record | api/src/metrics.py:14-26 | the new state is `RecordInto` of the old one, the start time is unchanged, and the invariant (totals equal the sums of the status and route counters, errors never exceed count) is kept |
| Metrics.RecordEffect | api/src/metrics.py:14-26 | the request total goes up by exactly 1. The error total and the route's errors go up by 1 iff status >= 400. The counter of `str(status)` goes up by 1 and no other counter changes. The route's count goes up by 1 and its latency sum by the latency. Every other route bundle is unchanged |
| Metrics.StatusCountersSeparate | api/src/metrics.py:18 | recording one status code never changes the counter of a different code, because distinct codes give distinct keys |
| Metrics.InitialConsistent | api/src/metrics.py:8-12 | the empty store satisfies the invariant |
| Metrics.RecordedTotals | api/src/metrics.py:17-26 | bumping one route bundle raises the sum of route counts by 1, and the sum of route errors by 1 exactly for an error |
| Metrics.RecordedShape | api/src/metrics.py:15-26 | after recording, the key order still lists each route key once; every key still splits at a space, has count >= 1 and errors <= count |
| Metrics.RecordKeepsConsistent | api/src/metrics.py:14-26 | recording under a key that contains a space preserves the whole invariant |
| Metrics.ErrorsAtMostRequests | api/src/metrics.py:24-26 | when every route has errors <= count, the total errors are at most the total requests |
| Metrics.TruncToInt | api/src/metrics.py:29 | `int(x)` truncates toward zero: the result is within 1 of x, on x's side of zero |
| Metrics.Report | api/src/metrics.py:32-39 | the key splits back into method and route with the method before the first space. Count and errors are copied. The average is 0.0 for count 0, otherwise average × count = latency sum (no division by zero) |
| Metrics.ReportRoundTrip | api/src/metrics.py:33 | splitting `method + " " + route` gives back the method and route whenever the method has no space |
| Metrics.ReportTotals | api/src/metrics.py:31-41 | the counts and errors of the reports built along a key order add up to the route sums along that order |
| Metrics.MetricsStore.Snapshot | api/src/metrics.py:28-50 | the snapshot carries the service name, `int(now - start)` as uptime, and the current totals and status counters. It has one report per route, in first-seen order, and the reports' counts and errors sum to the totals |
| Tally.SumAlongIsMapSum | api/src/metrics.py:32 | summing the counters along an order that lists each key once gives the order-independent total |
| Text.NatToDecimal | api/src/metrics.py:18 | the rendering is non-empty, all digits, without a leading zero, and a single digit exactly for n < 10 |
| Text.NatToDecimalValue | api/src/metrics.py:18 | the digits of the rendering of n read back as n |
| Text.IntToDecimal | api/src/metrics.py:18 | `str(n)` starts with '-' exactly for negative n; it is the rendering of n for n >= 0 and '-' followed by the rendering of -n otherwise |
| Text.IntToDecimalValue | api/src/metrics.py:18 | the digits of `str(n)` read back as n, or as -n after the '-' of a negative n |
| Text.IntToDecimalInjective | api/src/metrics.py:18 | distinct status codes render as distinct strings |
| Text.SplitAtFirstSpace | api/src/metrics.py:33 | `split(" ", 1)` gives a head and a tail that rejoin with one space to the input, and the head contains no space |
| Text.SplitJoin | api/src/metrics.py:33 | splitting `head + " " + tail` at its first space gives back `head` and `tail` when `head` has no space |
| Text.TextLeTotal | api/src/events_store.py:97 | any two timestamps are comparable in TEXT order |
| Text.TextLeTransitive | api/src/events_store.py:97 | TEXT order is transitive |
| Text.TextLeAntisymmetric | api/src/events_store.py:97 | two timestamps each at most the other are equal |
| Events.EventStore.constructor | api/src/events_store.py:16-42 | the store opens over the table's existing rows, whose ids are distinct |
| Events.EventStore.AddEvent | api/src/events_store.py:44-71 | a database failure or a taken id gives an error with the table unchanged. Otherwise the table grows by exactly the returned event at its end, which echoes id, ts, level, service and message, with `meta` or `{}`. Ids stay distinct |
| Events.MetaOrEmpty | api/src/events_store.py:70 | a missing meta is stored and returned as the empty object, a given one unchanged |
| Events.ClampLimit | api/src/events_store.py:79 | the effective limit is `max(1, min(limit, 500))`, so always within 1..500 |
| Events.Select | api/src/events_store.py:84-96 | each row occurs in the filtered rows as often as in the table if it passes the non-empty filters, and not at all otherwise |
| Events.SelectSound | api/src/events_store.py:84-91 | the filtered rows are drawn from the table and all pass the filters |
| Events.SortNewestFirst | api/src/events_store.py:97 | the sorted rows are a permutation of the input |
| Events.InsertKeepsOrder | api/src/events_store.py:97 | inserting a row into a newest-first sequence keeps it newest first |
| Events.SortedNewestFirst | api/src/events_store.py:97 | the sorted rows are in non-increasing timestamp order |
| Events.NoneSkipped | api/src/events_store.py:97-100 | a row of a newest-first sequence that is not among its first n rows is no newer than any of them |
| Events.TakeMatching | api/src/events_store.py:84-100 | the first n rows of a reordering of the filtered rows pass the filters and are drawn from the table at most once each |
| Events.TakeOrdered | api/src/events_store.py:97-100 | cutting a newest-first sequence to n rows keeps it newest first |
| Events.TakeSkipsOlder | api/src/events_store.py:97-100 | a matching row left out of the first n rows of the newest-first matches is no newer than any row kept |
| Events.EventStore.ListEvents | api/src/events_store.py:73-117 | the listing has min(clamped limit, number of matches) rows. Each row is a table row passing the level and service filters, taken at most once. Rows are newest first, and no matching row left out is newer than one listed |
| Events.GroupCount | api/src/events_store.py:121-130 | the grouped count has exactly the values that occur, each mapped to its number of occurrences |
| Events.GroupCountTotal | api/src/events_store.py:121-130 | the group counts sum to the number of rows |
| Events.EventStore.Summary | api/src/events_store.py:119-131 | `by_level` has an entry exactly for each level present, holding the number of events with that level; likewise `by_service` |
| Events.SummaryTotals | api/src/events_store.py:119-131 | the `by_level` counts, and likewise the `by_service` counts, sum to the number of events |
| Events.CountIsFilterSize | api/src/events_store.py:84-91 | the number of rows whose level (or service) is a non-empty value equals the number of rows the filter on that value selects |
| Events.SummaryAgreesWithFilter | api/src/events_store.py:119-131 | the summary's count for a non-empty level or service, or 0 when absent, equals the number of rows the filter on it selects before any limit |
| EventsApi.RequireToken | api/src/events_api.py:33-39 | no configured token (unset or empty) gives 503 whatever the header. Otherwise access is granted iff the header equals the token, and the answer is 401 iff it is missing or differs |
| EventsApi.MissingTokenRefused | api/tests/test_events.py:22-35 | with a token configured, a post without the header is refused with 401 |
| EventsApi.Validate | api/src/events_api.py:16-21 | a body is accepted iff level is in {INFO, WARN, ERROR} or absent, type is in {AUDIT, OPS, SECURITY, DEPLOY} or absent, service is absent or 1..80 characters, and message is present with 1..1000 characters. Defaults are INFO, OPS, "api" and `{}`. A rejection names exactly the offending fields |
| EventsApi.MergeMeta | api/src/events_api.py:55-56 | the merged meta always has "type". It keeps the caller's value when given, otherwise holds the body's type, and every other key is unchanged |
| EventsApi.MergeMetaIdempotent | api/src/events_api.py:56 | merging again with any type changes nothing: `setdefault` never overwrites |
| EventsApi.PostEvent | api/src/events_api.py:52-64 | a refused token is answered before the body is looked at. An invalid body gets 422, and a store failure (database error or taken id) 500, all with the table unchanged. Otherwise the created event echoes the validated body with the merged meta and is appended to the table |
| EventsApi.GetEvents | api/src/events_api.py:42-44 | without a `limit` query the listing has min(50, number of matches) rows; with one, at most its clamped value. The rows pass the filters and are newest first |
| EventsApi.CreatedEchoesBody | api/src/events_api.py:55-63 | the created event's level, service and message are the body's (or their defaults), and its meta "type" is the caller's or the body's type |
| EventsApi.AuditEventAccepted | api/tests/test_events.py:38-57 | the test's WARN/AUDIT body is accepted with a valid token, and is stored with level WARN, service "api" and meta `{request_id: "abc123", type: "AUDIT"}` |

## Left out

- Metrics.Report: the average latency is the exact quotient; the Python rounds it to two decimals with `round(avg_ms, 2)`, a floating-point operation that is not modelled.
- Latencies and the clock are floats in the source: latencies are whole milliseconds (`nat`) here and the clock is a `real` parameter, so float rounding of the latency sum is not modelled.
- `time.time()`, `uuid4()` and `datetime.now(timezone.utc).isoformat()` are parameters (`now`, `id`, `ts`); a duplicate id is modelled through the primary key's refusal rather than assumed away.
- The HTTP middleware that calls `record` (api/src/main.py) is not part of this model; it passes the raw request path, not the route template, so `route` is any string here. The `/` and `/health` endpoints return constants and are left out.
- The GET endpoint `get_events_summary` only forwards to `summary` and has no logic of its own.
- Database failures while reading: a failing query in `list_events` or `summary` ends the request with a 500; `ListEvents` and `Summary` always answer. Write failures are modelled (`dbFails`).
- SQLite, the filesystem and JSON encoding: connections, `os.makedirs`, `CREATE TABLE/INDEX`, and the `json.dumps`/`json.loads` round trip of `meta_json`, which is taken to return the stored object unchanged.
- Events.EventStore.ListEvents: SQLite returns rows with equal timestamps in an unspecified order; the contract holds for any such order, while the body fixes one.
- The key order of the dictionaries returned by `summary` and `snapshot`'s `by_status` is not modelled (they are maps); `snapshot`'s route list keeps its order.
- Request-body parsing before validation: undecodable JSON, explicit `null` values, non-string values, extra fields and the wording of the 422 error body are not modelled; a body is the optional string fields plus an optional meta object.
- Concurrency: the stores take no locks, so interleaved requests are not modelled.
- The React UI and the test harness (client setup, module reloading) have no logic to model.
