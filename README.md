# Change detection for Grist documents

This project models the dagster sensor `check_for_updated_grist_tables`. On every
tick the sensor does the following:

- It reads its cursor, a JSON map from document name to the `updatedAt` text it last acted on.
- For each watched Grist document it fetches the document's metadata. It parses the
  fetched `updatedAt`, and the cursor's entry for the document, with
  `datetime.strptime(..., "%Y-%m-%dT%H:%M:%S.%fZ")`. A document with no entry
  counts as last run at 1970-01-01.
- When the fetched time is strictly later, it writes the fetched text into a new
  cursor. It then appends one `RunRequest` per watched asset, with run key `name|updatedAt`.
- Otherwise it copies the old entry into the new cursor.
- When the new cursor equals the old one, it returns a `SkipReason`. Otherwise it
  persists the new cursor and returns the run requests.

Modules:

- `Wrappers` (wrappers.dfy): `Option` and `Result`.
- `Timestamps` (timestamps.dfy): naive date-times, their order, and a model of
  `strptime` for the sensor's format. The model matches the format directive by directive.
  - %Y takes exactly four digits.
  - %m, %d, %H, %M and %S take one or two digits, within strptime's ranges.
  - %f takes one to six digits, read as a fraction of a second.
  - `T` and `Z` match regardless of case.
  - After matching, the fields are checked the way `datetime` checks them: no year 0,
    no day past the month's end, and no second 60 or 61.
  - `Format` is the full-width rendering. `ParseFormat` proves that parsing it gives the date-time back.
- `Sensor` (sensor.dfy): holds the tick in three layers.
  - A specification: the per-document decision `Decide`, the fold `Scan` over the
    documents, and the outcome `Evaluate`.
  - The lemmas that describe the outcome.
  - The imperative sensor: `Tick` with its loop, `Compare`, the inner loop
    `AppendRequests`, and the `SensorContext` class whose cursor
    `CheckForUpdatedGristTables` updates in place. Each method is proved equal to the specification.
- `Scenarios` (scenarios.dfy): single-document ticks, including the configured
  "Cashflow Assumption" document.

How the model treats the sensor's inputs and effects:

- The list of documents is a parameter. `Sensor.GristDocs` is the configured list.
- The fetch is an input: `fetched[i]` is what fetching `docs[i]` gave.
- The cursor is the decoded map.
- A Python exception that ends the tick is `Outcome.Failed` with the first exception raised.

Behaviour of the code, as the model states it:

- **Stale cursor entries.** An old cursor entry for a name that is no longer watched is
  dropped. Such a tick does not skip: it persists the smaller cursor and returns an
  empty list of requests (`Sensor.StaleEntriesForceEmptyRequests`). With distinct
  document names, a tick therefore skips exactly when nothing raised, nothing
  changed and no stale entry was held (`Sensor.SkipExactly`).
- **Only watched entries are kept.** Entries of other watched documents keep their
  old values. Entries of unwatched names do not survive.
- **A document with no entry.** If its fetched time is not after 1970-01-01, the tick
  raises `KeyError` (`Sensor.DecideErrors`).
- **Lenient parsing.** The parser accepts more than the full-width form. For example,
  `2024-1-1T0:0:0.5z` parses. The comparison is between naive date-times: `Z` is
  matched as a letter, not read as a time zone.
- **Shared run key.** All requests for one changed document share one run key, see
  `Sensor.RequestsForAt`. The configured document watches a single asset, so only
  one request carries that key today. A document with several assets would send
  several requests under the same key.
- **Repeated document names.** The last document with a name decides that name's
  entry. Every document is compared against the old cursor. So a tick can skip
  although a document changed, and that document's requests are dropped. For
  example, take [A, A] where the first fetches a later text and the second the old
  one (`Scenarios.RepeatedNameSkipsOverChange`). Rerunning a tick on the cursor it
  persisted still skips (`Sensor.Idempotent`).

## Model

| member | source | states |
|---|---|---|
| Timestamps.DaysInMonth | dagster_pipelines/assets.py:120-122 | Every month has 28 to 31 days, and a month has 29 exactly when it is February of a leap year. This is the day bound `datetime` enforces on a parsed text. |
| Timestamps.BeforeIsStrictTotalOrder | dagster_pipelines/assets.py:122 | The `>` on parsed date-times is a strict total order: irreflexive, transitive, asymmetric, and any two distinct times are comparable. |
| Timestamps.Match | dagster_pipelines/assets.py:120-122 | A text that matches the format yields exactly one value per digit directive. |
| Timestamps.Parse | dagster_pipelines/assets.py:120-122 | Whatever strptime accepts is a valid date-time. The year is at least 1, the month 1-12, the day within the month, the hour below 24, the minute and second below 60, and the microsecond below 10^6. |
| Timestamps.PatternShape | dagster_pipelines/assets.py:120 | The sensor's format has seven digit directives, one per `datetime` field. |
| Timestamps.DecimalValueOfPad | dagster_pipelines/assets.py:120-122 | A number below 10^w, written in w digits, reads back as itself. |
| Timestamps.DigitRunOfDigitsThen | dagster_pipelines/assets.py:120-122 | A digit directive in front of a non-digit consumes exactly the digits before it. |
| Timestamps.MatchDigits | dagster_pipelines/assets.py:120-122 | A digit directive facing a run of digits matches exactly when the run's width and value suit it. The run then yields its value: a %f run is scaled to microseconds. Matching goes on with the rest of the text. |
| Timestamps.MatchPadded | dagster_pipelines/assets.py:120-122 | A value in range, written at its directive's full width, is read back as that value. |
| Timestamps.MatchLiteral | dagster_pipelines/assets.py:120-122 | A literal of the format matches a character exactly when the two are equal ignoring ASCII case. Otherwise the whole text is rejected. |
| Timestamps.MatchRender | dagster_pipelines/assets.py:120-122 | For a format whose digit directives are each followed by a non-digit literal, matching its full-width rendering of fitting values gives those values back. |
| Timestamps.FieldsFit | dagster_pipelines/assets.py:120-122 | The fields of a valid date-time fit the ranges and widths of the sensor's format. |
| Timestamps.ParseFormat | dagster_pipelines/assets.py:120-122 | Parsing the full-width text of any valid date-time gives that date-time back, so every time the sensor can record has a text it reads back unchanged. |
| Sensor.RunKeyDeterminism | dagster_pipelines/assets.py:129 | For one document, two run keys are equal exactly when the two fetched texts are equal. The same new time always gives the same key, and different texts give different keys. |
| Sensor.RequestsFor | dagster_pipelines/assets.py:126-132 | A changed document contributes exactly one request per watched asset. |
| Sensor.RequestsForAt | dagster_pipelines/assets.py:126-132 | The k-th request of a changed document selects only its k-th watched asset, under the run key of the document's name and fetched text. |
| Sensor.Decide | dagster_pipelines/assets.py:116-134 | One document's step succeeds exactly when all of the following hold: the fetch gave a text, the cursor entry (if any) parses, the fetched text parses, and the document has an entry or its time is after the epoch. In that case: the document counts as updated exactly when the fetched time is strictly after its last run time; an updated document's entry is the fetched text; an unchanged document's entry is its old one; and the entry it writes always parses. A failed fetch yields `FetchError`. A fetched `updatedAt` that is not a string yields `TypeError` once the cursor entry has parsed. |
| Sensor.DecideErrors | dagster_pipelines/assets.py:116-134 | The exception a step raises is, in Python's order: the fetch failure; then `ValueError` on an unparseable cursor entry, even when the fetched `updatedAt` is not a string; then `ValueError` on an unparseable fetched text; then `KeyError` for an unchanged document with no entry. |
| Sensor.DecideReadsOwnEntry | dagster_pipelines/assets.py:120-134 | A document's step depends on the cursor only through that document's own entry. |
| Sensor.DecideAgain | dagster_pipelines/assets.py:120-134 | Against a cursor that holds the entry a step wrote, the same fetched text raises nothing, finds the document unchanged and writes the same entry. |
| Sensor.NotUpdatedAgainstOwnText | dagster_pipelines/assets.py:122 | A document compared against its own fetched text is never found changed. |
| Sensor.ScanSucceeds | dagster_pipelines/assets.py:115-134 | The loop passes the first n documents without raising exactly when none of their steps raises. |
| Sensor.ScanFirstError | dagster_pipelines/assets.py:115-134 | A loop that raised, raised the exception of the first step that raises, and every step before it succeeded. |
| Sensor.ScanStops | dagster_pipelines/assets.py:115-134 | Once the loop has raised, later documents do not change the exception. |
| Sensor.ScanKeys | dagster_pipelines/assets.py:112-134 | The keys of the new cursor are exactly the names of the documents visited. |
| Sensor.ScanEntry | dagster_pipelines/assets.py:123-134 | Under each name, the new cursor holds the entry written by the last document with that name. |
| Sensor.ScanRuns | dagster_pipelines/assets.py:113-132 | The requests collected are each document's contribution, in document order. |
| Sensor.RequestOrigin | dagster_pipelines/assets.py:122-132 | Every collected request comes from an earlier document that changed. It selects a single asset of that document, under that document's run key. |
| Sensor.ScanQuiet | dagster_pipelines/assets.py:112-134 | When no document changed, the loop collects no requests, and its cursor is the old cursor cut down to the visited names. |
| Sensor.QuietStep | dagster_pipelines/assets.py:133-134 | An unchanged document extends the cut-down old cursor by its own old entry and adds no request. |
| Sensor.RestrictAdd | dagster_pipelines/assets.py:134 | Cutting the old cursor down to one more name that it holds adds exactly that name's old entry. |
| Sensor.ScanStep | dagster_pipelines/assets.py:115-134 | A successful step writes its entry under the document's name and appends its contribution. |
| Sensor.FailsOnFirstError | dagster_pipelines/assets.py:115-134 | A tick fails exactly when some document's step raises. It then fails with the first such exception, so no cursor is persisted. |
| Sensor.RequestsShape | dagster_pipelines/assets.py:112-140 | A tick that returns requests persists a cursor that differs from the old one. Its keys are the documents' names. Under each name it holds the fetched text if the last document with that name changed, and the old entry otherwise. The requests are every document's contributions in document order. |
| Sensor.EveryRequestHasAChangedDoc | dagster_pipelines/assets.py:122-132 | Every returned request belongs to a document whose fetched time is strictly after its last run time. It selects a single watched asset of that document, and its run key is that document's name and fetched text. |
| Sensor.SkipExactly | dagster_pipelines/assets.py:136-137 | With distinct names, a tick skips exactly when nothing raised, no document changed and the old cursor holds no unwatched name. A skip always carries the message "Table not updated since last run". |
| Sensor.QuietSkips | dagster_pipelines/assets.py:133-137 | A tick in which nothing raised or changed and the old cursor holds no unwatched name skips. |
| Sensor.SkipIsQuiet | dagster_pipelines/assets.py:115-137 | With distinct names, a tick that skips raised nothing, found nothing changed and held no unwatched name. |
| Sensor.StaleEntriesForceEmptyRequests | dagster_pipelines/assets.py:112-140 | A tick that found nothing changed, but whose old cursor holds an unwatched name, does not skip. It persists the old cursor cut down to the watched names and returns no requests. |
| Sensor.Idempotent | dagster_pipelines/assets.py:120-137 | Take a tick that requested runs. Rerunning it on the cursor it persisted, with the same fetched texts, skips. This holds for any list of documents, repeated names included. |
| Sensor.LastOf | dagster_pipelines/assets.py:115-134 | Every document has a last document with its name, at or after it. |
| Sensor.Revisit | dagster_pipelines/assets.py:116-134 | Against the cursor a successful tick persisted, with the same fetched texts, no document raises. |
| Sensor.Reread | dagster_pipelines/assets.py:120-134 | Against the cursor a successful tick persisted, the last document with each name reads back its own entry and finds itself unchanged. |
| Sensor.LastEntriesRebuild | dagster_pipelines/assets.py:112-136 | A loop in which nothing raises, and in which the last document with each name writes that name's entry of a cursor holding exactly the documents' names, ends with that cursor. |
| Sensor.Tick | dagster_pipelines/assets.py:111-140 | The loop over the documents returns exactly the specified outcome of the tick. |
| Sensor.Visit | dagster_pipelines/assets.py:116-134 | One pass of the loop takes the loop's state after document i to its specified state after document i+1. |
| Sensor.Compare | dagster_pipelines/assets.py:116-134 | The imperative step for one document, with its early exits, computes the specified decision. |
| Sensor.AppendRequests | dagster_pipelines/assets.py:126-132 | The inner loop appends, after the requests so far, exactly the document's requests: one per watched asset, in order. |
| Sensor.SensorContext.constructor | dagster_pipelines/assets.py:111 | A sensor without a persisted cursor starts from the empty map. |
| Sensor.SensorContext.UpdateCursor | dagster_pipelines/assets.py:139 | Persisting replaces the cursor with the new one. |
| Sensor.CheckForUpdatedGristTables | dagster_pipelines/assets.py:105-140 | A tick against the context returns the specified outcome for the cursor it found. It persists the new cursor when it returns requests, and leaves the cursor as it was when it skips or raises. |
| Scenarios.ScanOne | dagster_pipelines/assets.py:115-134 | The loop over a single document yields that document's exception, or its entry and contribution. |
| Scenarios.SingleDoc | dagster_pipelines/assets.py:115-140 | A tick over one document is decided by that document's step alone. |
| Scenarios.FirstTick | dagster_pipelines/assets.py:111-140 | With an empty cursor, a document whose time is after the epoch gets all of its requests, and the cursor records the fetched text under its name. |
| Scenarios.SecondTick | dagster_pipelines/assets.py:120-137 | When the cursor already records the fetched text, the tick skips. |
| Scenarios.GristFirstTick | dagster_pipelines/assets.py:107-140 | For the configured "Cashflow Assumption" document with an empty cursor, the tick returns a single request for `test_cashflow_assumptions`, under the run key built from "Cashflow Assumption" and the fetched text. It records that text. |
| Scenarios.GristSecondTick | dagster_pipelines/assets.py:107-137 | For the configured document, the tick after that skips. |
| Scenarios.DecisionAt | dagster_pipelines/assets.py:115-122 | The tick's decision for document i is that document's step against the old cursor. |
| Scenarios.ScanTwo | dagster_pipelines/assets.py:115-134 | The loop over two documents that both succeed writes both entries in turn, the second last, and joins their requests in order. |
| Scenarios.EvaluateTwo | dagster_pipelines/assets.py:115-140 | A tick over two documents that both succeed is decided by their two decisions. |
| Scenarios.SkipOfTwo | dagster_pipelines/assets.py:115-137 | Take two documents of one name that both succeed. The tick skips when the old cursor holds only that name, with the entry the second writes. |
| Scenarios.LaterAndSame | dagster_pipelines/assets.py:120-134 | Against an entry, a text denoting a later time counts as a change that writes that text. The entry's own text counts as no change. |
| Scenarios.RepeatedNameSkipsOverChange | dagster_pipelines/assets.py:115-137 | Take a name listed twice, where the first document fetches a later text and the second the old one. The first document changes, yet the tick skips and its requests are dropped. |
| Scenarios.NewYearScenario | dagster_pipelines/assets.py:107-140 | Take midnight on 1 January 2024 at full width. From an empty cursor the tick returns one request and records the text. From that cursor the tick skips. |

## Left out

- The HackerNews assets and their configuration (dagster_pipelines/assets.py:24-60) and the `test_cashflow_assumptions` materialiser (dagster_pipelines/assets.py:65-96): they are not part of the sensor, which uses only the asset key (dagster_pipelines/assets.py:63).
- `get_grist_api_response` (dagster_pipelines/helpers.py:6-19), its retries on connect and read timeouts, backoff and HTTP status check: these are I/O. The fetch is an input, and every way it can raise becomes `FetchFailed`. This includes a body that is not a JSON object or has no `updatedAt` (line 118). An `updatedAt` that is not a string is `NotText`; strptime raises `TypeError` on it only at line 122.
- The URL built from `BASE_URL` and `doc_id` (dagster_pipelines/assets.py:106,116) is used only for the HTTP call; `docId` is carried but never read.
- JSON encoding and decoding of the cursor (dagster_pipelines/assets.py:111,139): the model works on the decoded map of strings. A cursor that is not a JSON object of strings is not modelled.
- The dagster machinery: the `@sensor` declaration (its 20-second interval and asset selection, dagster_pipelines/assets.py:101-104), run-key deduplication, the launching of runs, and the wiring in dagster_pipelines/definitions.py. This is behaviour of the framework.
- Python's exception types and messages: they are named by `TickError` constructors.
- Timestamps.Parse: it leaves out two inputs that strptime accepts. These are a day written as a space and one digit (" 5"), which strptime's %d allows and its %m does not, and non-ASCII decimal digits, which Python's regular expressions count as digits.
- The `|v| != 7` branch of Timestamps.Parse cannot be taken (Timestamps.PatternShape). It mirrors no source branch.
- Sensor.SkipExactly: stated only for documents with distinct names. With a repeated name, the last document's entry wins in the new cursor, while an earlier document with the same name may still have found itself changed (Scenarios.RepeatedNameSkipsOverChange).
- Sensor.SkipIsQuiet: stated only for documents with distinct names, for the same reason.
- Scenarios.NewYearScenario: states the text as `Format` of the date-time, not as the string literal.
