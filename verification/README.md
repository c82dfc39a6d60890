# Chart-export worker: decision logic in Dafny

This project models the decision logic of the chart-export worker. The worker
claims a `CHART_EXPORT` step of a flow run and builds Chart-IMG requests from
stored templates. It fetches the PNGs over a pool of quota-limited accounts,
uploads them to a bucket, writes a manifest and finalizes the step.

The I/O clients are replaced by explicit inputs:

- a document-store snapshot;
- a write outcome, `Written | Conflict | OtherError`;
- an HTTP response whose body is already decoded;
- an upload that either succeeds or raises a named exception;
- for the retry loops, oracles indexed by attempt number (`nat -> ...`).

Everything is a pure function over immutable datatypes.

Modules, one per source file:

- `ChartImg` (`chart_img.dfy`)
  - Response classification: `_handle_http_response`, `_is_limit_exceeded`, `_extract_error_message`, `_error_details`, `_parse_json_body`.
  - The retry loop `fetch_with_retries`, as recursion over the attempt budget. A run records every fetch, every account marked exhausted, and every sleep (as the exponent `k` in `base * 2^k`).
- `ChartImgFixtures` (`chart_img_fixtures.dfy`)
  - The fixture-name helpers: `_fixture_stem`, `_slugify_error`, `_parse_status_from_filename`.
  - The error file name `_record_fixture` chooses, and the payload it stores.
  - The classification branch of `_load_error_fixture`.
- `Usage` (`usage.dfy`)
  - The per-account daily quota allocator: window reset, limit resolution, the three-attempt claim loop, the ordered scan over the pool and `mark_account_exhausted`.
  - An uncontended store (`map<accountId, doc>`) on which claims and marks are replayed.
- `Orchestration` and `Firestore`
  - The step state machine `claim_step_transaction` / `finalize_step` and its field-scoped update builders.
  - Applying a dotted-key update to a nested document, with the semantics of the fake store in `tests/tasks/T-004/test_orchestration.py`.
- `Ingest`
  - The event filter, document-path and run-id extraction, and `parse_flow_run_event`.
  - The recursive Firestore typed-value decoder, with an encoder as its partner.
  - The deterministic ready-step pick (a `method` with a loop).
- `Templates`: request-list validation, template parsing, `{symbol}` rendering, and per-request accounting in `build_chart_requests`.
- `GcsArtifacts`: bucket parsing, object paths and `gs://` URIs, the upload item/failure split, the manifest shape and `write_manifest`.
- `Config`: bucket normalisation, the `CHARTS_API_MODE` check, and the account-list validation of `_parse_accounts_json` from the decoded value onward.
- Shared modules:
  - `Outcomes`: the item/failure split of a sequence of outcomes, with input order.
  - `Strings`: the ASCII behaviour of the Python `str` methods the code uses.
  - `Json`: the decoded JSON value with Python-style `get`, truthiness and `isinstance(x, int)` (a `bool` counts as an `int`).
  - `Wrappers`: `Option` and `Result`.

Where the code and its own tests disagree, the model follows the code:

- `tests/tasks/T-023/test_orchestration_claim.py:63-83` expects a claim whose commit fails with a precondition error to come back unclaimed with `reason="precondition_failed"`. `claim_step_transaction` has no such branch: it re-raises whatever the transaction raises (`worker_chart_export/orchestration.py:117-131`). The model returns `Err(CommitRejected(..))` for every commit that does not go through, and `finalize_step` is modelled the same way: whatever the step's status, a rejected commit gives `Err(CommitRejected(..))` (`orchestration.py:83-100`, `178`).

## Model

| member | source | states |
|---|---|---|
| ChartImg.ParseJsonBody | worker_chart_export/chart_img.py:321-327 | an empty body, or one that fails to decode, reads as no body (`None`) |
| ChartImg.ErrorsEntries | worker_chart_export/chart_img.py:339-347 | each usable `errors[]` entry gives at most one message, and every message kept is non-empty and already stripped |
| ChartImg.ExtractErrorMessage | worker_chart_export/chart_img.py:330-352 | a message is never blank and never has surrounding whitespace; for an object a usable `message` wins, then a usable `error`, and with neither, an `errors` that is not a list yields None; a string body yields itself stripped; any other body yields None |
| ChartImg.ErrorsArrayIsLastResortForObjects | worker_chart_export/chart_img.py:335-349 | when neither `message` nor `error` is usable, the message is the usable `errors[]` entries joined by "; ", or None when there are none |
| ChartImg.Status429IsLimitExceeded | worker_chart_export/chart_img.py:313-315 | status 429 is a quota answer whatever the message |
| ChartImg.LimitExceededIgnoresCase | worker_chart_export/chart_img.py:316-318 | upper-casing or lower-casing the message never changes the limit-exceeded verdict |
| ChartImg.ErrorDetails | worker_chart_export/chart_img.py:301-310 | details always name the template and the symbol, and hold the body under `response` exactly when there is a body |
| ChartImg.ClassifyErrorBody | worker_chart_export/chart_img.py:278-298 | LIMIT_EXCEEDED exactly when a status is known and limit-exceeded, and then retriable; otherwise CHART_API_FAILED, retriable exactly for 500 and 504; the extracted message is kept; the message is never empty |
| ChartImg.HandleHttpResponse | worker_chart_export/chart_img.py:254-298 | ok exactly for status 200 with a PNG signature, returning the body as the PNG; any other 200 is a non-retriable CHART_API_FAILED carrying the content type; any other status is classified from its parsed body |
| ChartImg.HandleHttpResponseFollowsTaxonomy | worker_chart_export/chart_img.py:264-298 | every response falls in one of four classes (PNG, quota, transient, permanent), following the documented table of status and message |
| ChartImg.UnlistedStatusesArePermanent | worker_chart_export/chart_img.py:290-298 | a status outside 200, 429, 500 and 504, without a quota message, is a non-retriable failure, so the unused NON_RETRIABLE_STATUSES set decides nothing |
| ChartImg.FetchLoop | worker_chart_export/chart_img.py:212-239 | the loop never fetches more often than the budget left, and the k-th fetch uses the k-th selected account and gets that fetch's answer |
| ChartImg.FetchLoopContinuesOnlyOnQuotaOrRetry | worker_chart_export/chart_img.py:224-237 | every fetch but the last answered with a quota error or a retriable error |
| ChartImg.FetchLoopMarksQuotaAccounts | worker_chart_export/chart_img.py:231-234 | the accounts marked exhausted are exactly those whose fetch hit the quota, in call order, and none when no callback is given |
| ChartImg.FetchLoopSleepsOnRetries | worker_chart_export/chart_img.py:236-239 | there is one sleep per retriable failure that still has budget after it, with exponent equal to that call's index; quota answers never sleep |
| ChartImg.FetchLoopResult | worker_chart_export/chart_img.py:212-251 | the run ends with the last call's own result when that result stops the loop; otherwise with the no-account error when no account was found; otherwise, once the budget is spent, with the last error seen, or the generic error when there was none |
| ChartImg.FetchWithRetries | worker_chart_export/chart_img.py:199-251 | with callbacks that return normally: at most `max_attempts` fetches, each with the account selected for it; a success is the last fetch's result; marks, sleeps and the ending are as stated by the three lemmas above |
| ChartImg.RetrySleepsBounded | worker_chart_export/chart_img.py:236-239 | sleep exponents strictly increase, and each one is below `max_attempts - 1` |
| ChartImg.NoAccountEndsLoop | worker_chart_export/chart_img.py:213-220 | with no account available, the loop makes no fetch, no sleep and no mark, and returns a non-retriable LIMIT_EXCEEDED |
| ChartImg.PermanentFailureReturnsAtOnce | worker_chart_export/chart_img.py:236-237 | a permanent failure is returned after one fetch, with no sleep and no mark |
| ChartImg.QuotaRotatesToNextAccount | worker_chart_export/chart_img.py:231-234 | after a quota answer from A and a PNG from B, B's PNG is returned, only A is marked, and nothing sleeps |
| ChartImg.AlwaysRetriableUsesWholeBudget | worker_chart_export/chart_img.py:212-242 | an always-retriable fetch makes exactly `max_attempts` calls with sleeps 0, 1, ..., `max_attempts - 2`, and returns the last failure |
| ChartImg.FetchLoopRaising | worker_chart_export/chart_img.py:212-244 | with callbacks that may raise, the k-th completed fetch still used the k-th selection, and no more fetches are made than the budget allows |
| ChartImg.FetchLoopRaisingEnds | worker_chart_export/chart_img.py:212-251 | every fetch but the last went on; the run ends with the last result when it stops the loop, with the exception of `mark_account_exhausted` when that raised, with the exception of the next `select_account` or of the fetch it leads to, with the no-account error, or, the budget spent, with the last error; nothing is fetched, marked or slept after an exception |
| ChartImg.FetchLoopRaisingMarksAndSleeps | worker_chart_export/chart_img.py:229-242 | an exception does not change which accounts are marked or how long the loop slept before it |
| ChartImg.FetchLoopRaisingWithoutRaises | worker_chart_export/chart_img.py:212-251 | callbacks that never raise give exactly the run of the loop without exceptions |
| ChartImg.FetchWithRetriesRaising | worker_chart_export/chart_img.py:199-251 | `fetch_with_retries` when callbacks may raise: the calls, marks and sleeps made before leaving, and the ending, as stated above |
| ChartImg.FetchWithRetriesRaisingWithoutRaises | worker_chart_export/chart_img.py:199-251 | with callbacks that never raise, the result, calls, marks and sleeps are those of `FetchWithRetries` |
| ChartImg.SelectionRaiseEndsLoop | worker_chart_export/chart_img.py:212-213 | an exception from the first `select_account` leaves with no fetch, mark or sleep |
| ChartImgFixtures.FixtureStem | worker_chart_export/chart_img.py:359-361 | the stem opens with the symbol (every ':' turned into '_') and ends with `__<timeframe>__<templateId>` |
| ChartImgFixtures.ReplaceColonRemovesColons | worker_chart_export/chart_img.py:360 | the rewritten symbol holds no ':' and has the original length |
| ChartImgFixtures.FixtureStemSymbolPart | worker_chart_export/chart_img.py:359-361 | the first `|symbol|` characters of the stem hold no ':' and are followed by `__` |
| ChartImgFixtures.SlugChars | worker_chart_export/chart_img.py:526-535 | the loop emits only `[A-Z0-9_]`, never two underscores in a row, and no leading underscore right after a separator |
| ChartImgFixtures.TrimUnderscores | worker_chart_export/chart_img.py:536 | `strip('_')` keeps slug characters and single underscores, leaves no underscore at either end, and empties an all-underscore text |
| ChartImgFixtures.SlugifyError | worker_chart_export/chart_img.py:525-537 | the slug is never empty, uses only upper-case letters, digits and single underscores, and has no underscore at either end |
| ChartImgFixtures.SlugifyWithoutAlnumIsError | worker_chart_export/chart_img.py:536-537 | a message with no letters or digits slugs to `ERROR` |
| ChartImgFixtures.SlugCharsWord | worker_chart_export/chart_img.py:527-531 | a run of letters and digits is copied upper-cased and clears the separator flag |
| ChartImgFixtures.SlugCharsSeparator | worker_chart_export/chart_img.py:527-534 | a run of other characters adds one `_`, or none when the previous character was already a separator |
| ChartImgFixtures.SlugifyWords | worker_chart_export/chart_img.py:525-537 | words separated, and possibly preceded and followed, by runs of other characters slug to the upper-cased words joined by single `_` |
| ChartImgFixtures.ParseStatusFromFilename | worker_chart_export/chart_img.py:473-492 | a status read from a name is never negative, and a name without `__` yields none |
| ChartImgFixtures.ErrorFixtureName | worker_chart_export/chart_img.py:513-516 | the recorded name is `<stem>__...json` |
| ChartImgFixtures.LastSeparatorAfterStem | worker_chart_export/chart_img.py:474 | when nothing after the stem's `__` holds another `__`, `rsplit("__", 1)` splits right after the stem |
| ChartImgFixtures.ParseStatusOfRecordedName | worker_chart_export/chart_img.py:473-492 | parsing `<stem>__<code>_<slug>.json` yields the leading digits of the code, or none for a negative code |
| ChartImgFixtures.ErrorFixtureNameRoundTrip | worker_chart_export/chart_img.py:473-516 | reading the status back from a recorded error's file name gives `http_status or 0` whenever that is non-negative |
| ChartImgFixtures.PayloadStatus | worker_chart_export/chart_img.py:438-446 | a payload states a status only when it is an object with both `status` and `body` |
| ChartImgFixtures.LoadErrorFixture | worker_chart_export/chart_img.py:427-470 | a fixture result is a failed, fixture-flagged result carrying its path; its error is the shared classification of the wrapped body (or the whole payload), with the payload's own status taking precedence over the file name's |
| ChartImgFixtures.StatuslessFixtureIsPermanent | worker_chart_export/chart_img.py:448-470 | a fixture with no status anywhere is never a quota error and never retriable |
| ChartImgFixtures.RecordedPayload | worker_chart_export/chart_img.py:518-521 | the stored error payload has exactly the keys `status` and `body` |
| ChartImgFixtures.ReplayReproducesHttpError | worker_chart_export/chart_img.py:427-522 | replaying a recorded HTTP error gives back exactly the error that was recorded, whatever the file is called |
| Usage.ResetWindow | worker_chart_export/usage.py:199-210 | a window that is missing, unparseable or from another day restarts at zero today; today's window keeps its start and its usage, with the usage coerced to 0 unless it is a non-negative int |
| Usage.StaleWindowCountsNothing | worker_chart_export/usage.py:204-208 | a window stamped on another day counts nothing and restarts at today's start |
| Usage.MalformedUsageReadsAsZero | worker_chart_export/usage.py:201-202 | within today's window, a usage that is not a non-negative int reads as 0 |
| Usage.ResolveDailyLimit | worker_chart_export/usage.py:192-196 | a positive int limit in the document wins; a non-positive result can only be the account's own limit; with no account limit (or 0) the result is positive |
| Usage.LimitFallbackOrder | worker_chart_export/usage.py:192-196 | without a usable document limit, the account's non-zero limit is used, and otherwise the default |
| Usage.ClaimLoop | worker_chart_export/usage.py:137-189 | at most three writes, numbered by attempt; a claimed usage belongs to the account and never exceeds its daily limit |
| Usage.ClaimLoopRespectsLimit | worker_chart_export/usage.py:143-174 | every write sets the window its attempt computed and creates the document exactly when it was missing; it claims one unit only below the limit, and at or over the limit it stores the usage unchanged |
| Usage.ClaimLoopEnds | worker_chart_export/usage.py:137-189 | writes before the last all lost a race; a claim is the last write committing, with usage one over what that attempt read and that attempt's limit and window; a failure is the last write failing with that error; contention means all three attempts lost their races |
| Usage.TryClaim | worker_chart_export/usage.py:128-189 | the claim loop from the first attempt: at most three writes, all respecting the limit, ending as reported above |
| Usage.ExhaustedReadNeverIncrements | worker_chart_export/usage.py:146-163 | at or over the limit the claim reports exhaustion, makes at most one write, and that write keeps the stored usage |
| Usage.ContentionAfterThreeConflicts | worker_chart_export/usage.py:181-189 | three lost races below the limit raise contention after exactly three writes |
| Usage.ApplyWrite | worker_chart_export/usage.py:251-272 | a usage write touches no other account's document |
| Usage.ClaimOnStore | worker_chart_export/usage.py:128-189 | an uncontended claim leaves every other account's document unchanged |
| Usage.ClaimOnStoreCounts | worker_chart_export/usage.py:143-180 | with no contention, a claim below the limit adds exactly one to the counted usage and returns it; at or over the limit it reports exhaustion and the count stays put; the limit never moves |
| Usage.RepeatedClaimsStopAtLimit | worker_chart_export/usage.py:143-180 | after any number of same-day claims the counted usage is the starting usage climbed one by one and capped at the limit, so claims never push it past the limit |
| Usage.SelectFromAsSpecified | worker_chart_export/usage.py:43-66 | the scan stops at the first account whose claim settles; the exhausted list names, in pool order, exactly the earlier accounts found exhausted; contention is skipped without being listed; with no success the result has no account and no usage |
| Usage.SelectAccount | worker_chart_export/usage.py:32-66 | `select_account_for_request` scans the pool in that specified way |
| Usage.SelectedAccountWithinLimit | worker_chart_export/usage.py:32-66 | a selected account belongs to the pool, and its claimed usage belongs to it and stays within its limit |
| Usage.MarkLoop | worker_chart_export/usage.py:80-119 | every attempt writes usage = the resolved limit on the current window; the result reports usage equal to the limit, even when the conflict retries run out; any other write error propagates |
| Usage.MarkExhausted | worker_chart_export/usage.py:69-125 | marking reports usage equal to the daily limit, and succeeds whenever no write fails for a reason other than a conflict |
| Usage.MarkOnStoreReachesLimit | worker_chart_export/usage.py:80-102 | uncontended, one write leaves the counted usage at the resolved limit |
| Firestore.SetPath | tests/tasks/T-004/test_orchestration.py:76-84 | setting a dotted path changes only the top-level key it starts with |
| Firestore.SetPathThenLookup | tests/tasks/T-004/test_orchestration.py:76-84 | a path reads back the value just set, whatever stood on the way |
| Firestore.SetPathKeepsDiverging | tests/tasks/T-004/test_orchestration.py:76-84 | setting a path leaves every path that parts ways with it as it was |
| Firestore.ApplyUpdateKeeps | tests/tasks/T-004/test_orchestration.py:74-84 | an update none of whose keys meets a path leaves that path alone |
| Firestore.ApplyUpdateSets | tests/tasks/T-004/test_orchestration.py:74-84 | when an update's paths part ways pairwise, each value lands at its path |
| Orchestration.StepStatus | worker_chart_export/orchestration.py:29-37 | the status is present exactly when `steps.<id>.status` is a string, and then it is that string |
| Orchestration.StepUpdate | worker_chart_export/orchestration.py:40-41 | one entry per field, each key prefixed with `steps.<id>.`, and values unchanged |
| Orchestration.StepUpdatePaths | worker_chart_export/orchestration.py:40-41 | with a dot-free id, a prefixed key names the field's path under the step |
| Orchestration.ErrorPayload | worker_chart_export/orchestration.py:64-66 | the error object holds `code` and `message`, and `details` exactly when it is given |
| Orchestration.BuildersAreStepScoped | worker_chart_export/orchestration.py:40-74 | every key from the claim, success and failure builders starts with `steps.<id>.` |
| Orchestration.StepUpdateKeepsOthers | worker_chart_export/orchestration.py:40-41 | a step update leaves every path that parts ways with its fields as it was |
| Orchestration.StepUpdateLeavesSiblings | worker_chart_export/orchestration.py:40-41 | a step update changes no sibling step and no other top-level field |
| Orchestration.StepUpdateSets | worker_chart_export/orchestration.py:40-41 | each field of a step update lands under the step with its value |
| Orchestration.ClaimStep | worker_chart_export/orchestration.py:103-131 | it claims exactly when the step is READY, writing only the claim update; otherwise it writes nothing and reports `not_ready`; it reports the status it read; a rejected commit raises |
| Orchestration.ClaimMovesReadyToRunning | worker_chart_export/orchestration.py:106-115 | a committed claim of a READY step leaves it RUNNING and every other path as it was |
| Orchestration.AtMostOneClaimSucceeds | worker_chart_export/orchestration.py:106-115 | of two claims of one step in sequence, at most one succeeds |
| Orchestration.FinalizeStep | worker_chart_export/orchestration.py:134-179 | a terminal step reports `already_final` and a step that is not RUNNING reports `not_running`, both without writing; it writes exactly when it reports `updated`, and only for a RUNNING step, reporting that step's RUNNING status with no reason and writing the success update (with the manifest URI) or the failure update (with the error); every result carries the status it read; a commit that does not go through raises on every path |
| Orchestration.SuccessUpdateWrites | worker_chart_export/orchestration.py:48-58 | success sets the status, the finish time and the manifest URI; every other path, including other `outputs` keys and sibling steps, is untouched |
| Orchestration.FailureUpdateWrites | worker_chart_export/orchestration.py:61-74 | failure sets the status, the finish time and the error object; every other path is untouched |
| Orchestration.AfterFinalizeOfRunning | worker_chart_export/orchestration.py:159-177 | a committed finalize of a RUNNING step applies the success or the failure update that its status calls for |
| Orchestration.FinalizeTwiceIsNoop | worker_chart_export/orchestration.py:150-157 | once a finalize has made a step terminal, any later finalize reports `already_final`, writes nothing and leaves the document (manifest URI included) as it is |
| Orchestration.FinalizeNeedsItsArgument | worker_chart_export/orchestration.py:159-169 | finalizing a RUNNING step as SUCCEEDED without a URI, or as FAILED without an error, raises |
| Ingest.IsFirestoreUpdateEvent | worker_chart_export/ingest.py:28-31 | true exactly for a non-empty type ending in `.updated` |
| Ingest.FirstSegment | worker_chart_export/ingest.py:169 | the first segment is a `/`-free prefix, followed by `/` or by the end |
| Ingest.ExtractRunId | worker_chart_export/ingest.py:164-170 | no run id without the marker; a run id is non-empty, `/`-free, and sits right after the first marker, ending at the next `/` or at the end |
| Ingest.ExtractRunIdOfName | worker_chart_export/ingest.py:164-170 | a name with the run id after its first marker yields exactly that run id |
| Ingest.ExtractDocPath | worker_chart_export/ingest.py:151-161 | a subject holding the marker is the path; one holding it without the slash gets a leading `/`; any path found holds the marker |
| Ingest.DecodeValue | worker_chart_export/ingest.py:113-148 | a value that is not a map passes through unchanged; the order of the type keys is stated by the lemmas below |
| Ingest.DecodeMapValue | worker_chart_export/ingest.py:136-141 | a `mapValue` decodes to a map |
| Ingest.DecodeArrayValue | worker_chart_export/ingest.py:142-147 | an `arrayValue` decodes to a list |
| Ingest.DecodeFields | worker_chart_export/ingest.py:109-110 | decoding fields keeps the keys and decodes each value; it fails exactly when some value fails |
| Ingest.DecodeList | worker_chart_export/ingest.py:146 | decoding items keeps their number and order; it fails exactly when some item fails |
| Ingest.EncodeValue | worker_chart_export/ingest.py:113-148 | the wire form of a value is a map with exactly one type key |
| Ingest.DecodeEncode | worker_chart_export/ingest.py:113-148 | decoding the wire form of any value gives that value back |
| Ingest.StringValueTakesPriority | worker_chart_export/ingest.py:116-117 | `stringValue` wins over every other type key |
| Ingest.DecodeByFirstTypeKey | worker_chart_export/ingest.py:116-147 | a map is decoded by the first of the nine type keys it holds, in the order `stringValue`, `integerValue`, `doubleValue`, `booleanValue`, `nullValue`, `timestampValue`, `bytesValue`, `mapValue`, `arrayValue` |
| Ingest.UntypedMapIsKept | worker_chart_export/ingest.py:148 | a map holding none of the type keys is returned as it is |
| Ingest.LaterTypeKeyIgnored | worker_chart_export/ingest.py:116-147 | once a map holds a type key, adding or changing a type key later in the order does not change its decoding |
| Ingest.MissingContainersDecodeEmpty | worker_chart_export/ingest.py:136-147 | a `mapValue` without `fields` decodes to `{}`, and an `arrayValue` without `values` to `[]` |
| Ingest.ParseFlowRunEvent | worker_chart_export/ingest.py:34-62 | no event exactly when the data is not a map or no run id can be found in the document path; otherwise the event has that run id, keeps its id, type and subject, and carries the decoded `value.fields`, `{}` when there are none, or fails when they do not decode |
| Ingest.NonFlowRunEventIsDropped | worker_chart_export/ingest.py:44-46 | when neither the subject nor the document name holds the marker, there is no event |
| Ingest.RunIdOfName | worker_chart_export/ingest.py:44-50 | a subject naming `.../documents/flow_runs/<id>[/...]` gives the run id `<id>` |
| Ingest.DecodeEncodeFields | worker_chart_export/ingest.py:109-110 | decoding the wire form of a document's fields gives the fields back |
| Ingest.ParseEncodedFlowRun | worker_chart_export/ingest.py:34-62 | an update event for a flow-run document carrying the wire form of a flow run parses to that run id and that flow run |
| Ingest.PickReadyStep | worker_chart_export/ingest.py:86-106 | no pick when `steps` is not a map; otherwise the pick exists exactly when some step is a ready chart export, it is one of them, and it is the least in code-point order |
| Ingest.PickIsUnique | worker_chart_export/ingest.py:103-106 | the least ready id is unique, so the pick is deterministic |
| Templates.Duplicates | worker_chart_export/templates.py:67-74 | the duplicate list has no repeats |
| Templates.DuplicatedInExtension | worker_chart_export/templates.py:69-74 | one more request adds a duplicate exactly when its string id was already seen |
| Templates.DuplicatesAreRepeatedIds | worker_chart_export/templates.py:67-74 | the collected duplicates are exactly the string ids shared by two requests |
| Templates.DuplicateReportIsSortedRepeats | worker_chart_export/templates.py:75-80 | the reported ids are strictly increasing and are exactly the repeated ids |
| Templates.ValidateRequests | worker_chart_export/templates.py:57-82 | too few requests for `minImages` is reported first, with both counts; otherwise repeated ids are reported with their sorted list; it passes exactly when neither applies |
| Templates.ScopeSymbolWithoutSpaces | worker_chart_export/templates.py:227-237 | a symbol without whitespace is valid exactly when it is non-empty and has no `/` |
| Templates.ScopeSymbolSurroundingSpace | worker_chart_export/templates.py:230-237 | surrounding whitespace never changes validity |
| Templates.ExtractChartTemplateId | worker_chart_export/templates.py:220-224 | an id is extracted exactly when it is a non-blank string, and it is then the requested id |
| Templates.ParseChartTemplate | worker_chart_export/templates.py:179-211 | accepted exactly when the description and the symbol template are non-blank strings and `request` is a map, and then the template holds those two strings and that map unchanged; the three rejections ("description", "chartImgSymbolTemplate is required", "request must be an object") come in that order, each naming the template |
| Templates.ParseTemplateDoc | worker_chart_export/templates.py:179-211 | a stored template with non-blank texts parses back unchanged |
| Templates.RenderSymbol | worker_chart_export/templates.py:214-217 | None exactly when the template has no `{symbol}` |
| Templates.RenderSubstitutes | worker_chart_export/templates.py:214-217 | the first placeholder becomes the scope symbol, and the rest of the template is rendered the same way |
| Templates.RenderSinglePlaceholder | worker_chart_export/templates.py:214-217 | with one placeholder, the rest of the template is kept verbatim |
| Templates.BuildOne | worker_chart_export/templates.py:112-174 | a missing id fails with an empty id; an unknown template fails as not found; a template that does not parse fails with its own error; a parsed template gives an item exactly when its symbol template holds `{symbol}` and otherwise fails with "must include {symbol}"; any failure names the request's id and is a validation failure; an item is assembled from its stored template |
| Templates.BuildChartRequests | worker_chart_export/templates.py:85-176 | a validation error or an invalid scope symbol gives no items and no failures, and the validation error takes precedence |
| Templates.EveryRequestAccounted | worker_chart_export/templates.py:109-176 | without a validation error, the items and failures together number the requests |
| Templates.BuiltItemsAreAssembled | worker_chart_export/templates.py:145-174 | each item's symbol is rendered from its template; `kind` is the description; the payload is the template request with `symbol`, `interval` and `timezone` overwritten |
| Templates.BuildableRequestsAllBuild | worker_chart_export/templates.py:112-176 | once validation passes, requests that all name stored, parseable templates holding `{symbol}` give one item each, in request order, and no failure |
| Templates.ValidatedItemsHaveDistinctIds | worker_chart_export/templates.py:67-176 | no two items share a template id |
| Outcomes.ItemsAndFailuresPartition | worker_chart_export/gcs_artifacts.py:94-136 | every input lands in exactly one of the two lists |
| Outcomes.ItemsFollowInputOrder | worker_chart_export/templates.py:109-176 | the k-th item comes from the k-th successful input, and every successful input is listed |
| Outcomes.FailuresFollowInputOrder | worker_chart_export/templates.py:109-176 | the k-th failure comes from the k-th failed input, and every failed input is listed |
| GcsArtifacts.ParseGsBucket | worker_chart_export/gcs_artifacts.py:213-219 | accepts exactly a stripped value whose name, after one `gs://` is removed, is non-empty and `/`-free |
| GcsArtifacts.NormalizeAgreesWithParse | worker_chart_export/config.py:37-48 | configuration normalisation accepts exactly what the artifact writer accepts, and returns `gs://` plus the same name |
| GcsArtifacts.ParseOfGsBucket | worker_chart_export/gcs_artifacts.py:213-219 | `gs://` plus a parsed name parses back to that name |
| GcsArtifacts.GsUri | worker_chart_export/gcs_artifacts.py:74-76 | a URI exists exactly when the bucket parses; it starts with `gs://` and ends with the object path |
| GcsArtifacts.SplitGsUriOfGsUri | worker_chart_export/gcs_artifacts.py:74-76 | the URI reads back as the parsed bucket and the given object path |
| GcsArtifacts.PngPathSegments | worker_chart_export/gcs_artifacts.py:56-67 | the PNG path is `runs/<run>/charts/<tf>/<tpl>/<stamp>_<slug>_<tf>_<tpl>.png`, segment by segment |
| GcsArtifacts.ManifestPathSegments | worker_chart_export/gcs_artifacts.py:70-71 | the manifest path is `runs/<run>/steps/<step>/charts/manifest.json`, segment by segment |
| GcsArtifacts.ManifestPathsIdentifyStep | worker_chart_export/gcs_artifacts.py:70-71 | two steps share a manifest path only when they are the same run and the same step |
| GcsArtifacts.NewUploader | worker_chart_export/gcs_artifacts.py:42-44 | the uploader is made exactly when the bucket parses |
| GcsArtifacts.NewUploaderIsValid | worker_chart_export/gcs_artifacts.py:42-48 | an uploader's `bucket_gs` parses back to its own bucket name |
| GcsArtifacts.UploadOne | worker_chart_export/gcs_artifacts.py:97-134 | an input yields an item exactly when its upload does not raise; the item has the four item keys and the URI of the object path; the failure is GCS_WRITE_FAILED naming the template, the object path and the exception class |
| GcsArtifacts.UploadSplitsInputs | worker_chart_export/gcs_artifacts.py:88-136 | one item or one failure per input, each list in input order; the k-th item belongs to the k-th input that uploaded, and the k-th failure to the k-th input that raised |
| GcsArtifacts.AllUploadsSucceed | worker_chart_export/gcs_artifacts.py:88-136 | when nothing raises, the items are the inputs' items one for one and there are no failures |
| GcsArtifacts.BuildManifest | worker_chart_export/gcs_artifacts.py:139-164 | the manifest has the fixed keys, plus `failures` exactly when there are failures, and schema version 1 |
| GcsArtifacts.AsObjectsOfObjects | worker_chart_export/gcs_artifacts.py:159-163 | a list of maps copied into the manifest reads back as the same maps |
| GcsArtifacts.ReadBuiltManifest | worker_chart_export/gcs_artifacts.py:151-164 | reading a built manifest gives back every field it was built from |
| GcsArtifacts.WriteManifest | worker_chart_export/gcs_artifacts.py:183-204 | a URI exactly when nothing raised, and then it names the uploader's bucket and the step's fixed manifest path; otherwise MANIFEST_WRITE_FAILED naming that path and the exception class |
| Config.NormalizeGsBucket | worker_chart_export/config.py:37-48 | success is `gs://` plus a non-empty `/`-free name; the empty-bucket error comes exactly when the name part is empty, and a `/` is reported first |
| Config.NormalizeGsBucketIdempotent | worker_chart_export/config.py:37-48 | normalising a normalised bucket changes nothing |
| Config.CheckApiMode | worker_chart_export/config.py:57-59 | an unset or empty mode means `real`; an accepted mode's name is the stripped value |
| Config.CheckApiModeAcceptsExactlyModeNames | worker_chart_export/config.py:57-59 | a non-empty value is accepted as a mode exactly when its stripped form is that mode's name |
| Config.ItemProblem | worker_chart_export/config.py:94-106 | an item has no problem exactly when it is an object with non-blank string `id` and `apiKey` |
| Config.ParseItems | worker_chart_export/config.py:92-110 | on success, one account per item in order, every item valid, and ids distinct from each other and from those already seen |
| Config.ParseAccounts | worker_chart_export/config.py:83-115 | on success, a non-empty list of accounts in input order with distinct ids and no daily limit; a value that is not a list, or an empty list, is rejected |
| Config.ParseAccountsAcceptsExactlyWellFormed | worker_chart_export/config.py:89-115 | accepted exactly when the value is a list of valid items with pairwise distinct ids (at least one) |
| Strings.Strip | worker_chart_export/config.py:39 | `strip()` leaves no whitespace at either end, never lengthens, is empty exactly for all-whitespace text, and keeps stripped text as it is |
| Strings.StripAround | worker_chart_export/templates.py:230 | `strip()` removes exactly the surrounding whitespace of a stripped core |
| Strings.ReplaceAtFirst | worker_chart_export/templates.py:217 | `replace` rewrites the first occurrence and resumes the scan after it |
| Strings.JoinSplit | tests/tasks/T-004/test_orchestration.py:76 | splitting a key on `.` and joining it back restores the key |
| Strings.SplitJoin | worker_chart_export/orchestration.py:41 | splitting a joined key gives back its dot-free parts |
| Strings.ParseIntLiteralOfIntToString | worker_chart_export/ingest.py:118-120 | `int(str(i)) == i` for every integer |
| Strings.LexTotal | worker_chart_export/ingest.py:106 | code-point order is total, so `sorted` has a least element |
| Strings.SetMin | worker_chart_export/ingest.py:103-106 | a non-empty set of ids has a member no greater than any other |
| Strings.SortDistinct | worker_chart_export/templates.py:79 | `sorted` of a repeat-free list is strictly increasing and has the same elements |

## Left out

- HTTP transport, fixture file reads, writes and globbing, and `time.sleep`. These are I/O. An HTTP reply is an input that arrives with its body already decoded. Sleeps are recorded as exponents of the backoff base, so the float seconds are not modelled.
- The choice between live fetch and fixtures in `ChartImgClient.fetch`, `_load_fixture` and `_find_error_fixture`. These read the file system. Only the classification of an already-read error fixture is modelled.
- `_run_transaction`, `_write_usage_update` and the exception-class tests `_is_aborted_error` / `_is_precondition_error`. They become one write outcome: `Written`, `Conflict` (a precondition or abort) or `OtherError`.
- Concurrency. Every race is an oracle outcome in a sequential model.
- `_parse_rfc3339` and `_utc_day_start`. These are datetime arithmetic. A `Clock` supplies today's day number, today's start stamp and a day-of-timestamp oracle.
- `format_generated_at`. This is datetime formatting; the generated-at stamps are opaque strings.
- `json.loads` and `json.dumps`, including the serialisation step of `write_manifest`. Their values arrive already decoded. A serialisation failure folds into the same "raised" input as an upload failure.
- `validate_manifest` and `_load_manifest_schema`. They depend on the JSON Schema library and a schema file.
- ChartImg.FetchWithRetries: models the loop with callbacks that return normally; an exception from `select_account`, `client.fetch` or `mark_account_exhausted` (chart_img.py:213, 224, 233) is modelled by `ChartImg.FetchWithRetriesRaising`, which agrees with it when nothing raises.
- Ingest.DecodeValue: a `doubleValue` is returned as its raw payload, not converted to a float, because the model has no floating point.
- Strings.ParseIntLiteral: Python's `int()` accepts `_` between digits and non-ASCII digits. The model accepts ASCII digits with an optional sign and surrounding whitespace only.
- Non-ASCII behaviour of `isalnum`, `isspace`, `isdigit`, `lower` and `upper`. The strings model covers ASCII only.
- `get_cloud_event_attr` and `_normalize_event_data`. They read attributes and decode JSON. The event's id, type, subject and decoded data are inputs.
- Non-string keys in `steps`. Every map key in the model is a string.
- `pick_ready_chart_export_step`'s skip of non-string ids therefore has no counterpart in the model.
- `extract_run_id_from_subject`. It is `_extract_run_id` applied to `_extract_doc_path(subject, {})`, both of which are modelled.
- The step-scoping lemmas of `Orchestration` assume step ids contain no `.`. A dotted id would spread the update over a different path.
- `DEFAULT_CHART_IMG_DAILY_LIMIT` and `ChartImgAccount.daily_limit` are used by the usage module but not defined in the configuration module. The first is a positive parameter and the second an optional field.
- The trailing returns of the usage loops (usage.py:120-125 and usage.py:189) are unreachable, because every one of the three attempts returns or raises. The model has no counterpart.
- `NON_RETRIABLE_STATUSES` is declared but read by no decision. `ChartImg.UnlistedStatusesArePermanent` shows it changes nothing.
- Requests are modelled as maps. A non-map request entry is skipped by `validate_requests` but raises `AttributeError` in `build_chart_requests`.
- `PngUploadInput.png_bytes` is omitted. The bytes only travel to the upload, whose outcome is an input.
- `FirestoreChartTemplateStore`. It is a document read, so the template store is a map from id to document.
- The `GcsUploader` constructor invariant is the predicate `ValidUploader`. Every uploader the constructor makes satisfies it.
- The bucket error of `_parse_gs_bucket` is one `ValueError`. `_normalize_gs_bucket` raises two different `ConfigError` messages. Each module keeps its own error values.
- Logging (`log_event` and logger calls), `cli.py`, `entrypoints/cloud_event.py`, `runtime.py` and `scripts/`. These are I/O wrappers.
- `core.py` is a stub that only raises, so it is not part of this model.
- Claim retries reporting `precondition_failed` or `aborted`, `dependsOn` gating, and rejecting record mode in production. The source does not implement them.
