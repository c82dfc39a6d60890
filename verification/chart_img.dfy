/**
 * The Chart-IMG client's decisions (worker_chart_export/chart_img.py): how an
 * HTTP reply is classified into a result, how the error message is pulled out
 * of its body, and the bounded account-rotating retry loop
 * `fetch_with_retries`.  The transport, the clock and the account store are
 * oracles indexed by the loop iteration.
 */
module ChartImg {
  import opened Wrappers
  import opened Json
  import opened Strings
  import opened Config

  type byte = b: int | 0 <= b < 256

  const PNG_SIGNATURE: seq<byte> := [0x89, 0x50, 0x4E, 0x47, 0x0D, 0x0A, 0x1A, 0x0A]

  /** Declared in the client next to `RETRIABLE_STATUSES`, but no decision reads it. */
  const NON_RETRIABLE_STATUSES: set<int> := {400, 401, 403, 404, 409, 422}
  const RETRIABLE_STATUSES: set<int> := {500, 504}

  const CHART_API_FAILED: string := "CHART_API_FAILED"
  const CHART_API_LIMIT_EXCEEDED: string := "CHART_API_LIMIT_EXCEEDED"

  datatype ChartImgRequest = ChartImgRequest(
    chartTemplateId: string,
    chartImgSymbol: string,
    timeframe: string,
    payload: map<string, Json>)

  datatype ChartApiError = ChartApiError(
    code: string,
    message: string,
    httpStatus: Option<int>,
    retriable: bool,
    details: Option<Json>)

  datatype ChartApiResult = ChartApiResult(
    ok: bool,
    pngBytes: Option<seq<byte>>,
    error: Option<ChartApiError>,
    httpStatus: Option<int>,
    fromFixture: bool,
    fixturePath: Option<string>)

  /**
   * A reply from the transport.  `decoded` is what `json.loads` makes of the
   * UTF-8 body, or None where decoding raises.
   */
  datatype HttpResponse = HttpResponse(
    statusCode: int,
    headers: map<string, string>,
    content: seq<byte>,
    decoded: Option<Json>)

  /** A failed result that carries `error` and nothing else. */
  function Failed(error: ChartApiError, httpStatus: Option<int>): ChartApiResult {
    ChartApiResult(false, None, Some(error), httpStatus, false, None)
  }

  // ---------------------------------------------------------------------------
  // Reply classification
  // ---------------------------------------------------------------------------

  /** `_is_png_bytes`: the body starts with the eight-byte PNG signature. */
  predicate IsPngBytes(content: seq<byte>) {
    |PNG_SIGNATURE| <= |content| && content[..|PNG_SIGNATURE|] == PNG_SIGNATURE
  }

  /** `_parse_json_body`: an empty body or one that does not decode reads as `None`. */
  function ParseJsonBody(response: HttpResponse): (body: Json)
    ensures |response.content| == 0 ==> body == JNull
    ensures response.decoded.None? ==> body == JNull
  {
    if |response.content| == 0 then JNull else response.decoded.GetOr(JNull)
  }

  /** The usable messages of an `errors` array, in order. */
  function ErrorsEntries(items: seq<Json>): (parts: seq<string>)
    ensures forall k :: 0 <= k < |parts| ==> parts[k] != "" && IsStripped(parts[k])
    ensures |parts| <= |items|
  {
    if |items| == 0 then []
    else
      var item := items[0];
      var msg :=
        if item.JObj? then
          (if Truthy(Get(item.fields, "message")) then Get(item.fields, "message") else Get(item.fields, "error"))
        else item;
      var head := if IsNonBlankStr(msg) then [Strip(msg.s)] else [];
      head + ErrorsEntries(items[1..])
  }

  /**
   * `_extract_error_message`: `message`, then `error`, then the usable
   * `errors[]` entries joined by "; ", for a dict body; the body itself for a
   * string body.
   */
  function ExtractErrorMessage(body: Json): (r: Option<string>)
    ensures r.Some? ==> r.value != "" && IsStripped(r.value)
    ensures body.JObj? && IsNonBlankStr(Get(body.fields, "message")) ==>
      r == Some(Strip(Get(body.fields, "message").s))
    ensures body.JObj? && !IsNonBlankStr(Get(body.fields, "message")) && IsNonBlankStr(Get(body.fields, "error")) ==>
      r == Some(Strip(Get(body.fields, "error").s))
    ensures (body.JObj? && !IsNonBlankStr(Get(body.fields, "message")) && !IsNonBlankStr(Get(body.fields, "error"))
             && !Get(body.fields, "errors").JArr?) ==> r.None?
    ensures body.JStr? ==> r == (if IsBlank(body.s) then None else Some(Strip(body.s)))
    ensures !body.JObj? && !body.JStr? ==> r.None?
  {
    match body
    case JObj(d) =>
      var message := Get(d, "message");
      var error := Get(d, "error");
      var errors := Get(d, "errors");
      if IsNonBlankStr(message) then Some(Strip(message.s))
      else if IsNonBlankStr(error) then Some(Strip(error.s))
      else if errors.JArr? && |ErrorsEntries(errors.items)| > 0 then
        var parts := ErrorsEntries(errors.items);
        JoinOfStrippedParts(parts, "; ");
        Some(Join(parts, "; "))
      else None
    case JStr(s) => if IsBlank(s) then None else Some(Strip(s))
    case _ => None
  }

  /** The `errors[]` entries are used only when neither `message` nor `error` is usable. */
  lemma ErrorsArrayIsLastResortForObjects(d: map<string, Json>)
    requires !IsNonBlankStr(Get(d, "message")) && !IsNonBlankStr(Get(d, "error"))
    requires Get(d, "errors").JArr?
    ensures var parts := ErrorsEntries(Get(d, "errors").items);
      ExtractErrorMessage(JObj(d)) == if |parts| == 0 then None else Some(Join(parts, "; "))
  {
  }

  /** `_is_limit_exceeded`. */
  predicate IsLimitExceeded(status: int, message: Option<string>)
  {
    status == 429 || (message.Some? && Contains(Lower(message.value), "limit exceeded"))
  }

  /** Status 429 is a quota answer whatever the body says. */
  lemma Status429IsLimitExceeded(message: Option<string>)
    ensures IsLimitExceeded(429, message)
  {
  }

  lemma LowerOfUpper(m: string)
    ensures Lower(Upper(m)) == Lower(m)
  {
    assert forall i :: 0 <= i < |m| ==> ToLowerChar(ToUpperChar(m[i])) == ToLowerChar(m[i]);
  }

  /** The message test does not depend on letter case. */
  lemma LimitExceededIgnoresCase(status: int, m: string)
    ensures IsLimitExceeded(status, Some(Upper(m))) == IsLimitExceeded(status, Some(m))
    ensures IsLimitExceeded(status, Some(Lower(m))) == IsLimitExceeded(status, Some(m))
  {
    LowerOfUpper(m);
    assert Lower(Lower(m)) == Lower(m);
  }

  /** `_error_details`: the request's ids, plus the body under `response` unless it is `None`. */
  function ErrorDetails(body: Json, chartTemplateId: string, chartImgSymbol: string): (d: Json)
    ensures d.JObj? && Get(d.fields, "chartTemplateId") == JStr(chartTemplateId)
    ensures Get(d.fields, "chartImgSymbol") == JStr(chartImgSymbol)
    ensures "response" in d.fields <==> body != JNull
    ensures Get(d.fields, "response") == body
    ensures |d.fields| == if body == JNull then 2 else 3
  {
    var base := map["chartTemplateId" := JStr(chartTemplateId), "chartImgSymbol" := JStr(chartImgSymbol)];
    assert base.Keys == {"chartTemplateId", "chartImgSymbol"};
    if body == JNull then JObj(base)
    else
      var full := base["response" := body];
      assert full.Keys == {"chartTemplateId", "chartImgSymbol", "response"};
      JObj(full)
  }

  /**
   * The error for a non-PNG reply, shared by `_handle_http_response` (which
   * always knows the status) and the error-fixture loader (which may not).
   */
  function ClassifyErrorBody(status: Option<int>, body: Json, chartTemplateId: string, chartImgSymbol: string): (e: ChartApiError)
    ensures e.httpStatus == status && e.message != ""
    ensures e.details == Some(ErrorDetails(body, chartTemplateId, chartImgSymbol))
    ensures e.code == CHART_API_LIMIT_EXCEEDED <==>
      status.Some? && IsLimitExceeded(status.value, ExtractErrorMessage(body))
    ensures e.code == CHART_API_LIMIT_EXCEEDED ==> e.retriable
    ensures e.code != CHART_API_LIMIT_EXCEEDED ==>
      e.code == CHART_API_FAILED && (e.retriable <==> status.Some? && status.value in RETRIABLE_STATUSES)
    ensures ExtractErrorMessage(body).Some? ==> e.message == ExtractErrorMessage(body).value
  {
    var message := ExtractErrorMessage(body);
    var details := Some(ErrorDetails(body, chartTemplateId, chartImgSymbol));
    if status.Some? && IsLimitExceeded(status.value, message) then
      ChartApiError(CHART_API_LIMIT_EXCEEDED, message.GetOr("Chart-IMG limit exceeded"), status, true, details)
    else
      var retriable := status.Some? && status.value in RETRIABLE_STATUSES;
      ChartApiError(CHART_API_FAILED, message.GetOr("Chart-IMG request failed"), status, retriable, details)
  }

  /** `_handle_http_response`. */
  function HandleHttpResponse(response: HttpResponse, chartTemplateId: string, chartImgSymbol: string): (r: ChartApiResult)
    ensures r.ok <==> response.statusCode == 200 && IsPngBytes(response.content)
    ensures r.ok ==> r.pngBytes == Some(response.content) && r.error.None?
    ensures r.httpStatus == Some(response.statusCode) && !r.fromFixture && r.fixturePath.None?
    ensures !r.ok ==> r.error.Some? && r.error.value.httpStatus == Some(response.statusCode) && r.error.value.message != ""
    ensures response.statusCode == 200 && !r.ok ==>
      r.error.value.code == CHART_API_FAILED && !r.error.value.retriable
      && r.error.value.details == Some(JObj(map["contentType" := OptStr(
           if "content-type" in response.headers then Some(response.headers["content-type"]) else None)]))
    ensures response.statusCode != 200 ==>
      r.error == Some(ClassifyErrorBody(Some(response.statusCode), ParseJsonBody(response), chartTemplateId, chartImgSymbol))
  {
    var status := response.statusCode;
    if status == 200 then
      if IsPngBytes(response.content) then
        ChartApiResult(true, Some(response.content), None, Some(status), false, None)
      else
        var contentType := if "content-type" in response.headers then Some(response.headers["content-type"]) else None;
        var error := ChartApiError(CHART_API_FAILED, "Chart-IMG returned HTTP 200 with non-PNG body",
                                   Some(status), false, Some(JObj(map["contentType" := OptStr(contentType)])));
        Failed(error, Some(status))
    else
      Failed(ClassifyErrorBody(Some(status), ParseJsonBody(response), chartTemplateId, chartImgSymbol), Some(status))
  }

  // ---------------------------------------------------------------------------
  // The taxonomy, stated independently of the code
  // ---------------------------------------------------------------------------

  /** The four kinds of answer the rest of the worker distinguishes. */
  datatype Outcome = Png | QuotaExhausted | TransientFailure | PermanentFailure

  predicate IsQuotaError(r: ChartApiResult) {
    !r.ok && r.error.Some? && r.error.value.code == CHART_API_LIMIT_EXCEEDED
  }

  predicate IsRetriableError(r: ChartApiResult) {
    !r.ok && r.error.Some? && r.error.value.code != CHART_API_LIMIT_EXCEEDED && r.error.value.retriable
  }

  /** How the retry loop reads a result. */
  function OutcomeOf(r: ChartApiResult): Outcome {
    if r.ok then Png
    else if IsQuotaError(r) then QuotaExhausted
    else if IsRetriableError(r) then TransientFailure
    else PermanentFailure
  }

  /**
   * The documented table: 200 with a PNG is success and any other 200 is
   * permanent; 429 or a "limit exceeded" message is quota; 500 and 504 are
   * transient; every other status is permanent.
   */
  function ExpectedOutcome(status: int, content: seq<byte>, message: Option<string>): Outcome {
    if status == 200 then (if IsPngBytes(content) then Png else PermanentFailure)
    else if status == 429 then QuotaExhausted
    else if message.Some? && Contains(Lower(message.value), "limit exceeded") then QuotaExhausted
    else if status == 500 || status == 504 then TransientFailure
    else PermanentFailure
  }

  lemma HandleHttpResponseFollowsTaxonomy(response: HttpResponse, chartTemplateId: string, chartImgSymbol: string)
    ensures OutcomeOf(HandleHttpResponse(response, chartTemplateId, chartImgSymbol))
         == ExpectedOutcome(response.statusCode, response.content, ExtractErrorMessage(ParseJsonBody(response)))
  {
  }

  /**
   * A status outside 200, 429, 500 and 504 without a quota message is
   * permanent whether or not it is listed in `NON_RETRIABLE_STATUSES`.
   */
  lemma UnlistedStatusesArePermanent(response: HttpResponse, chartTemplateId: string, chartImgSymbol: string)
    requires response.statusCode !in {200, 429} + RETRIABLE_STATUSES
    requires !IsLimitExceeded(response.statusCode, ExtractErrorMessage(ParseJsonBody(response)))
    ensures var r := HandleHttpResponse(response, chartTemplateId, chartImgSymbol);
      r.error.Some? && r.error.value.code == CHART_API_FAILED && !r.error.value.retriable
  {
  }

  // ---------------------------------------------------------------------------
  // fetch_with_retries
  // ---------------------------------------------------------------------------

  /** One `client.fetch` the loop made: the account it used and what came back. */
  datatype Call = Call(account: ChartImgAccount, result: ChartApiResult)

  /**
   * Everything one run of the loop does, in order: the fetches, the accounts
   * passed to `mark_account_exhausted`, and the sleeps, each recorded as the
   * exponent `k` of `backoff_base_seconds * 2^k`.
   */
  datatype FetchRun = FetchRun(result: ChartApiResult, calls: seq<Call>, marked: seq<ChartImgAccount>, sleeps: seq<nat>)

  const NO_ACCOUNT_ERROR: ChartApiError :=
    ChartApiError(CHART_API_LIMIT_EXCEEDED, "No Chart-IMG accounts available", None, false, None)

  const RETRIES_EXHAUSTED_ERROR: ChartApiError :=
    ChartApiError(CHART_API_FAILED, "Chart-IMG request failed after retries", None, false, None)

  /** What the loop returns once the attempt budget is spent. */
  function BudgetSpent(lastError: Option<ChartApiError>): ChartApiResult {
    Failed(lastError.GetOr(RETRIES_EXHAUSTED_ERROR), None)
  }

  /** A result after which the loop returns it, `attemptsAfter` fetches having been made. */
  predicate Stops(r: ChartApiResult, attemptsAfter: int, maxAttempts: int) {
    !IsQuotaError(r) && !(IsRetriableError(r) && attemptsAfter < maxAttempts)
  }

  /** The accounts whose fetch answered with a quota error, in order. */
  function QuotaAccounts(calls: seq<Call>): seq<ChartImgAccount> {
    if |calls| == 0 then []
    else (if IsQuotaError(calls[0].result) then [calls[0].account] else []) + QuotaAccounts(calls[1..])
  }

  /** The sleep exponents a run owes: one per retriable failure with budget left, numbered by call index. */
  function RetrySleeps(calls: seq<Call>, first: nat, maxAttempts: int): seq<nat>
    decreases |calls|
  {
    if |calls| == 0 then []
    else
      (if IsRetriableError(calls[0].result) && first + 1 < maxAttempts then [first] else [])
      + RetrySleeps(calls[1..], first + 1, maxAttempts)
  }

  function Max0(x: int): nat { if x < 0 then 0 else x }

  /**
   * The `while attempts < max_attempts` loop entered with `attempts` fetches
   * already made.  `selectAccount(i)` and `fetch(i, account)` answer the
   * i-th call of each.
   */
  function FetchLoop(
    selectAccount: nat -> Option<ChartImgAccount>,
    fetch: (nat, ChartImgAccount) -> ChartApiResult,
    canMark: bool,
    maxAttempts: int,
    attempts: nat,
    lastError: Option<ChartApiError>): (run: FetchRun)
    ensures |run.calls| <= Max0(maxAttempts - attempts)
    ensures forall k :: 0 <= k < |run.calls| ==>
      selectAccount(attempts + k) == Some(run.calls[k].account)
      && run.calls[k].result == fetch(attempts + k, run.calls[k].account)
    decreases maxAttempts - attempts
  {
    if attempts >= maxAttempts then FetchRun(BudgetSpent(lastError), [], [], [])
    else
      match selectAccount(attempts)
      case None => FetchRun(Failed(NO_ACCOUNT_ERROR, None), [], [], [])
      case Some(account) =>
        var result := fetch(attempts, account);
        var call := Call(account, result);
        if result.ok || result.error.None? then FetchRun(result, [call], [], [])
        else if result.error.value.code == CHART_API_LIMIT_EXCEEDED then
          var rest := FetchLoop(selectAccount, fetch, canMark, maxAttempts, attempts + 1, result.error);
          FetchRun(rest.result, [call] + rest.calls, (if canMark then [account] else []) + rest.marked, rest.sleeps)
        else if !result.error.value.retriable || attempts + 1 >= maxAttempts then
          FetchRun(result, [call], [], [])
        else
          var rest := FetchLoop(selectAccount, fetch, canMark, maxAttempts, attempts + 1, result.error);
          FetchRun(rest.result, [call] + rest.calls, rest.marked, [attempts] + rest.sleeps)
  }

  /** Every call but the last answered with a quota or a retriable error. */
  predicate OnlyLastCallStops(calls: seq<Call>) {
    forall k :: 0 <= k < |calls| - 1 ==> IsQuotaError(calls[k].result) || IsRetriableError(calls[k].result)
  }

  /** Any answer other than a quota or a retriable error ends the loop. */
  lemma {:induction false} FetchLoopContinuesOnlyOnQuotaOrRetry(
    selectAccount: nat -> Option<ChartImgAccount>, fetch: (nat, ChartImgAccount) -> ChartApiResult,
    canMark: bool, maxAttempts: int, attempts: nat, lastError: Option<ChartApiError>)
    ensures OnlyLastCallStops(FetchLoop(selectAccount, fetch, canMark, maxAttempts, attempts, lastError).calls)
    decreases maxAttempts - attempts
  {
    if attempts < maxAttempts && selectAccount(attempts).Some? {
      var account := selectAccount(attempts).value;
      var result := fetch(attempts, account);
      if !result.ok && result.error.Some? {
        FetchLoopContinuesOnlyOnQuotaOrRetry(selectAccount, fetch, canMark, maxAttempts, attempts + 1, result.error);
        var run := FetchLoop(selectAccount, fetch, canMark, maxAttempts, attempts, lastError);
        var rest := FetchLoop(selectAccount, fetch, canMark, maxAttempts, attempts + 1, result.error);
        if IsQuotaError(result) || (result.error.value.retriable && attempts + 1 < maxAttempts) {
          assert run.calls == [Call(account, result)] + rest.calls;
          assert OnlyLastCallStops(rest.calls);
          forall k | 0 <= k < |run.calls| - 1
            ensures IsQuotaError(run.calls[k].result) || IsRetriableError(run.calls[k].result)
          {
            if k > 0 {
              assert run.calls[k] == rest.calls[k - 1];
            }
          }
        }
      }
    }
  }

  /** The accounts marked exhausted are exactly those that answered with a quota error, in call order. */
  lemma {:induction false} FetchLoopMarksQuotaAccounts(
    selectAccount: nat -> Option<ChartImgAccount>, fetch: (nat, ChartImgAccount) -> ChartApiResult,
    canMark: bool, maxAttempts: int, attempts: nat, lastError: Option<ChartApiError>)
    ensures var run := FetchLoop(selectAccount, fetch, canMark, maxAttempts, attempts, lastError);
      run.marked == if canMark then QuotaAccounts(run.calls) else []
    decreases maxAttempts - attempts
  {
    if attempts < maxAttempts && selectAccount(attempts).Some? {
      var account := selectAccount(attempts).value;
      var result := fetch(attempts, account);
      if !result.ok && result.error.Some? {
        FetchLoopMarksQuotaAccounts(selectAccount, fetch, canMark, maxAttempts, attempts + 1, result.error);
        var run := FetchLoop(selectAccount, fetch, canMark, maxAttempts, attempts, lastError);
        var rest := FetchLoop(selectAccount, fetch, canMark, maxAttempts, attempts + 1, result.error);
        if IsQuotaError(result) || (result.error.value.retriable && attempts + 1 < maxAttempts) {
          assert run.calls == [Call(account, result)] + rest.calls;
          assert run.calls[1..] == rest.calls;
        }
      }
    }
  }

  /** The sleeps are exactly one per retriable failure that still had budget after it, numbered by call. */
  lemma {:induction false} FetchLoopSleepsOnRetries(
    selectAccount: nat -> Option<ChartImgAccount>, fetch: (nat, ChartImgAccount) -> ChartApiResult,
    canMark: bool, maxAttempts: int, attempts: nat, lastError: Option<ChartApiError>)
    ensures var run := FetchLoop(selectAccount, fetch, canMark, maxAttempts, attempts, lastError);
      run.sleeps == RetrySleeps(run.calls, attempts, maxAttempts)
    decreases maxAttempts - attempts
  {
    if attempts < maxAttempts && selectAccount(attempts).Some? {
      var account := selectAccount(attempts).value;
      var result := fetch(attempts, account);
      if !result.ok && result.error.Some? {
        FetchLoopSleepsOnRetries(selectAccount, fetch, canMark, maxAttempts, attempts + 1, result.error);
        var run := FetchLoop(selectAccount, fetch, canMark, maxAttempts, attempts, lastError);
        var rest := FetchLoop(selectAccount, fetch, canMark, maxAttempts, attempts + 1, result.error);
        if IsQuotaError(result) || (result.error.value.retriable && attempts + 1 < maxAttempts) {
          assert run.calls == [Call(account, result)] + rest.calls;
          assert run.calls[1..] == rest.calls;
        }
      }
    }
  }

  /**
   * How a run entered with `attempts` fetches made ends: with the last
   * call's own result when that result stops the loop; otherwise with the
   * no-account error when an iteration with budget left found no account;
   * otherwise, the budget spent, with the last error seen.
   */
  predicate EndsAsSpecified(run: FetchRun, selectAccount: nat -> Option<ChartImgAccount>,
                            maxAttempts: int, attempts: nat, lastError: Option<ChartApiError>)
  {
    var n := |run.calls|;
    if n > 0 && Stops(run.calls[n - 1].result, attempts + n, maxAttempts) then
      run.result == run.calls[n - 1].result
    else if attempts + n < maxAttempts then
      selectAccount(attempts + n).None? && run.result == Failed(NO_ACCOUNT_ERROR, None)
    else
      run.result == BudgetSpent(if n > 0 then run.calls[n - 1].result.error else lastError)
  }

  /** A run that starts with `call` and goes on as `rest` ends as specified when `rest` does. */
  lemma EndsAsSpecifiedStep(
    run: FetchRun, rest: FetchRun, call: Call, selectAccount: nat -> Option<ChartImgAccount>,
    maxAttempts: int, attempts: nat, lastError: Option<ChartApiError>)
    requires run.calls == [call] + rest.calls && run.result == rest.result
    requires !Stops(call.result, attempts + 1, maxAttempts)
    requires EndsAsSpecified(rest, selectAccount, maxAttempts, attempts + 1, call.result.error)
    ensures EndsAsSpecified(run, selectAccount, maxAttempts, attempts, lastError)
  {
    if |rest.calls| > 0 {
      assert run.calls[|run.calls| - 1] == rest.calls[|rest.calls| - 1];
    } else {
      assert run.calls[0] == call;
    }
  }

  lemma {:induction false} FetchLoopResult(
    selectAccount: nat -> Option<ChartImgAccount>, fetch: (nat, ChartImgAccount) -> ChartApiResult,
    canMark: bool, maxAttempts: int, attempts: nat, lastError: Option<ChartApiError>)
    ensures EndsAsSpecified(FetchLoop(selectAccount, fetch, canMark, maxAttempts, attempts, lastError),
                            selectAccount, maxAttempts, attempts, lastError)
    decreases maxAttempts - attempts
  {
    var run := FetchLoop(selectAccount, fetch, canMark, maxAttempts, attempts, lastError);
    if attempts < maxAttempts && selectAccount(attempts).Some? {
      var account := selectAccount(attempts).value;
      var result := fetch(attempts, account);
      var call := Call(account, result);
      if !result.ok && result.error.Some? && (IsQuotaError(result) || (result.error.value.retriable && attempts + 1 < maxAttempts)) {
        FetchLoopResult(selectAccount, fetch, canMark, maxAttempts, attempts + 1, result.error);
        var rest := FetchLoop(selectAccount, fetch, canMark, maxAttempts, attempts + 1, result.error);
        EndsAsSpecifiedStep(run, rest, call, selectAccount, maxAttempts, attempts, lastError);
      } else {
        assert run.calls == [call] && run.result == result;
        assert Stops(result, attempts + 1, maxAttempts);
      }
    }
  }

  /** `fetch_with_retries`; `canMark` says whether a `mark_account_exhausted` callback was given. */
  function FetchWithRetries(
    selectAccount: nat -> Option<ChartImgAccount>,
    fetch: (nat, ChartImgAccount) -> ChartApiResult,
    canMark: bool,
    maxAttempts: int): (run: FetchRun)
    ensures |run.calls| <= Max0(maxAttempts)
    ensures forall k :: 0 <= k < |run.calls| ==>
      selectAccount(k) == Some(run.calls[k].account) && run.calls[k].result == fetch(k, run.calls[k].account)
    ensures run.result.ok ==> |run.calls| > 0 && run.result == run.calls[|run.calls| - 1].result
    ensures run.marked == if canMark then QuotaAccounts(run.calls) else []
    ensures run.sleeps == RetrySleeps(run.calls, 0, maxAttempts)
    ensures OnlyLastCallStops(run.calls)
    ensures EndsAsSpecified(run, selectAccount, maxAttempts, 0, None)
  {
    FetchLoopContinuesOnlyOnQuotaOrRetry(selectAccount, fetch, canMark, maxAttempts, 0, None);
    FetchLoopMarksQuotaAccounts(selectAccount, fetch, canMark, maxAttempts, 0, None);
    FetchLoopSleepsOnRetries(selectAccount, fetch, canMark, maxAttempts, 0, None);
    FetchLoopResult(selectAccount, fetch, canMark, maxAttempts, 0, None);
    FetchLoop(selectAccount, fetch, canMark, maxAttempts, 0, None)
  }

  /** Every sleep exponent belongs to a call that still had budget after it, and they rise by call. */
  lemma {:induction false} RetrySleepsBounded(calls: seq<Call>, first: nat, maxAttempts: int)
    ensures var s := RetrySleeps(calls, first, maxAttempts);
      |s| <= |calls|
      && (forall k :: 0 <= k < |s| ==> first <= s[k] < first + |calls| && s[k] + 1 < maxAttempts)
      && (forall j, k :: 0 <= j < k < |s| ==> s[j] < s[k])
    decreases |calls|
  {
    if |calls| > 0 {
      RetrySleepsBounded(calls[1..], first + 1, maxAttempts);
    }
  }

  /** An unavailable account pool ends the loop before any fetch. */
  lemma NoAccountEndsLoop(
    selectAccount: nat -> Option<ChartImgAccount>, fetch: (nat, ChartImgAccount) -> ChartApiResult,
    canMark: bool, maxAttempts: int)
    requires maxAttempts >= 1 && selectAccount(0).None?
    ensures var run := FetchWithRetries(selectAccount, fetch, canMark, maxAttempts);
      run.calls == [] && run.sleeps == [] && run.marked == []
      && IsQuotaError(run.result) && !run.result.error.value.retriable
  {
  }

  /** A permanent failure is returned at once: one fetch, no sleep, no mark. */
  lemma PermanentFailureReturnsAtOnce(
    selectAccount: nat -> Option<ChartImgAccount>, fetch: (nat, ChartImgAccount) -> ChartApiResult,
    canMark: bool, maxAttempts: int, account: ChartImgAccount)
    requires maxAttempts >= 1 && selectAccount(0) == Some(account)
    requires OutcomeOf(fetch(0, account)) == PermanentFailure
    ensures var run := FetchWithRetries(selectAccount, fetch, canMark, maxAttempts);
      run.calls == [Call(account, fetch(0, account))] && run.sleeps == [] && run.marked == []
      && run.result == fetch(0, account)
  {
  }

  /**
   * A quota answer marks that account and rotates to the next one without
   * sleeping: with accounts A then B, a quota error from A and a PNG from B
   * give B's PNG and mark A alone.
   */
  lemma QuotaRotatesToNextAccount(
    selectAccount: nat -> Option<ChartImgAccount>, fetch: (nat, ChartImgAccount) -> ChartApiResult,
    maxAttempts: int, a: ChartImgAccount, b: ChartImgAccount)
    requires maxAttempts >= 2
    requires selectAccount(0) == Some(a) && IsQuotaError(fetch(0, a))
    requires selectAccount(1) == Some(b) && fetch(1, b).ok
    ensures var run := FetchWithRetries(selectAccount, fetch, true, maxAttempts);
      run.result == fetch(1, b) && run.marked == [a] && run.sleeps == []
      && run.calls == [Call(a, fetch(0, a)), Call(b, fetch(1, b))]
  {
    var rest := FetchLoop(selectAccount, fetch, true, maxAttempts, 1, fetch(0, a).error);
    assert rest.calls == [Call(b, fetch(1, b))];
  }

  function Range(lo: nat, hi: nat): (r: seq<nat>)
    ensures |r| == if lo <= hi then hi - lo else 0
    ensures forall k :: 0 <= k < |r| ==> r[k] == lo + k
    decreases hi - lo
  {
    if lo >= hi then [] else [lo] + Range(lo + 1, hi)
  }

  lemma {:induction false} AlwaysRetriableLoop(
    selectAccount: nat -> Option<ChartImgAccount>, fetch: (nat, ChartImgAccount) -> ChartApiResult,
    canMark: bool, maxAttempts: nat, attempts: nat, lastError: Option<ChartApiError>)
    requires attempts < maxAttempts
    requires forall i :: selectAccount(i).Some?
    requires forall i, a :: IsRetriableError(fetch(i, a))
    ensures var run := FetchLoop(selectAccount, fetch, canMark, maxAttempts, attempts, lastError);
      |run.calls| == maxAttempts - attempts
      && run.sleeps == Range(attempts, maxAttempts - 1)
      && run.marked == []
      && run.result == run.calls[|run.calls| - 1].result
    decreases maxAttempts - attempts
  {
    var run := FetchLoop(selectAccount, fetch, canMark, maxAttempts, attempts, lastError);
    var account := selectAccount(attempts).value;
    var result := fetch(attempts, account);
    var call := Call(account, result);
    assert IsRetriableError(result);
    if attempts + 1 < maxAttempts {
      AlwaysRetriableLoop(selectAccount, fetch, canMark, maxAttempts, attempts + 1, result.error);
      var rest := FetchLoop(selectAccount, fetch, canMark, maxAttempts, attempts + 1, result.error);
      assert run == FetchRun(rest.result, [call] + rest.calls, rest.marked, [attempts] + rest.sleeps);
      assert Range(attempts, maxAttempts - 1) == [attempts] + Range(attempts + 1, maxAttempts - 1);
      assert run.calls[|run.calls| - 1] == rest.calls[|rest.calls| - 1];
    } else {
      assert run == FetchRun(result, [call], [], []);
      assert Range(attempts, maxAttempts - 1) == [];
    }
  }

  /**
   * A fetch that always fails with a retriable error uses the whole budget:
   * `maxAttempts` calls and `maxAttempts - 1` sleeps with exponents
   * 0, 1, ..., and the last failure is returned.
   */
  lemma AlwaysRetriableUsesWholeBudget(
    selectAccount: nat -> Option<ChartImgAccount>, fetch: (nat, ChartImgAccount) -> ChartApiResult,
    canMark: bool, maxAttempts: nat)
    requires maxAttempts >= 1
    requires forall i :: selectAccount(i).Some?
    requires forall i, a :: IsRetriableError(fetch(i, a))
    ensures var run := FetchWithRetries(selectAccount, fetch, canMark, maxAttempts);
      |run.calls| == maxAttempts && run.sleeps == Range(0, maxAttempts - 1)
      && run.result == run.calls[maxAttempts - 1].result
  {
    AlwaysRetriableLoop(selectAccount, fetch, canMark, maxAttempts, 0, None);
  }

  // ---------------------------------------------------------------------------
  // fetch_with_retries when a callback raises
  // ---------------------------------------------------------------------------

  /**
   * A run of the loop whose callbacks may raise: `outcome` is the returned
   * result, or the exception `E` that left the loop.  The other fields
   * record what happened up to that point, as in `FetchRun`; an account
   * whose `mark_account_exhausted` call raised is still listed in `marked`.
   */
  datatype RaisingRun<E> = RaisingRun(outcome: Result<ChartApiResult, E>, calls: seq<Call>, marked: seq<ChartImgAccount>, sleeps: seq<nat>)

  /**
   * The loop of `FetchLoop` with callbacks that may raise: `selectAccount(i)`
   * and `fetch(i, account)` answer or raise on the i-th call, and
   * `mark(i, account)` is the exception, if any, that `mark_account_exhausted`
   * raises after the i-th fetch.  An exception leaves the loop at once.
   */
  function FetchLoopRaising<E>(
    selectAccount: nat -> Result<Option<ChartImgAccount>, E>,
    fetch: (nat, ChartImgAccount) -> Result<ChartApiResult, E>,
    mark: (nat, ChartImgAccount) -> Option<E>,
    canMark: bool,
    maxAttempts: int,
    attempts: nat,
    lastError: Option<ChartApiError>): (run: RaisingRun<E>)
    ensures |run.calls| <= Max0(maxAttempts - attempts)
    ensures forall k :: 0 <= k < |run.calls| ==>
      selectAccount(attempts + k) == Ok(Some(run.calls[k].account))
      && fetch(attempts + k, run.calls[k].account) == Ok(run.calls[k].result)
    decreases maxAttempts - attempts
  {
    if attempts >= maxAttempts then RaisingRun(Ok(BudgetSpent(lastError)), [], [], [])
    else
      match selectAccount(attempts)
      case Err(e) => RaisingRun(Err(e), [], [], [])
      case Ok(None) => RaisingRun(Ok(Failed(NO_ACCOUNT_ERROR, None)), [], [], [])
      case Ok(Some(account)) =>
        match fetch(attempts, account)
        case Err(e) => RaisingRun(Err(e), [], [], [])
        case Ok(result) =>
          var call := Call(account, result);
          if result.ok || result.error.None? then RaisingRun(Ok(result), [call], [], [])
          else if result.error.value.code == CHART_API_LIMIT_EXCEEDED then
            if canMark && mark(attempts, account).Some? then
              RaisingRun(Err(mark(attempts, account).value), [call], [account], [])
            else
              var rest := FetchLoopRaising(selectAccount, fetch, mark, canMark, maxAttempts, attempts + 1, result.error);
              RaisingRun(rest.outcome, [call] + rest.calls, (if canMark then [account] else []) + rest.marked, rest.sleeps)
          else if !result.error.value.retriable || attempts + 1 >= maxAttempts then
            RaisingRun(Ok(result), [call], [], [])
          else
            var rest := FetchLoopRaising(selectAccount, fetch, mark, canMark, maxAttempts, attempts + 1, result.error);
            RaisingRun(rest.outcome, [call] + rest.calls, rest.marked, [attempts] + rest.sleeps)
  }

  /** The `mark_account_exhausted` call after the i-th fetch, `call`, raised. */
  predicate MarkRaised<E>(call: Call, i: nat, mark: (nat, ChartImgAccount) -> Option<E>, canMark: bool) {
    canMark && IsQuotaError(call.result) && mark(i, call.account).Some?
  }

  /** The i-th fetch, `call`, neither stopped the loop nor had its mark raise. */
  predicate CallContinues<E>(call: Call, i: nat, mark: (nat, ChartImgAccount) -> Option<E>, canMark: bool, maxAttempts: int) {
    !Stops(call.result, i + 1, maxAttempts) && !MarkRaised(call, i, mark, canMark)
  }

  /**
   * How a run entered with `attempts` fetches made ends when callbacks may
   * raise: every call but the last went on; then the last call's own result
   * when it stops the loop; the exception of its mark when that raised;
   * otherwise, with budget left, whatever the next selection does (its
   * exception, the no-account error, or the exception of the fetch it
   * leads to); and with the budget spent, the last error seen.
   */
  ghost predicate RaisingEndsAsSpecified<E>(
    run: RaisingRun<E>,
    selectAccount: nat -> Result<Option<ChartImgAccount>, E>,
    fetch: (nat, ChartImgAccount) -> Result<ChartApiResult, E>,
    mark: (nat, ChartImgAccount) -> Option<E>,
    canMark: bool, maxAttempts: int, attempts: nat, lastError: Option<ChartApiError>)
  {
    var n := |run.calls|;
    (forall k :: 0 <= k < n - 1 ==> CallContinues(run.calls[k], attempts + k, mark, canMark, maxAttempts))
    && if n > 0 && Stops(run.calls[n - 1].result, attempts + n, maxAttempts) then
      run.outcome == Ok(run.calls[n - 1].result)
    else if n > 0 && MarkRaised(run.calls[n - 1], attempts + n - 1, mark, canMark) then
      run.outcome == Err(mark(attempts + n - 1, run.calls[n - 1].account).value)
    else if attempts + n < maxAttempts then
      match selectAccount(attempts + n)
      case Err(e) => run.outcome == Err(e)
      case Ok(None) => run.outcome == Ok(Failed(NO_ACCOUNT_ERROR, None))
      case Ok(Some(account)) => fetch(attempts + n, account).Err? && run.outcome == Err(fetch(attempts + n, account).error)
    else
      run.outcome == Ok(BudgetSpent(if n > 0 then run.calls[n - 1].result.error else lastError))
  }

  /** A run that starts with a call that went on, and goes on as `rest`, ends as specified when `rest` does. */
  lemma RaisingEndsAsSpecifiedStep<E>(
    run: RaisingRun<E>, rest: RaisingRun<E>, call: Call,
    selectAccount: nat -> Result<Option<ChartImgAccount>, E>,
    fetch: (nat, ChartImgAccount) -> Result<ChartApiResult, E>,
    mark: (nat, ChartImgAccount) -> Option<E>,
    canMark: bool, maxAttempts: int, attempts: nat, lastError: Option<ChartApiError>)
    requires run.calls == [call] + rest.calls && run.outcome == rest.outcome
    requires CallContinues(call, attempts, mark, canMark, maxAttempts)
    requires RaisingEndsAsSpecified(rest, selectAccount, fetch, mark, canMark, maxAttempts, attempts + 1, call.result.error)
    ensures RaisingEndsAsSpecified(run, selectAccount, fetch, mark, canMark, maxAttempts, attempts, lastError)
  {
    forall k | 0 <= k < |run.calls| - 1
      ensures CallContinues(run.calls[k], attempts + k, mark, canMark, maxAttempts)
    {
      if k > 0 {
        assert run.calls[k] == rest.calls[k - 1];
      }
    }
    if |rest.calls| > 0 {
      assert run.calls[|run.calls| - 1] == rest.calls[|rest.calls| - 1];
    } else {
      assert run.calls[0] == call;
    }
  }

  /** One iteration whose fetch went on: the run is that call followed by the rest of the loop. */
  lemma RaisingContinues<E>(
    selectAccount: nat -> Result<Option<ChartImgAccount>, E>,
    fetch: (nat, ChartImgAccount) -> Result<ChartApiResult, E>,
    mark: (nat, ChartImgAccount) -> Option<E>,
    canMark: bool, maxAttempts: int, attempts: nat, lastError: Option<ChartApiError>,
    account: ChartImgAccount, result: ChartApiResult)
    requires attempts < maxAttempts
    requires selectAccount(attempts) == Ok(Some(account)) && fetch(attempts, account) == Ok(result)
    requires CallContinues(Call(account, result), attempts, mark, canMark, maxAttempts)
    ensures var run := FetchLoopRaising(selectAccount, fetch, mark, canMark, maxAttempts, attempts, lastError);
      var rest := FetchLoopRaising(selectAccount, fetch, mark, canMark, maxAttempts, attempts + 1, result.error);
      && run.outcome == rest.outcome
      && run.calls == [Call(account, result)] + rest.calls
      && run.marked == (if canMark && IsQuotaError(result) then [account] else []) + rest.marked
      && run.sleeps == (if IsQuotaError(result) then [] else [attempts]) + rest.sleeps
  {
  }

  /** One iteration whose fetch stopped the loop or whose mark raised: the run ends with that call. */
  lemma RaisingStops<E>(
    selectAccount: nat -> Result<Option<ChartImgAccount>, E>,
    fetch: (nat, ChartImgAccount) -> Result<ChartApiResult, E>,
    mark: (nat, ChartImgAccount) -> Option<E>,
    canMark: bool, maxAttempts: int, attempts: nat, lastError: Option<ChartApiError>,
    account: ChartImgAccount, result: ChartApiResult)
    requires attempts < maxAttempts
    requires selectAccount(attempts) == Ok(Some(account)) && fetch(attempts, account) == Ok(result)
    requires !CallContinues(Call(account, result), attempts, mark, canMark, maxAttempts)
    ensures var run := FetchLoopRaising(selectAccount, fetch, mark, canMark, maxAttempts, attempts, lastError);
      && run.calls == [Call(account, result)]
      && run.marked == (if MarkRaised(Call(account, result), attempts, mark, canMark) then [account] else [])
      && run.sleeps == []
      && run.outcome == if Stops(result, attempts + 1, maxAttempts) then Ok(result) else Err(mark(attempts, account).value)
  {
  }

  /** A run that ends with a call that did not go on ends as specified. */
  lemma RaisingEndsAfterStop<E>(
    run: RaisingRun<E>, call: Call,
    selectAccount: nat -> Result<Option<ChartImgAccount>, E>,
    fetch: (nat, ChartImgAccount) -> Result<ChartApiResult, E>,
    mark: (nat, ChartImgAccount) -> Option<E>,
    canMark: bool, maxAttempts: int, attempts: nat, lastError: Option<ChartApiError>)
    requires run.calls == [call]
    requires !CallContinues(call, attempts, mark, canMark, maxAttempts)
    requires run.outcome == if Stops(call.result, attempts + 1, maxAttempts) then Ok(call.result) else Err(mark(attempts, call.account).value)
    ensures RaisingEndsAsSpecified(run, selectAccount, fetch, mark, canMark, maxAttempts, attempts, lastError)
  {
    assert run.calls[0] == call;
  }

  /** A run that makes no completed fetch ends as specified. */
  lemma RaisingEndsAtOnce<E>(
    selectAccount: nat -> Result<Option<ChartImgAccount>, E>,
    fetch: (nat, ChartImgAccount) -> Result<ChartApiResult, E>,
    mark: (nat, ChartImgAccount) -> Option<E>,
    canMark: bool, maxAttempts: int, attempts: nat, lastError: Option<ChartApiError>)
    requires !(attempts < maxAttempts && selectAccount(attempts).Ok? && selectAccount(attempts).value.Some?
               && fetch(attempts, selectAccount(attempts).value.value).Ok?)
    ensures RaisingEndsAsSpecified(FetchLoopRaising(selectAccount, fetch, mark, canMark, maxAttempts, attempts, lastError),
                                   selectAccount, fetch, mark, canMark, maxAttempts, attempts, lastError)
  {
  }

  lemma {:induction false} FetchLoopRaisingEnds<E>(
    selectAccount: nat -> Result<Option<ChartImgAccount>, E>,
    fetch: (nat, ChartImgAccount) -> Result<ChartApiResult, E>,
    mark: (nat, ChartImgAccount) -> Option<E>,
    canMark: bool, maxAttempts: int, attempts: nat, lastError: Option<ChartApiError>)
    ensures RaisingEndsAsSpecified(FetchLoopRaising(selectAccount, fetch, mark, canMark, maxAttempts, attempts, lastError),
                                   selectAccount, fetch, mark, canMark, maxAttempts, attempts, lastError)
    decreases maxAttempts - attempts
  {
    var run := FetchLoopRaising(selectAccount, fetch, mark, canMark, maxAttempts, attempts, lastError);
    if attempts < maxAttempts && selectAccount(attempts).Ok? && selectAccount(attempts).value.Some?
       && fetch(attempts, selectAccount(attempts).value.value).Ok? {
      var account := selectAccount(attempts).value.value;
      var result := fetch(attempts, account).value;
      var call := Call(account, result);
      if CallContinues(call, attempts, mark, canMark, maxAttempts) {
        FetchLoopRaisingEnds(selectAccount, fetch, mark, canMark, maxAttempts, attempts + 1, result.error);
        RaisingContinues(selectAccount, fetch, mark, canMark, maxAttempts, attempts, lastError, account, result);
        var rest := FetchLoopRaising(selectAccount, fetch, mark, canMark, maxAttempts, attempts + 1, result.error);
        RaisingEndsAsSpecifiedStep(run, rest, call, selectAccount, fetch, mark, canMark, maxAttempts, attempts, lastError);
      } else {
        RaisingStops(selectAccount, fetch, mark, canMark, maxAttempts, attempts, lastError, account, result);
        RaisingEndsAfterStop(run, call, selectAccount, fetch, mark, canMark, maxAttempts, attempts, lastError);
      }
    } else {
      RaisingEndsAtOnce(selectAccount, fetch, mark, canMark, maxAttempts, attempts, lastError);
    }
  }

  /** Marks and sleeps follow the calls made before any exception, as when nothing raises. */
  lemma {:induction false} FetchLoopRaisingMarksAndSleeps<E>(
    selectAccount: nat -> Result<Option<ChartImgAccount>, E>,
    fetch: (nat, ChartImgAccount) -> Result<ChartApiResult, E>,
    mark: (nat, ChartImgAccount) -> Option<E>,
    canMark: bool, maxAttempts: int, attempts: nat, lastError: Option<ChartApiError>)
    ensures var run := FetchLoopRaising(selectAccount, fetch, mark, canMark, maxAttempts, attempts, lastError);
      run.marked == (if canMark then QuotaAccounts(run.calls) else [])
      && run.sleeps == RetrySleeps(run.calls, attempts, maxAttempts)
    decreases maxAttempts - attempts
  {
    var run := FetchLoopRaising(selectAccount, fetch, mark, canMark, maxAttempts, attempts, lastError);
    if attempts < maxAttempts && selectAccount(attempts).Ok? && selectAccount(attempts).value.Some?
       && fetch(attempts, selectAccount(attempts).value.value).Ok? {
      var account := selectAccount(attempts).value.value;
      var result := fetch(attempts, account).value;
      var call := Call(account, result);
      if CallContinues(call, attempts, mark, canMark, maxAttempts) {
        FetchLoopRaisingMarksAndSleeps(selectAccount, fetch, mark, canMark, maxAttempts, attempts + 1, result.error);
        RaisingContinues(selectAccount, fetch, mark, canMark, maxAttempts, attempts, lastError, account, result);
        var rest := FetchLoopRaising(selectAccount, fetch, mark, canMark, maxAttempts, attempts + 1, result.error);
        MarksAndSleepsStep(run.calls, rest.calls, call, run.marked, rest.marked, run.sleeps, rest.sleeps, canMark, maxAttempts, attempts);
      } else {
        RaisingStops(selectAccount, fetch, mark, canMark, maxAttempts, attempts, lastError, account, result);
        MarksAndSleepsOfStop(run.calls, call, run.marked, run.sleeps, mark, canMark, maxAttempts, attempts);
      }
    }
  }

  /** Marks and sleeps of a call that went on, followed by a rest whose marks and sleeps follow its calls. */
  lemma MarksAndSleepsStep(
    calls: seq<Call>, restCalls: seq<Call>, call: Call,
    marked: seq<ChartImgAccount>, restMarked: seq<ChartImgAccount>, sleeps: seq<nat>, restSleeps: seq<nat>,
    canMark: bool, maxAttempts: int, attempts: nat)
    requires calls == [call] + restCalls
    requires !Stops(call.result, attempts + 1, maxAttempts)
    requires marked == (if canMark && IsQuotaError(call.result) then [call.account] else []) + restMarked
    requires sleeps == (if IsQuotaError(call.result) then [] else [attempts]) + restSleeps
    requires restMarked == (if canMark then QuotaAccounts(restCalls) else [])
    requires restSleeps == RetrySleeps(restCalls, attempts + 1, maxAttempts)
    ensures marked == (if canMark then QuotaAccounts(calls) else [])
    ensures sleeps == RetrySleeps(calls, attempts, maxAttempts)
  {
    assert calls[0] == call && calls[1..] == restCalls;
  }

  /** Marks and sleeps of a run that ends with its first call. */
  lemma MarksAndSleepsOfStop<E>(
    calls: seq<Call>, call: Call, marked: seq<ChartImgAccount>, sleeps: seq<nat>,
    mark: (nat, ChartImgAccount) -> Option<E>, canMark: bool, maxAttempts: int, attempts: nat)
    requires calls == [call]
    requires !CallContinues(call, attempts, mark, canMark, maxAttempts)
    requires marked == (if MarkRaised(call, attempts, mark, canMark) then [call.account] else [])
    requires sleeps == []
    ensures marked == (if canMark then QuotaAccounts(calls) else [])
    ensures sleeps == RetrySleeps(calls, attempts, maxAttempts)
  {
    assert calls[0] == call && calls[1..] == [];
  }

  /** With callbacks that never raise, the loop is `FetchLoop` over the values they return. */
  lemma {:induction false} FetchLoopRaisingWithoutRaises<E>(
    selectAccount: nat -> Result<Option<ChartImgAccount>, E>,
    fetch: (nat, ChartImgAccount) -> Result<ChartApiResult, E>,
    mark: (nat, ChartImgAccount) -> Option<E>,
    select: nat -> Option<ChartImgAccount>,
    fetched: (nat, ChartImgAccount) -> ChartApiResult,
    canMark: bool, maxAttempts: int, attempts: nat, lastError: Option<ChartApiError>)
    requires forall i :: selectAccount(i) == Ok(select(i))
    requires forall i, a :: fetch(i, a) == Ok(fetched(i, a))
    requires forall i, a :: mark(i, a).None?
    ensures var run := FetchLoopRaising(selectAccount, fetch, mark, canMark, maxAttempts, attempts, lastError);
      var plain := FetchLoop(select, fetched, canMark, maxAttempts, attempts, lastError);
      run.outcome == Ok(plain.result) && run.calls == plain.calls
      && run.marked == plain.marked && run.sleeps == plain.sleeps
    decreases maxAttempts - attempts
  {
    if attempts < maxAttempts && select(attempts).Some? {
      var account := select(attempts).value;
      var result := fetched(attempts, account);
      assert fetch(attempts, account) == Ok(result);
      if !result.ok && result.error.Some? {
        FetchLoopRaisingWithoutRaises(selectAccount, fetch, mark, select, fetched, canMark, maxAttempts, attempts + 1, result.error);
      }
    }
  }

  /**
   * `fetch_with_retries` with callbacks that may raise: the loop from its
   * first iteration, ending as `RaisingEndsAsSpecified` says, and agreeing
   * with `FetchWithRetries` when nothing raises.
   */
  function FetchWithRetriesRaising<E>(
    selectAccount: nat -> Result<Option<ChartImgAccount>, E>,
    fetch: (nat, ChartImgAccount) -> Result<ChartApiResult, E>,
    mark: (nat, ChartImgAccount) -> Option<E>,
    canMark: bool,
    maxAttempts: int): (run: RaisingRun<E>)
    ensures |run.calls| <= Max0(maxAttempts)
    ensures forall k :: 0 <= k < |run.calls| ==>
      selectAccount(k) == Ok(Some(run.calls[k].account)) && fetch(k, run.calls[k].account) == Ok(run.calls[k].result)
    ensures run.marked == if canMark then QuotaAccounts(run.calls) else []
    ensures run.sleeps == RetrySleeps(run.calls, 0, maxAttempts)
    ensures RaisingEndsAsSpecified(run, selectAccount, fetch, mark, canMark, maxAttempts, 0, None)
  {
    FetchLoopRaisingEnds(selectAccount, fetch, mark, canMark, maxAttempts, 0, None);
    FetchLoopRaisingMarksAndSleeps(selectAccount, fetch, mark, canMark, maxAttempts, 0, None);
    FetchLoopRaising(selectAccount, fetch, mark, canMark, maxAttempts, 0, None)
  }

  /** With callbacks that never raise, `FetchWithRetriesRaising` returns what `FetchWithRetries` does. */
  lemma FetchWithRetriesRaisingWithoutRaises<E>(
    selectAccount: nat -> Result<Option<ChartImgAccount>, E>,
    fetch: (nat, ChartImgAccount) -> Result<ChartApiResult, E>,
    mark: (nat, ChartImgAccount) -> Option<E>,
    select: nat -> Option<ChartImgAccount>,
    fetched: (nat, ChartImgAccount) -> ChartApiResult,
    canMark: bool, maxAttempts: int)
    requires forall i :: selectAccount(i) == Ok(select(i))
    requires forall i, a :: fetch(i, a) == Ok(fetched(i, a))
    requires forall i, a :: mark(i, a).None?
    ensures var run := FetchWithRetriesRaising(selectAccount, fetch, mark, canMark, maxAttempts);
      var plain := FetchWithRetries(select, fetched, canMark, maxAttempts);
      run.outcome == Ok(plain.result) && run.calls == plain.calls
      && run.marked == plain.marked && run.sleeps == plain.sleeps
  {
    FetchLoopRaisingWithoutRaises(selectAccount, fetch, mark, select, fetched, canMark, maxAttempts, 0, None);
  }

  /**
   * An exception from the first selection leaves the loop before any fetch,
   * mark or sleep.
   */
  lemma SelectionRaiseEndsLoop<E>(
    selectAccount: nat -> Result<Option<ChartImgAccount>, E>,
    fetch: (nat, ChartImgAccount) -> Result<ChartApiResult, E>,
    mark: (nat, ChartImgAccount) -> Option<E>,
    canMark: bool, maxAttempts: int, e: E)
    requires maxAttempts >= 1 && selectAccount(0) == Err(e)
    ensures FetchWithRetriesRaising(selectAccount, fetch, mark, canMark, maxAttempts) == RaisingRun(Err(e), [], [], [])
  {
  }
}
