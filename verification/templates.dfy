/**
 * Building the Chart-IMG requests of a chart-export step
 * (worker_chart_export/templates.py): validation of the requested list,
 * parsing of a chart template, `{symbol}` substitution and the assembly of
 * each request payload, with one item or one failure per request.
 *
 * The template store is a map from template id to the stored document; an
 * absent id is a template that does not exist.
 */
module Templates {
  import opened Wrappers
  import opened Json
  import opened Strings
  import Orchestration
  import opened Outcomes

  type StepError = Orchestration.StepError

  /** One entry of the step's `requests` list. */
  type Request = map<string, Json>

  /** `ChartTemplateStore.get`: the stored document of each existing template. */
  type TemplateStore = map<string, map<string, Json>>

  const VALIDATION_FAILED: string := "VALIDATION_FAILED"
  const PLACEHOLDER: string := "{symbol}"

  datatype ChartTemplate = ChartTemplate(chartTemplateId: string, description: string, symbolTemplate: string, request: map<string, Json>)

  datatype BuiltChartRequest = BuiltChartRequest(
    chartTemplateId: string, kind: string, chartImgSymbol: string, interval: string, request: map<string, Json>)

  datatype RequestFailure = RequestFailure(chartTemplateId: string, error: StepError)

  datatype BuildRequestsResult = BuildRequestsResult(
    items: seq<BuiltChartRequest>, failures: seq<RequestFailure>, validationError: Option<StepError>)

  /** What one request turns into: an item or a failure. */
  type RequestOutcome = Outcome<BuiltChartRequest, RequestFailure>

  function Invalid(message: string, details: Option<map<string, Json>>): StepError {
    Orchestration.StepError(VALIDATION_FAILED, message, details)
  }

  function TemplateDetails(chartTemplateId: string): Option<map<string, Json>> {
    Some(map["chartTemplateId" := JStr(chartTemplateId)])
  }

  function StrItems(xs: seq<string>): seq<Json> {
    seq(|xs|, i requires 0 <= i < |xs| => JStr(xs[i]))
  }

  // ---------------------------------------------------------------------------
  // validate_requests
  // ---------------------------------------------------------------------------

  /** The `chartTemplateId` of a request when it is a string, blank or not. */
  function RequestedId(req: Request): Option<string> {
    AsStr(Get(req, "chartTemplateId"))
  }

  /** `id` is the string id of two different requests. */
  ghost predicate IsDuplicated(requests: seq<Request>, id: string) {
    exists i, j :: 0 <= i < j < |requests| && RequestedId(requests[i]) == Some(id) && RequestedId(requests[j]) == Some(id)
  }

  /** The loop's `seen` set. */
  function SeenIds(requests: seq<Request>): set<string> {
    set i | 0 <= i < |requests| && RequestedId(requests[i]).Some? :: RequestedId(requests[i]).value
  }

  /** The loop's `duplicates` set, listed in the order the second occurrences are met. */
  function Duplicates(requests: seq<Request>): (d: seq<string>)
    ensures Distinct(d)
    decreases |requests|
  {
    if |requests| == 0 then []
    else
      var init := requests[..|requests| - 1];
      var rest := Duplicates(init);
      var id := RequestedId(requests[|requests| - 1]);
      if id.Some? && id.value in SeenIds(init) && id.value !in rest then rest + [id.value] else rest
  }

  /** Extending the list by one request adds a duplicate exactly when its id was already seen. */
  lemma DuplicatedInExtension(requests: seq<Request>, id: string)
    requires |requests| > 0
    ensures var init := requests[..|requests| - 1];
      IsDuplicated(requests, id) <==>
        IsDuplicated(init, id) || (RequestedId(requests[|requests| - 1]) == Some(id) && id in SeenIds(init))
  {
    var n := |requests|;
    var init := requests[..n - 1];
    if IsDuplicated(requests, id) {
      var i, j :| 0 <= i < j < n && RequestedId(requests[i]) == Some(id) && RequestedId(requests[j]) == Some(id);
      if j < n - 1 {
        assert init[i] == requests[i] && init[j] == requests[j];
      } else {
        assert init[i] == requests[i];
        assert RequestedId(init[i]).value in SeenIds(init);
      }
    }
    if IsDuplicated(init, id) {
      var i, j :| 0 <= i < j < n - 1 && RequestedId(init[i]) == Some(id) && RequestedId(init[j]) == Some(id);
      assert requests[i] == init[i] && requests[j] == init[j];
    }
    if RequestedId(requests[n - 1]) == Some(id) && id in SeenIds(init) {
      var i :| 0 <= i < n - 1 && RequestedId(init[i]).Some? && RequestedId(init[i]).value == id;
      assert requests[i] == init[i];
    }
  }

  /** The duplicates the scan collects are exactly the ids shared by two requests. */
  lemma {:induction false} DuplicatesAreRepeatedIds(requests: seq<Request>)
    ensures forall id :: id in Duplicates(requests) <==> IsDuplicated(requests, id)
    decreases |requests|
  {
    if |requests| > 0 {
      var init := requests[..|requests| - 1];
      DuplicatesAreRepeatedIds(init);
      forall id
        ensures id in Duplicates(requests) <==> IsDuplicated(requests, id)
      {
        DuplicatedInExtension(requests, id);
      }
    } else {
      forall id
        ensures !IsDuplicated(requests, id)
      {
      }
    }
  }

  /** `sorted(duplicates)`. */
  function DuplicateReport(requests: seq<Request>): seq<string> {
    SortDistinct(Duplicates(requests))
  }

  /** The reported ids are strictly increasing and are exactly the repeated ids. */
  lemma DuplicateReportIsSortedRepeats(requests: seq<Request>)
    ensures StrictlySorted(DuplicateReport(requests))
    ensures forall id :: id in DuplicateReport(requests) <==> IsDuplicated(requests, id)
  {
    DuplicatesAreRepeatedIds(requests);
    var report := DuplicateReport(requests);
    assert Elems(report) == Elems(Duplicates(requests));
    forall id
      ensures id in report <==> id in Duplicates(requests)
    {
      assert id in report <==> id in Elems(report);
      assert id in Duplicates(requests) <==> id in Elems(Duplicates(requests));
    }
  }

  predicate TooFewRequests(requests: seq<Request>, minImages: Option<int>) {
    minImages.Some? && minImages.value > |requests|
  }

  /**
   * `validate_requests`: `minImages` above the number of requests is reported
   * first; then any id shared by two requests, with the sorted list of such ids.
   */
  function ValidateRequests(requests: seq<Request>, minImages: Option<int>): (r: Option<StepError>)
    ensures r.Some? ==> r.value.code == VALIDATION_FAILED
    ensures TooFewRequests(requests, minImages) ==>
      r.Some? && r.value.details == Some(map["minImages" := JInt(minImages.value), "requestsCount" := JInt(|requests|)])
    ensures r.None? <==> !TooFewRequests(requests, minImages) && forall id :: !IsDuplicated(requests, id)
    ensures r.Some? && !TooFewRequests(requests, minImages) ==>
      r.value.details == Some(map["chartTemplateIds" := JArr(StrItems(DuplicateReport(requests)))])
  {
    DuplicatesAreRepeatedIds(requests);
    if TooFewRequests(requests, minImages) then
      Some(Invalid("minImages cannot exceed number of requests",
        Some(map["minImages" := JInt(minImages.value), "requestsCount" := JInt(|requests|)])))
    else if Duplicates(requests) != [] then
      assert Duplicates(requests)[0] in Duplicates(requests);
      Some(Invalid("Duplicate chartTemplateId values in requests",
        Some(map["chartTemplateIds" := JArr(StrItems(DuplicateReport(requests)))])))
    else None
  }

  // ---------------------------------------------------------------------------
  // Scope symbol, template id, template document, symbol rendering
  // ---------------------------------------------------------------------------

  /** `_is_valid_scope_symbol`: after stripping, non-empty, without `/` and without whitespace. */
  predicate IsValidScopeSymbol(scopeSymbol: string) {
    var t := Strip(scopeSymbol);
    t != "" && '/' !in t && forall i :: 0 <= i < |t| ==> !IsSpace(t[i])
  }

  /** A symbol with no whitespace at all is valid exactly when it is non-empty and has no `/`. */
  lemma ScopeSymbolWithoutSpaces(scopeSymbol: string)
    requires forall i :: 0 <= i < |scopeSymbol| ==> !IsSpace(scopeSymbol[i])
    ensures IsValidScopeSymbol(scopeSymbol) <==> scopeSymbol != "" && '/' !in scopeSymbol
  {
    assert IsStripped(scopeSymbol);
  }

  /** Surrounding whitespace never changes the verdict, and inner whitespace always makes a symbol invalid. */
  lemma ScopeSymbolSurroundingSpace(pre: string, core: string, post: string)
    requires AllSpace(pre) && AllSpace(post) && IsStripped(core)
    ensures IsValidScopeSymbol(pre + core + post) <==> IsValidScopeSymbol(core)
  {
    StripAround(pre, core, post);
  }

  /** `_extract_chart_template_id`: the id when it is a string that is not blank. */
  function ExtractChartTemplateId(req: Request): (r: Option<string>)
    ensures r.Some? <==> IsNonBlankStr(Get(req, "chartTemplateId"))
    ensures r.Some? ==> RequestedId(req) == r
  {
    var id := Get(req, "chartTemplateId");
    if IsNonBlankStr(id) then Some(id.s) else None
  }

  /**
   * `parse_chart_template`: the description, then the symbol template, must be
   * non-blank strings, and then `request` must be a map.
   */
  function ParseChartTemplate(raw: map<string, Json>, chartTemplateId: string): (r: Result<ChartTemplate, StepError>)
    ensures r.Ok? <==>
      IsNonBlankStr(Get(raw, "description")) && IsNonBlankStr(Get(raw, "chartImgSymbolTemplate")) && Get(raw, "request").JObj?
    ensures r.Ok? ==> r.value.chartTemplateId == chartTemplateId && !IsBlank(r.value.description) && !IsBlank(r.value.symbolTemplate)
    ensures r.Err? ==> r.error.code == VALIDATION_FAILED && r.error.details == TemplateDetails(chartTemplateId)
    ensures !IsNonBlankStr(Get(raw, "description")) ==>
      r.Err? && r.error.message == "Template description must be a non-empty string"
    ensures IsNonBlankStr(Get(raw, "description")) && !IsNonBlankStr(Get(raw, "chartImgSymbolTemplate")) ==>
      r.Err? && r.error.message == "chartImgSymbolTemplate is required"
    ensures (IsNonBlankStr(Get(raw, "description")) && IsNonBlankStr(Get(raw, "chartImgSymbolTemplate"))
             && !Get(raw, "request").JObj?) ==>
      r.Err? && r.error.message == "Template request must be an object"
    ensures r.Ok? ==> r.value == ChartTemplate(chartTemplateId, Get(raw, "description").s,
                                               Get(raw, "chartImgSymbolTemplate").s, Get(raw, "request").fields)
  {
    var description := Get(raw, "description");
    var symbolTemplate := Get(raw, "chartImgSymbolTemplate");
    var request := Get(raw, "request");
    if !IsNonBlankStr(description) then
      Err(Invalid("Template description must be a non-empty string", TemplateDetails(chartTemplateId)))
    else if !IsNonBlankStr(symbolTemplate) then
      Err(Invalid("chartImgSymbolTemplate is required", TemplateDetails(chartTemplateId)))
    else if !request.JObj? then
      Err(Invalid("Template request must be an object", TemplateDetails(chartTemplateId)))
    else Ok(ChartTemplate(chartTemplateId, description.s, symbolTemplate.s, request.fields))
  }

  /** The stored document of a template: the fields the template importer writes. */
  function TemplateDoc(t: ChartTemplate): map<string, Json> {
    map[
      "id" := JStr(t.chartTemplateId),
      "description" := JStr(t.description),
      "chartImgSymbolTemplate" := JStr(t.symbolTemplate),
      "request" := JObj(t.request)
    ]
  }

  /** A template with non-blank texts is read back from its stored document unchanged. */
  lemma ParseTemplateDoc(t: ChartTemplate)
    requires !IsBlank(t.description) && !IsBlank(t.symbolTemplate)
    ensures ParseChartTemplate(TemplateDoc(t), t.chartTemplateId) == Ok(t)
  {
    var d := TemplateDoc(t);
    assert Get(d, "description") == JStr(t.description);
    assert Get(d, "chartImgSymbolTemplate") == JStr(t.symbolTemplate);
    assert Get(d, "request") == JObj(t.request);
  }

  /** `render_chart_img_symbol`: None without a `{symbol}`; otherwise every occurrence is replaced. */
  function RenderSymbol(symbolTemplate: string, scopeSymbol: string): (r: Option<string>)
    ensures r.None? <==> !Contains(symbolTemplate, PLACEHOLDER)
  {
    if !Contains(symbolTemplate, PLACEHOLDER) then None
    else Some(Replace(symbolTemplate, PLACEHOLDER, scopeSymbol))
  }

  /** No `{symbol}` can start inside a text without `{`. */
  lemma PlaceholderNotBefore(a: string)
    requires '{' !in a
    ensures forall j :: 0 <= j < |a| ==> !OccursAt(a + PLACEHOLDER, PLACEHOLDER, j)
  {
    forall j | 0 <= j < |a|
      ensures !OccursAt(a + PLACEHOLDER, PLACEHOLDER, j)
    {
      assert (a + PLACEHOLDER)[j] == a[j];
      assert PLACEHOLDER[0] == '{';
    }
  }

  /**
   * A template `a{symbol}b` with no `{` in `a` renders as `a`, the scope
   * symbol, then `b` with its own placeholders replaced.
   */
  lemma RenderSubstitutes(a: string, b: string, scopeSymbol: string)
    requires '{' !in a
    ensures RenderSymbol(a + PLACEHOLDER + b, scopeSymbol) == Some(a + scopeSymbol + Replace(b, PLACEHOLDER, scopeSymbol))
  {
    var s := a + PLACEHOLDER + b;
    assert s[|a|..|a| + |PLACEHOLDER|] == PLACEHOLDER;
    assert OccursAt(s, PLACEHOLDER, |a|);
    PlaceholderNotBefore(a);
    ReplaceAtFirst(a, PLACEHOLDER, b, scopeSymbol);
  }

  /** With a single placeholder the rest of the template is kept verbatim. */
  lemma RenderSinglePlaceholder(a: string, b: string, scopeSymbol: string)
    requires '{' !in a && !Contains(b, PLACEHOLDER)
    ensures RenderSymbol(a + PLACEHOLDER + b, scopeSymbol) == Some(a + scopeSymbol + b)
  {
    RenderSubstitutes(a, b, scopeSymbol);
    ReplaceAbsent(b, PLACEHOLDER, scopeSymbol);
  }

  // ---------------------------------------------------------------------------
  // build_chart_requests
  // ---------------------------------------------------------------------------

  /**
   * An item built from its stored template: the symbol rendered from the
   * template, `kind` the description, and the payload the template's request
   * with `symbol`, `interval` and `timezone` overwritten.
   */
  ghost predicate AssembledFrom(item: BuiltChartRequest, store: TemplateStore, scopeSymbol: string, timeframe: string, timezone: string) {
    && item.chartTemplateId in store
    && var t := ParseChartTemplate(store[item.chartTemplateId], item.chartTemplateId);
    && t.Ok?
    && RenderSymbol(t.value.symbolTemplate, scopeSymbol) == Some(item.chartImgSymbol)
    && item.kind == t.value.description
    && item.interval == timeframe
    && item.request.Keys == t.value.request.Keys + {"symbol", "interval", "timezone"}
    && item.request["symbol"] == JStr(item.chartImgSymbol)
    && item.request["interval"] == JStr(timeframe)
    && item.request["timezone"] == JStr(timezone)
    && forall k :: k in t.value.request && k !in {"symbol", "interval", "timezone"} ==> item.request[k] == t.value.request[k]
  }

  /** One pass of the request loop. */
  function BuildOne(req: Request, scopeSymbol: string, timeframe: string, timezone: string, store: TemplateStore): (o: RequestOutcome)
    ensures ExtractChartTemplateId(req).None? ==>
      o == Failure(RequestFailure("", Invalid("chartTemplateId is required", None)))
    ensures ExtractChartTemplateId(req).Some? && o.Failure? ==> o.failure.chartTemplateId == ExtractChartTemplateId(req).value
    ensures o.Failure? ==> o.failure.error.code == VALIDATION_FAILED
    ensures o.Item? ==> ExtractChartTemplateId(req) == Some(o.item.chartTemplateId)
    ensures o.Item? ==> AssembledFrom(o.item, store, scopeSymbol, timeframe, timezone)
    ensures ExtractChartTemplateId(req).Some? && ExtractChartTemplateId(req).value !in store ==>
      o.Failure? && o.failure.error.message == "Chart template not found"
    ensures var id := ExtractChartTemplateId(req);
      id.Some? && id.value in store ==>
        var parsed := ParseChartTemplate(store[id.value], id.value);
        && (parsed.Err? ==> o == Failure(RequestFailure(id.value, parsed.error)))
        && (parsed.Ok? ==> (o.Item? <==> Contains(parsed.value.symbolTemplate, PLACEHOLDER)))
        && (parsed.Ok? && o.Failure? ==>
              o.failure.error == Invalid("chartImgSymbolTemplate must include {symbol}", TemplateDetails(id.value)))
  {
    var id := ExtractChartTemplateId(req);
    if id.None? then Failure(RequestFailure("", Invalid("chartTemplateId is required", None)))
    else if id.value !in store then
      Failure(RequestFailure(id.value, Invalid("Chart template not found", TemplateDetails(id.value))))
    else
      var parsed := ParseChartTemplate(store[id.value], id.value);
      if parsed.Err? then Failure(RequestFailure(id.value, parsed.error))
      else
        var symbol := RenderSymbol(parsed.value.symbolTemplate, scopeSymbol);
        if symbol.None? then
          Failure(RequestFailure(id.value, Invalid("chartImgSymbolTemplate must include {symbol}", TemplateDetails(id.value))))
        else
          var payload := parsed.value.request["symbol" := JStr(symbol.value)]["interval" := JStr(timeframe)]["timezone" := JStr(timezone)];
          Item(BuiltChartRequest(id.value, parsed.value.description, symbol.value, timeframe, payload))
  }

  /** The per-request outcomes, in request order. */
  function RequestOutcomes(requests: seq<Request>, scopeSymbol: string, timeframe: string, timezone: string, store: TemplateStore): (os: seq<RequestOutcome>)
    ensures |os| == |requests|
  {
    seq(|requests|, i requires 0 <= i < |requests| => BuildOne(requests[i], scopeSymbol, timeframe, timezone, store))
  }

  /**
   * `build_chart_requests`: a validation error, or an invalid scope symbol,
   * ends the step with no items and no failures; otherwise every request
   * contributes to `items` or to `failures`, in request order.
   */
  function BuildChartRequests(requests: seq<Request>, scopeSymbol: string, timeframe: string, timezone: string,
                              store: TemplateStore, minImages: Option<int>): (r: BuildRequestsResult)
    ensures r.validationError.Some? ==> r.items == [] && r.failures == []
    ensures ValidateRequests(requests, minImages).Some? ==> r.validationError == ValidateRequests(requests, minImages)
    ensures r.validationError.None? <==> ValidateRequests(requests, minImages).None? && IsValidScopeSymbol(scopeSymbol)
    ensures r.validationError.Some? ==> r.validationError.value.code == VALIDATION_FAILED
  {
    var invalid := ValidateRequests(requests, minImages);
    if invalid.Some? then BuildRequestsResult([], [], invalid)
    else if !IsValidScopeSymbol(scopeSymbol) then
      BuildRequestsResult([], [], Some(Invalid("scope.symbol must be a non-empty base symbol without '/'",
        Some(map["scopeSymbol" := JStr(scopeSymbol)]))))
    else
      var os := RequestOutcomes(requests, scopeSymbol, timeframe, timezone, store);
      BuildRequestsResult(Items(os), Failures(os), None)
  }

  /** Without a validation error every request yields exactly one item or one failure. */
  lemma EveryRequestAccounted(requests: seq<Request>, scopeSymbol: string, timeframe: string, timezone: string,
                              store: TemplateStore, minImages: Option<int>)
    ensures var r := BuildChartRequests(requests, scopeSymbol, timeframe, timezone, store, minImages);
      r.validationError.None? ==> |r.items| + |r.failures| == |requests|
  {
    ItemsAndFailuresPartition(RequestOutcomes(requests, scopeSymbol, timeframe, timezone, store));
  }

  /** A request naming a stored template that parses and holds `{symbol}`. */
  predicate Buildable(req: Request, store: TemplateStore) {
    var id := ExtractChartTemplateId(req);
    && id.Some? && id.value in store
    && var parsed := ParseChartTemplate(store[id.value], id.value);
    && parsed.Ok? && Contains(parsed.value.symbolTemplate, PLACEHOLDER)
  }

  /**
   * When the requests validate and the scope symbol is valid, requests that
   * all name buildable templates give one item each, in request order, and
   * no failure.
   */
  lemma BuildableRequestsAllBuild(requests: seq<Request>, scopeSymbol: string, timeframe: string, timezone: string,
                                  store: TemplateStore, minImages: Option<int>)
    requires ValidateRequests(requests, minImages).None? && IsValidScopeSymbol(scopeSymbol)
    requires forall i :: 0 <= i < |requests| ==> Buildable(requests[i], store)
    ensures var r := BuildChartRequests(requests, scopeSymbol, timeframe, timezone, store, minImages);
      && r.validationError.None? && r.failures == [] && |r.items| == |requests|
      && forall i :: 0 <= i < |requests| ==> Some(r.items[i].chartTemplateId) == ExtractChartTemplateId(requests[i])
  {
    var os := RequestOutcomes(requests, scopeSymbol, timeframe, timezone, store);
    forall i | 0 <= i < |os|
      ensures os[i].Item? && Some(os[i].item.chartTemplateId) == ExtractChartTemplateId(requests[i])
    {
      assert Buildable(requests[i], store);
    }
    NoFailureKeepsAll(os);
  }

  /** Every item is assembled from its stored template, and every failure is a validation failure. */
  lemma BuiltItemsAreAssembled(requests: seq<Request>, scopeSymbol: string, timeframe: string, timezone: string,
                               store: TemplateStore, minImages: Option<int>)
    ensures var r := BuildChartRequests(requests, scopeSymbol, timeframe, timezone, store, minImages);
      && (forall it :: it in r.items ==> AssembledFrom(it, store, scopeSymbol, timeframe, timezone))
      && (forall f :: f in r.failures ==> f.error.code == VALIDATION_FAILED)
  {
    var os := RequestOutcomes(requests, scopeSymbol, timeframe, timezone, store);
    ListedOutcomesOccur(os);
    forall it | it in Items(os)
      ensures AssembledFrom(it, store, scopeSymbol, timeframe, timezone)
    {
      var i :| 0 <= i < |os| && os[i] == Item(it);
    }
    forall f | f in Failures(os)
      ensures f.error.code == VALIDATION_FAILED
    {
      var i :| 0 <= i < |os| && os[i] == Failure(f);
    }
  }

  /** Item ids taken from two distinct outcomes differ, for any pair of listed items. */
  lemma {:induction false} ItemIdsDistinct(outcomes: seq<RequestOutcome>)
    requires forall i, j :: 0 <= i < j < |outcomes| && outcomes[i].Item? && outcomes[j].Item? ==>
      outcomes[i].item.chartTemplateId != outcomes[j].item.chartTemplateId
    ensures forall a, b :: 0 <= a < b < |Items(outcomes)| ==> Items(outcomes)[a].chartTemplateId != Items(outcomes)[b].chartTemplateId
  {
    if |outcomes| > 0 {
      var tail := outcomes[1..];
      ItemIdsDistinct(tail);
      if outcomes[0].Item? {
        ListedOutcomesOccur(tail);
        var items := Items(outcomes);
        assert items == [outcomes[0].item] + Items(tail);
        forall b | 0 < b < |items|
          ensures items[0].chartTemplateId != items[b].chartTemplateId
        {
          assert items[b] in Items(tail);
          var k :| 0 <= k < |tail| && tail[k] == Item(items[b]);
          assert outcomes[k + 1] == tail[k];
        }
      }
    }
  }

  /** A request list that passed validation yields items whose template ids are pairwise different. */
  lemma ValidatedItemsHaveDistinctIds(requests: seq<Request>, scopeSymbol: string, timeframe: string, timezone: string,
                                      store: TemplateStore, minImages: Option<int>)
    ensures var r := BuildChartRequests(requests, scopeSymbol, timeframe, timezone, store, minImages);
      forall a, b :: 0 <= a < b < |r.items| ==> r.items[a].chartTemplateId != r.items[b].chartTemplateId
  {
    if ValidateRequests(requests, minImages).None? && IsValidScopeSymbol(scopeSymbol) {
      var os := RequestOutcomes(requests, scopeSymbol, timeframe, timezone, store);
      forall i, j | 0 <= i < j < |os| && os[i].Item? && os[j].Item?
        ensures os[i].item.chartTemplateId != os[j].item.chartTemplateId
      {
        var id := os[i].item.chartTemplateId;
        assert RequestedId(requests[i]) == Some(id);
        assert RequestedId(requests[j]) == Some(os[j].item.chartTemplateId);
        assert !IsDuplicated(requests, id);
      }
      ItemIdsDistinct(os);
    }
  }
}
