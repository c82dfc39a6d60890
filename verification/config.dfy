/**
 * The validators of `WorkerConfig` (worker_chart_export/config.py): bucket
 * normalisation, the `CHARTS_API_MODE` check and the account list, taken
 * from the value `json.loads` produced.
 */
module Config {
  import opened Wrappers
  import opened Json
  import opened Strings

  /**
   * One Chart-IMG credential.  `dailyLimit` is the optional per-account quota
   * that the usage allocator reads; the account parser never sets it.
   */
  datatype ChartImgAccount = ChartImgAccount(id: string, apiKey: string, dailyLimit: Option<int>)

  datatype ChartsApiMode = Real | Mock | Record

  /** The `ConfigError`s the validators raise. */
  datatype ConfigError =
    | BucketHasPath
    | BucketEmpty
    | InvalidApiMode
    | AccountsNotArray
    | AccountNotObject(index: nat)
    | AccountIdInvalid(index: nat)
    | AccountApiKeyInvalid(index: nat)
    | DuplicateAccountId(id: string)
    | NoAccounts

  const GS_PREFIX: string := "gs://"

  /** `s.removeprefix(p)`. */
  function RemovePrefix(s: string, p: string): string {
    if StartsWith(s, p) then s[|p|..] else s
  }

  // ---------------------------------------------------------------------------
  // CHARTS_BUCKET
  // ---------------------------------------------------------------------------

  /** The bucket name inside a `CHARTS_BUCKET` value: stripped, one `gs://` removed. */
  function BucketNamePart(value: string): string {
    RemovePrefix(Strip(value), GS_PREFIX)
  }

  /** `WorkerConfig._normalize_gs_bucket`: the `/` check comes before the empty check. */
  function NormalizeGsBucket(value: string): (r: Result<string, ConfigError>)
    ensures r.Ok? ==>
      StartsWith(r.value, GS_PREFIX) && r.value[|GS_PREFIX|..] != "" && '/' !in r.value[|GS_PREFIX|..]
    ensures r.Err? ==> (r.error == BucketHasPath || r.error == BucketEmpty)
    ensures r == Err(BucketEmpty) <==> BucketNamePart(value) == ""
  {
    var v := BucketNamePart(value);
    if '/' in v then Err(BucketHasPath)
    else if v == "" then Err(BucketEmpty)
    else Ok(GS_PREFIX + v)
  }

  /** A bucket name that `BucketNamePart` returned is never whitespace-terminated. */
  lemma BucketNamePartEndsStripped(value: string)
    requires BucketNamePart(value) != ""
    ensures !IsSpace(BucketNamePart(value)[|BucketNamePart(value)| - 1])
  {
    var t := Strip(value);
    var v := BucketNamePart(value);
    assert v[|v| - 1] == t[|t| - 1];
  }

  /** Normalising an already-normalised bucket changes nothing. */
  lemma NormalizeGsBucketIdempotent(value: string)
    requires NormalizeGsBucket(value).Ok?
    ensures NormalizeGsBucket(NormalizeGsBucket(value).value) == NormalizeGsBucket(value)
  {
    var v := BucketNamePart(value);
    var out := GS_PREFIX + v;
    BucketNamePartEndsStripped(value);
    assert out[|out| - 1] == v[|v| - 1];
    assert IsStripped(out);
    assert Strip(out) == out;
    assert out[..|GS_PREFIX|] == GS_PREFIX;
    assert RemovePrefix(out, GS_PREFIX) == v;
  }

  // ---------------------------------------------------------------------------
  // CHARTS_API_MODE
  // ---------------------------------------------------------------------------

  function ModeName(m: ChartsApiMode): string {
    match m
    case Real => "real"
    case Mock => "mock"
    case Record => "record"
  }

  /**
   * The `CHARTS_API_MODE` check of `from_env`: an unset or empty variable
   * means `real`; otherwise the stripped value must name a mode.
   */
  function CheckApiMode(raw: Option<string>): (r: Result<ChartsApiMode, ConfigError>)
    ensures raw.None? || raw == Some("") ==> r == Ok(Real)
    ensures r.Ok? ==> ModeName(r.value) == Strip(if raw.None? || raw.value == "" then "real" else raw.value)
    ensures r.Err? ==> r.error == InvalidApiMode
  {
    var mode := Strip(if raw.None? || raw.value == "" then "real" else raw.value);
    if mode == "real" then Ok(Real)
    else if mode == "mock" then Ok(Mock)
    else if mode == "record" then Ok(Record)
    else Err(InvalidApiMode)
  }

  /** Every mode's own name (with any padding) is accepted, and nothing else. */
  lemma CheckApiModeAcceptsExactlyModeNames(raw: string, m: ChartsApiMode)
    requires raw != ""
    ensures CheckApiMode(Some(raw)) == Ok(m) <==> Strip(raw) == ModeName(m)
  {
  }

  // ---------------------------------------------------------------------------
  // CHART_IMG_ACCOUNTS_JSON
  // ---------------------------------------------------------------------------

  /** The string held under `key` in an object item, or "" for anything else. */
  function StrField(item: Json, key: string): string {
    if item.JObj? && Get(item.fields, key).JStr? then Get(item.fields, key).s else ""
  }

  /** An item the loop accepts on its own: an object with non-blank string `id` and `apiKey`. */
  predicate ValidItem(item: Json) {
    item.JObj? && IsNonBlankStr(Get(item.fields, "id")) && IsNonBlankStr(Get(item.fields, "apiKey"))
  }

  /** The first problem with `items[i]` on its own, if any; the index goes into the message. */
  function ItemProblem(item: Json, i: nat): (r: Option<ConfigError>)
    ensures r.None? <==> ValidItem(item)
  {
    if !item.JObj? then Some(AccountNotObject(i))
    else if !IsNonBlankStr(Get(item.fields, "id")) then Some(AccountIdInvalid(i))
    else if !IsNonBlankStr(Get(item.fields, "apiKey")) then Some(AccountApiKeyInvalid(i))
    else None
  }

  /** The account an item stands for. */
  function AccountOf(item: Json): ChartImgAccount {
    ChartImgAccount(StrField(item, "id"), StrField(item, "apiKey"), None)
  }

  function IdsOf(accounts: seq<ChartImgAccount>): seq<string> {
    seq(|accounts|, k requires 0 <= k < |accounts| => accounts[k].id)
  }

  /** The loop of `_parse_accounts_json` from index `i` on, with the ids seen so far. */
  function ParseItems(items: seq<Json>, i: nat, seen: set<string>): (r: Result<seq<ChartImgAccount>, ConfigError>)
    requires i <= |items|
    ensures r.Ok? ==> |r.value| == |items| - i
    ensures r.Ok? ==> forall k :: i <= k < |items| ==> ValidItem(items[k])
    ensures r.Ok? ==> forall k :: 0 <= k < |r.value| ==> r.value[k] == AccountOf(items[i + k])
    ensures r.Ok? ==> forall k :: i <= k < |items| ==> StrField(items[k], "id") !in seen
    ensures r.Ok? ==> forall j, k :: i <= j < k < |items| ==> StrField(items[j], "id") != StrField(items[k], "id")
    decreases |items| - i
  {
    if i == |items| then Ok([])
    else
      var problem := ItemProblem(items[i], i);
      if problem.Some? then Err(problem.value)
      else
        var id := StrField(items[i], "id");
        if id in seen then Err(DuplicateAccountId(id))
        else
          var rest := ParseItems(items, i + 1, seen + {id});
          if rest.Err? then rest
          else Ok([AccountOf(items[i])] + rest.value)
  }

  /** `WorkerConfig._parse_accounts_json` from the decoded value onward. */
  function ParseAccounts(data: Json): (r: Result<seq<ChartImgAccount>, ConfigError>)
    ensures r.Ok? ==> data.JArr? && |r.value| == |data.items| > 0
    ensures r.Ok? ==> forall k :: 0 <= k < |r.value| ==>
      ValidItem(data.items[k])
      && r.value[k].id == Get(data.items[k].fields, "id").s
      && r.value[k].apiKey == Get(data.items[k].fields, "apiKey").s
      && r.value[k].dailyLimit.None?
    ensures r.Ok? ==> Distinct(IdsOf(r.value))
    ensures !data.JArr? ==> r == Err(AccountsNotArray)
    ensures data == JArr([]) ==> r == Err(NoAccounts)
  {
    if !data.JArr? then Err(AccountsNotArray)
    else
      var parsed := ParseItems(data.items, 0, {});
      if parsed.Err? then parsed
      else if |parsed.value| == 0 then Err(NoAccounts)
      else parsed
  }

  /** Every item is valid on its own and no two items share an id. */
  predicate WellFormedAccountList(items: seq<Json>) {
    && |items| > 0
    && (forall k :: 0 <= k < |items| ==> ValidItem(items[k]))
    && (forall j, k :: 0 <= j < k < |items| ==> StrField(items[j], "id") != StrField(items[k], "id"))
  }

  lemma {:induction false} ParseItemsSucceedsOnWellFormed(items: seq<Json>, i: nat, seen: set<string>)
    requires i <= |items|
    requires forall k :: i <= k < |items| ==> ValidItem(items[k])
    requires forall j, k :: i <= j < k < |items| ==> StrField(items[j], "id") != StrField(items[k], "id")
    requires forall k :: i <= k < |items| ==> StrField(items[k], "id") !in seen
    ensures ParseItems(items, i, seen).Ok?
    decreases |items| - i
  {
    if i < |items| {
      var id := StrField(items[i], "id");
      forall k | i + 1 <= k < |items|
        ensures StrField(items[k], "id") !in seen + {id}
      {
        assert StrField(items[i], "id") != StrField(items[k], "id");
      }
      ParseItemsSucceedsOnWellFormed(items, i + 1, seen + {id});
    }
  }

  /** The parser accepts exactly the well-formed account lists. */
  lemma ParseAccountsAcceptsExactlyWellFormed(data: Json)
    ensures ParseAccounts(data).Ok? <==> data.JArr? && WellFormedAccountList(data.items)
  {
    if data.JArr? && WellFormedAccountList(data.items) {
      ParseItemsSucceedsOnWellFormed(data.items, 0, {});
    }
    if ParseAccounts(data).Ok? {
      var accs := ParseAccounts(data).value;
      var items := data.items;
    }
  }
}
