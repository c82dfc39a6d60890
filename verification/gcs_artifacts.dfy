/**
 * Where the chart-export step puts its artifacts in Cloud Storage
 * (worker_chart_export/gcs_artifacts.py): the bucket argument, the PNG and
 * manifest object paths, `gs://` URIs, the per-input split of PNG uploads
 * into items and failures, and the shape of the outputs manifest.
 *
 * An upload is an oracle outcome: None when it succeeded, or the class name
 * of the exception it raised.
 */
module GcsArtifacts {
  import opened Wrappers
  import opened Json
  import opened Strings
  import opened Outcomes
  import Config
  import Orchestration

  type StepError = Orchestration.StepError

  const GS_PREFIX: string := "gs://"
  const GCS_WRITE_FAILED: string := "GCS_WRITE_FAILED"
  const MANIFEST_WRITE_FAILED: string := "MANIFEST_WRITE_FAILED"

  /** The `ValueError` of `_parse_gs_bucket`. */
  datatype BucketError = NotABucket

  // ---------------------------------------------------------------------------
  // Buckets and URIs
  // ---------------------------------------------------------------------------

  /** `_parse_gs_bucket`: strip, remove one `gs://`, and refuse an empty name or one with `/`. */
  function ParseGsBucket(value: string): (r: Result<string, BucketError>)
    ensures r.Ok? ==> r.value != "" && '/' !in r.value
    ensures r.Ok? <==> Config.BucketNamePart(value) != "" && '/' !in Config.BucketNamePart(value)
  {
    var bucket := Config.RemovePrefix(Strip(value), GS_PREFIX);
    if bucket == "" || '/' in bucket then Err(NotABucket) else Ok(bucket)
  }

  /**
   * The configuration's normalisation accepts exactly the values the
   * artifact writer accepts, and adds `gs://` to the same bucket name.
   */
  lemma NormalizeAgreesWithParse(value: string)
    ensures Config.NormalizeGsBucket(value).Ok? <==> ParseGsBucket(value).Ok?
    ensures ParseGsBucket(value).Ok? ==> Config.NormalizeGsBucket(value) == Ok(GS_PREFIX + ParseGsBucket(value).value)
  {
  }

  /** A bucket given as `gs://` plus a parsed name parses back to that name. */
  lemma ParseOfGsBucket(value: string)
    requires ParseGsBucket(value).Ok?
    ensures ParseGsBucket(GS_PREFIX + ParseGsBucket(value).value) == ParseGsBucket(value)
  {
    Config.NormalizeGsBucketIdempotent(value);
  }

  /** `gs_uri`: the parsed bucket, a `/`, then the object path. */
  function GsUri(bucketGs: string, objectPath: string): (r: Result<string, BucketError>)
    ensures r.Ok? <==> ParseGsBucket(bucketGs).Ok?
    ensures r.Ok? ==> StartsWith(r.value, GS_PREFIX) && EndsWith(r.value, objectPath)
  {
    var bucket := ParseGsBucket(bucketGs);
    if bucket.Err? then Err(bucket.error) else Ok(GS_PREFIX + bucket.value + "/" + objectPath)
  }

  /** Reads a `gs://bucket/path` URI back into its bucket and object path. */
  function SplitGsUri(uri: string): Option<(string, string)> {
    if !StartsWith(uri, GS_PREFIX) then None
    else
      var parts := Split(uri[|GS_PREFIX|..], '/');
      if |parts| == 1 then None else Some((parts[0], Join(parts[1..], "/")))
  }

  /** A URI made by `GsUri` names the parsed bucket and the object path it was given. */
  lemma SplitGsUriOfGsUri(bucketGs: string, objectPath: string)
    requires ParseGsBucket(bucketGs).Ok?
    ensures SplitGsUri(GsUri(bucketGs, objectPath).value) == Some((ParseGsBucket(bucketGs).value, objectPath))
  {
    var bucket := ParseGsBucket(bucketGs).value;
    assert GsUri(bucketGs, objectPath).value == GS_PREFIX + bucket + "/" + objectPath;
    SplitGsUriOfParts(bucket, objectPath);
  }

  lemma SplitGsUriOfParts(bucket: string, objectPath: string)
    requires '/' !in bucket
    ensures SplitGsUri(GS_PREFIX + bucket + "/" + objectPath) == Some((bucket, objectPath))
  {
    var uri := GS_PREFIX + bucket + "/" + objectPath;
    assert uri[..|GS_PREFIX|] == GS_PREFIX;
    assert uri[|GS_PREFIX|..] == bucket + ['/'] + objectPath;
    SplitAtFirst(bucket, '/', objectPath);
    JoinSplit(objectPath, '/');
  }

  // ---------------------------------------------------------------------------
  // Object paths
  // ---------------------------------------------------------------------------

  /** `build_png_object_path`: `runs/{run}/charts/{tf}/{tpl}/{stamp}_{slug}_{tf}_{tpl}.png`. */
  function PngObjectPath(runId: string, timeframe: string, chartTemplateId: string, stamp: string, symbolSlug: string): string {
    Join(PngPathParts(runId, timeframe, chartTemplateId, stamp, symbolSlug), "/")
  }

  function PngPathParts(runId: string, timeframe: string, chartTemplateId: string, stamp: string, symbolSlug: string): seq<string> {
    ["runs", runId, "charts", timeframe, chartTemplateId,
     stamp + "_" + symbolSlug + "_" + timeframe + "_" + chartTemplateId + ".png"]
  }

  /** `build_manifest_object_path`: `runs/{run}/steps/{step}/charts/manifest.json`. */
  function ManifestObjectPath(runId: string, stepId: string): string {
    Join(ManifestPathParts(runId, stepId), "/")
  }

  function ManifestPathParts(runId: string, stepId: string): seq<string> {
    ["runs", runId, "steps", stepId, "charts", "manifest.json"]
  }

  /** The segments of a PNG path, when the names in it contain no `/`. */
  lemma PngPathSegments(runId: string, timeframe: string, chartTemplateId: string, stamp: string, symbolSlug: string)
    requires '/' !in runId && '/' !in timeframe && '/' !in chartTemplateId && '/' !in stamp && '/' !in symbolSlug
    ensures Split(PngObjectPath(runId, timeframe, chartTemplateId, stamp, symbolSlug), '/') ==
      PngPathParts(runId, timeframe, chartTemplateId, stamp, symbolSlug)
  {
    var parts := PngPathParts(runId, timeframe, chartTemplateId, stamp, symbolSlug);
    assert '/' !in parts[5];
    SplitJoin(parts, '/');
  }

  /** The segments of a manifest path, when the run and step ids contain no `/`. */
  lemma ManifestPathSegments(runId: string, stepId: string)
    requires '/' !in runId && '/' !in stepId
    ensures Split(ManifestObjectPath(runId, stepId), '/') == ManifestPathParts(runId, stepId)
  {
    SplitJoin(ManifestPathParts(runId, stepId), '/');
  }

  /** Different steps never share a manifest object (for ids without `/`). */
  lemma ManifestPathsIdentifyStep(runId: string, stepId: string, runId': string, stepId': string)
    requires '/' !in runId && '/' !in stepId && '/' !in runId' && '/' !in stepId'
    requires ManifestObjectPath(runId, stepId) == ManifestObjectPath(runId', stepId')
    ensures runId == runId' && stepId == stepId'
  {
    ManifestPathSegments(runId, stepId);
    ManifestPathSegments(runId', stepId');
    var parts := Split(ManifestObjectPath(runId, stepId), '/');
    assert parts[1] == runId && parts[1] == runId';
    assert parts[3] == stepId && parts[3] == stepId';
  }

  // ---------------------------------------------------------------------------
  // upload_pngs
  // ---------------------------------------------------------------------------

  /** `GcsUploader`: the bucket name it parsed when it was made. */
  datatype GcsUploader = GcsUploader(bucketName: string)

  /** `GcsUploader.bucket_gs`. */
  function BucketGs(u: GcsUploader): string {
    GS_PREFIX + u.bucketName
  }

  /** `GcsUploader(...)`: fails where `_parse_gs_bucket` fails. */
  function NewUploader(bucketGs: string): (r: Result<GcsUploader, BucketError>)
    ensures r.Ok? <==> ParseGsBucket(bucketGs).Ok?
  {
    var name := ParseGsBucket(bucketGs);
    if name.Err? then Err(name.error) else Ok(GcsUploader(name.value))
  }

  /** An uploader whose `bucket_gs` parses back to its own bucket name. */
  predicate ValidUploader(u: GcsUploader) {
    ParseGsBucket(BucketGs(u)) == Ok(u.bucketName)
  }

  /** Every uploader the constructor makes is valid. */
  lemma NewUploaderIsValid(bucketGs: string)
    requires NewUploader(bucketGs).Ok?
    ensures ValidUploader(NewUploader(bucketGs).value)
  {
    ParseOfGsBucket(bucketGs);
  }

  datatype GeneratedAt = GeneratedAt(rfc3339: string, filenameStamp: string)

  datatype PngUploadInput = PngUploadInput(
    chartTemplateId: string, kind: string, generatedAt: GeneratedAt, symbolSlug: string, timeframe: string)

  datatype PngUploadResult = PngUploadResult(items: seq<map<string, Json>>, failures: seq<map<string, Json>>)

  type UploadOutcome = Outcome<map<string, Json>, map<string, Json>>

  const ITEM_KEYS: set<string> := {"chartTemplateId", "kind", "generatedAt", "png_gcs_uri"}

  function InputPath(runId: string, entry: PngUploadInput): string {
    PngObjectPath(runId, entry.timeframe, entry.chartTemplateId, entry.generatedAt.filenameStamp, entry.symbolSlug)
  }

  /** The manifest item of an uploaded PNG. */
  ghost predicate IsItemOf(item: map<string, Json>, u: GcsUploader, runId: string, entry: PngUploadInput) {
    IsItemAt(item, u, InputPath(runId, entry), entry)
  }

  ghost predicate IsItemAt(item: map<string, Json>, u: GcsUploader, path: string, entry: PngUploadInput) {
    && item.Keys == ITEM_KEYS
    && item["chartTemplateId"] == JStr(entry.chartTemplateId)
    && item["kind"] == JStr(entry.kind)
    && item["generatedAt"] == JStr(entry.generatedAt.rfc3339)
    && item["png_gcs_uri"].JStr?
    && SplitGsUri(item["png_gcs_uri"].s) == Some((u.bucketName, path))
  }

  /** The failure record of a PNG whose upload raised `raised`. */
  ghost predicate IsFailureOf(failure: map<string, Json>, runId: string, entry: PngUploadInput, raised: string) {
    IsFailureAt(failure, InputPath(runId, entry), entry, raised)
  }

  ghost predicate IsFailureAt(failure: map<string, Json>, path: string, entry: PngUploadInput, raised: string) {
    && failure.Keys == {"request", "error"}
    && failure["request"] == JObj(map["chartTemplateId" := JStr(entry.chartTemplateId)])
    && failure["error"].JObj?
    && Get(failure["error"].fields, "code") == JStr(GCS_WRITE_FAILED)
    && Get(failure["error"].fields, "details") == JObj(map["objectPath" := JStr(path), "error" := JStr(raised)])
  }

  /** The item `upload_pngs` records for an uploaded PNG. */
  function UploadedItem(u: GcsUploader, runId: string, entry: PngUploadInput): map<string, Json>
    requires ValidUploader(u)
  {
    UploadedItemAt(u, InputPath(runId, entry), entry)
  }

  function UploadedItemAt(u: GcsUploader, path: string, entry: PngUploadInput): map<string, Json>
    requires ValidUploader(u)
  {
    ItemRecord(entry, GsUri(BucketGs(u), path).value)
  }

  function ItemRecord(entry: PngUploadInput, uri: string): map<string, Json> {
    map[
      "chartTemplateId" := JStr(entry.chartTemplateId),
      "kind" := JStr(entry.kind),
      "generatedAt" := JStr(entry.generatedAt.rfc3339),
      "png_gcs_uri" := JStr(uri)]
  }

  /** The failure `upload_pngs` records for a PNG whose upload raised. */
  function UploadFailure(runId: string, entry: PngUploadInput, raised: string): map<string, Json> {
    UploadFailureAt(InputPath(runId, entry), entry, raised)
  }

  function UploadFailureAt(path: string, entry: PngUploadInput, raised: string): map<string, Json> {
    map[
      "request" := JObj(map["chartTemplateId" := JStr(entry.chartTemplateId)]),
      "error" := JObj(map[
        "code" := JStr(GCS_WRITE_FAILED),
        "message" := JStr("Failed to write PNG to GCS"),
        "details" := JObj(map["objectPath" := JStr(path), "error" := JStr(raised)])])]
  }

  lemma UploadedItemShape(u: GcsUploader, runId: string, entry: PngUploadInput)
    requires ValidUploader(u)
    ensures IsItemOf(UploadedItem(u, runId, entry), u, runId, entry)
  {
    UploadedItemAtShape(u, InputPath(runId, entry), entry);
  }

  lemma UploadedItemAtShape(u: GcsUploader, path: string, entry: PngUploadInput)
    requires ValidUploader(u)
    ensures IsItemAt(UploadedItemAt(u, path, entry), u, path, entry)
  {
    var uri := GsUri(BucketGs(u), path).value;
    SplitGsUriOfGsUri(BucketGs(u), path);
    ItemRecordShape(u, path, entry, uri);
  }

  lemma ItemRecordShape(u: GcsUploader, path: string, entry: PngUploadInput, uri: string)
    requires SplitGsUri(uri) == Some((u.bucketName, path))
    ensures IsItemAt(ItemRecord(entry, uri), u, path, entry)
  {
    assert ItemRecord(entry, uri).Keys == ITEM_KEYS;
  }

  lemma UploadFailureShape(runId: string, entry: PngUploadInput, raised: string)
    ensures IsFailureOf(UploadFailure(runId, entry, raised), runId, entry, raised)
  {
    UploadFailureAtShape(InputPath(runId, entry), entry, raised);
  }

  lemma UploadFailureAtShape(path: string, entry: PngUploadInput, raised: string)
    ensures IsFailureAt(UploadFailureAt(path, entry, raised), path, entry, raised)
  {
    var failure := UploadFailureAt(path, entry, raised);
    assert failure.Keys == {"request", "error"};
    var e := failure["error"].fields;
    assert Get(e, "code") == JStr(GCS_WRITE_FAILED);
  }

  /** One pass of the upload loop. */
  function UploadOne(u: GcsUploader, runId: string, entry: PngUploadInput, raised: Option<string>): (o: UploadOutcome)
    requires ValidUploader(u)
    ensures o.Item? <==> raised.None?
    ensures o.Item? ==> IsItemOf(o.item, u, runId, entry)
    ensures o.Failure? ==> IsFailureOf(o.failure, runId, entry, raised.value)
  {
    if raised.Some? then
      UploadFailureShape(runId, entry, raised.value);
      Failure(UploadFailure(runId, entry, raised.value))
    else
      UploadedItemShape(u, runId, entry);
      Item(UploadedItem(u, runId, entry))
  }

  function UploadOutcomes(u: GcsUploader, runId: string, inputs: seq<PngUploadInput>, upload: nat -> Option<string>): (os: seq<UploadOutcome>)
    requires ValidUploader(u)
    ensures |os| == |inputs|
  {
    seq(|inputs|, i requires 0 <= i < |inputs| => UploadOne(u, runId, inputs[i], upload(i)))
  }

  /** `upload_pngs`: the i-th upload is the i-th input's; a raised upload becomes a failure and the loop goes on. */
  function UploadPngs(u: GcsUploader, runId: string, inputs: seq<PngUploadInput>, upload: nat -> Option<string>): (r: PngUploadResult)
    requires ValidUploader(u)
  {
    var os := UploadOutcomes(u, runId, inputs, upload);
    PngUploadResult(Items(os), Failures(os))
  }

  /**
   * Every input yields one item or one failure: the k-th item belongs to the
   * k-th input whose upload succeeded, the k-th failure to the k-th input
   * whose upload raised and carries its `chartTemplateId`.
   */
  lemma UploadSplitsInputs(u: GcsUploader, runId: string, inputs: seq<PngUploadInput>, upload: nat -> Option<string>)
    requires ValidUploader(u)
    ensures var r := UploadPngs(u, runId, inputs, upload);
      var os := UploadOutcomes(u, runId, inputs, upload);
      && |r.items| + |r.failures| == |inputs|
      && |ItemPositions(os)| == |r.items| && |FailurePositions(os)| == |r.failures|
      && Increasing(ItemPositions(os)) && Increasing(FailurePositions(os))
      && (forall k :: 0 <= k < |r.items| ==>
            ItemPositions(os)[k] < |inputs| && upload(ItemPositions(os)[k]).None?
            && IsItemOf(r.items[k], u, runId, inputs[ItemPositions(os)[k]]))
      && (forall k :: 0 <= k < |r.failures| ==>
            FailurePositions(os)[k] < |inputs| && upload(FailurePositions(os)[k]).Some?
            && IsFailureOf(r.failures[k], runId, inputs[FailurePositions(os)[k]], upload(FailurePositions(os)[k]).value))
      && (forall i :: 0 <= i < |inputs| && upload(i).None? ==> i in ItemPositions(os))
      && (forall i :: 0 <= i < |inputs| && upload(i).Some? ==> i in FailurePositions(os))
  {
    var os := UploadOutcomes(u, runId, inputs, upload);
    forall i | 0 <= i < |os|
      ensures os[i].Item? <==> upload(i).None?
      ensures os[i].Item? ==> IsItemOf(os[i].item, u, runId, inputs[i])
      ensures os[i].Failure? ==> IsFailureOf(os[i].failure, runId, inputs[i], upload(i).value)
    {
      var o := UploadOne(u, runId, inputs[i], upload(i));
      assert os[i] == o;
    }
    ItemsAndFailuresPartition(os);
    ItemsFollowInputOrder(os);
    FailuresFollowInputOrder(os);
    forall k | 0 <= k < |Items(os)|
      ensures upload(ItemPositions(os)[k]).None? && IsItemOf(Items(os)[k], u, runId, inputs[ItemPositions(os)[k]])
    {
      var i := ItemPositions(os)[k];
      assert os[i] == Item(Items(os)[k]);
    }
    forall k | 0 <= k < |Failures(os)|
      ensures upload(FailurePositions(os)[k]).Some?
        && IsFailureOf(Failures(os)[k], runId, inputs[FailurePositions(os)[k]], upload(FailurePositions(os)[k]).value)
    {
      var i := FailurePositions(os)[k];
      assert os[i] == Failure(Failures(os)[k]);
    }
  }

  /** When no upload raises, the items are the inputs' items one for one and there are no failures. */
  lemma AllUploadsSucceed(u: GcsUploader, runId: string, inputs: seq<PngUploadInput>, upload: nat -> Option<string>)
    requires ValidUploader(u)
    requires forall i :: 0 <= i < |inputs| ==> upload(i).None?
    ensures var r := UploadPngs(u, runId, inputs, upload);
      && r.failures == [] && |r.items| == |inputs|
      && forall i :: 0 <= i < |inputs| ==> IsItemOf(r.items[i], u, runId, inputs[i])
  {
    var os := UploadOutcomes(u, runId, inputs, upload);
    forall i | 0 <= i < |os|
      ensures os[i].Item? && IsItemOf(os[i].item, u, runId, inputs[i])
    {
      var o := UploadOne(u, runId, inputs[i], upload(i));
      assert os[i] == o;
    }
    NoFailureKeepsAll(os);
  }

  // ---------------------------------------------------------------------------
  // Manifest
  // ---------------------------------------------------------------------------

  /** The arguments of `build_manifest`. */
  datatype ManifestFields = ManifestFields(
    runId: string, stepId: string, createdAt: string, symbol: string, timeframe: string, minImages: int,
    requested: seq<map<string, Json>>, items: seq<map<string, Json>>, failures: seq<map<string, Json>>)

  const MANIFEST_KEYS: set<string> :=
    {"schemaVersion", "runId", "stepId", "createdAt", "symbol", "timeframe", "minImages", "requested", "items"}

  function Objects(xs: seq<map<string, Json>>): seq<Json> {
    seq(|xs|, i requires 0 <= i < |xs| => JObj(xs[i]))
  }

  /** `build_manifest`: schema version 1, and a `failures` key only when there are failures. */
  function BuildManifest(m: ManifestFields): (r: map<string, Json>)
    ensures r.Keys == MANIFEST_KEYS + (if |m.failures| > 0 then {"failures"} else {})
    ensures r["schemaVersion"] == JInt(1)
  {
    var manifest := map[
      "schemaVersion" := JInt(1),
      "runId" := JStr(m.runId),
      "stepId" := JStr(m.stepId),
      "createdAt" := JStr(m.createdAt),
      "symbol" := JStr(m.symbol),
      "timeframe" := JStr(m.timeframe),
      "minImages" := JInt(m.minImages),
      "requested" := JArr(Objects(m.requested)),
      "items" := JArr(Objects(m.items))];
    if |m.failures| > 0 then manifest["failures" := JArr(Objects(m.failures))] else manifest
  }

  /** The maps of a list of maps. */
  function AsObjects(v: Json): (r: Option<seq<map<string, Json>>>)
    ensures r.Some? ==> v.JArr? && |r.value| == |v.items| && forall i :: 0 <= i < |v.items| ==> v.items[i] == JObj(r.value[i])
  {
    if v.JArr? && forall i :: 0 <= i < |v.items| ==> v.items[i].JObj? then
      Some(seq(|v.items|, i requires 0 <= i < |v.items| => v.items[i].fields))
    else None
  }

  lemma AsObjectsOfObjects(xs: seq<map<string, Json>>)
    ensures AsObjects(JArr(Objects(xs))) == Some(xs)
  {
    var os := Objects(xs);
    assert forall i :: 0 <= i < |os| ==> os[i] == JObj(xs[i]);
    var back := AsObjects(JArr(os));
    assert back.Some?;
    forall i | 0 <= i < |xs|
      ensures back.value[i] == xs[i]
    {
      assert JObj(back.value[i]) == os[i];
    }
    assert back.value == xs;
  }


  /** Reads a manifest document back into its fields; a missing `failures` key means no failures. */
  function ReadManifest(doc: map<string, Json>): Option<ManifestFields> {
    var requested := AsObjects(Get(doc, "requested"));
    var items := AsObjects(Get(doc, "items"));
    var failures := if "failures" in doc then AsObjects(doc["failures"]) else Some([]);
    if && Get(doc, "schemaVersion") == JInt(1)
       && Get(doc, "runId").JStr? && Get(doc, "stepId").JStr? && Get(doc, "createdAt").JStr?
       && Get(doc, "symbol").JStr? && Get(doc, "timeframe").JStr? && Get(doc, "minImages").JInt?
       && requested.Some? && items.Some? && failures.Some?
       && ("failures" in doc ==> failures.value != [])
    then
      Some(ManifestFields(Get(doc, "runId").s, Get(doc, "stepId").s, Get(doc, "createdAt").s,
        Get(doc, "symbol").s, Get(doc, "timeframe").s, Get(doc, "minImages").i,
        requested.value, items.value, failures.value))
    else None
  }

  /** The manifest document keeps every field: reading it back gives the fields it was built from. */
  lemma ReadBuiltManifest(m: ManifestFields)
    ensures ReadManifest(BuildManifest(m)) == Some(m)
  {
    AsObjectsOfObjects(m.requested);
    AsObjectsOfObjects(m.items);
    AsObjectsOfObjects(m.failures);
    var doc := BuildManifest(m);
    assert Get(doc, "requested") == JArr(Objects(m.requested));
    assert Get(doc, "items") == JArr(Objects(m.items));
    if |m.failures| > 0 {
      assert doc["failures"] == JArr(Objects(m.failures));
    }
  }

  datatype ManifestWrite = ManifestWrite(uri: Option<string>, error: Option<StepError>)

  /**
   * `write_manifest`: the manifest goes to the step's fixed object path;
   * `raised` is the class name of the exception that serialising or
   * uploading raised, if any.
   */
  function WriteManifest(u: GcsUploader, runId: string, stepId: string, manifest: map<string, Json>, raised: Option<string>): (r: ManifestWrite)
    requires ValidUploader(u)
    ensures r.uri.Some? <==> raised.None?
    ensures r.error.Some? <==> raised.Some?
    ensures r.error.Some? ==>
      && r.error.value.code == MANIFEST_WRITE_FAILED
      && r.error.value.details == Some(map["objectPath" := JStr(ManifestObjectPath(runId, stepId)), "error" := JStr(raised.value)])
    ensures r.uri.Some? ==> SplitGsUri(r.uri.value) == Some((u.bucketName, ManifestObjectPath(runId, stepId)))
  {
    var path := ManifestObjectPath(runId, stepId);
    if raised.Some? then
      ManifestWrite(None, Some(Orchestration.StepError(MANIFEST_WRITE_FAILED, "Failed to write manifest to GCS",
        Some(map["objectPath" := JStr(path), "error" := JStr(raised.value)]))))
    else
      SplitGsUriOfGsUri(BucketGs(u), path);
      ManifestWrite(Some(GsUri(BucketGs(u), path).value), None)
  }
}
