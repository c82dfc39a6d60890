/**
 * The step state machine of a flow run (worker_chart_export/orchestration.py):
 * a step goes READY -> RUNNING on claim and RUNNING -> SUCCEEDED or FAILED on
 * finalize, and a terminal step is never written again.  Each transaction
 * reads the flow-run document, decides, buffers at most one field-scoped
 * update and commits; `commit` is how that commit ends.
 */
module Orchestration {
  import opened Wrappers
  import opened Json
  import opened Strings
  import opened Firestore

  datatype ClaimResult = ClaimResult(claimed: bool, status: Option<string>, reason: Option<string>)

  datatype StepError = StepError(code: string, message: string, details: Option<map<string, Json>>)

  datatype FinalizeResult = FinalizeResult(updated: bool, status: Option<string>, reason: Option<string>)

  /** The `Literal["SUCCEEDED", "FAILED"]` a caller finalizes with. */
  datatype FinalStatus = Succeeded | Failed

  /**
   * Why a transaction raised: its commit did not go through, or `finalize_step`
   * was called without the manifest URI or the error its status needs.
   */
  datatype TransactionError = CommitRejected(outcome: WriteOutcome) | ManifestUriRequired | ErrorRequired

  /** What a committed transaction returned, with the update it committed. */
  datatype Committed<T> = Committed(result: T, update: Update)

  const READY: string := "READY"
  const RUNNING: string := "RUNNING"
  const SUCCEEDED: string := "SUCCEEDED"
  const FAILED: string := "FAILED"

  /** The success update's nested key, `outputs.outputsManifestGcsUri`. */
  const OUTPUTS_URI_FIELD: string := "outputs" + "." + "outputsManifestGcsUri"

  /** The path of a step's field, as a list of field names. */
  function StepPath(stepId: string, field: seq<string>): seq<string> {
    ["steps", stepId] + field
  }

  /** `_get_step_status`: the step's `status` when `steps` and the step are maps and it is a string. */
  function StepStatus(flowRun: Doc, stepId: string): (r: Option<string>)
    ensures r.Some? <==> Lookup(flowRun, StepPath(stepId, ["status"])).JStr?
    ensures r.Some? ==> r.value == Lookup(flowRun, StepPath(stepId, ["status"])).s
  {
    LookupThree(flowRun, "steps", stepId, "status");
    var steps := Get(flowRun, "steps");
    if !steps.JObj? then None
    else
      var step := Get(steps.fields, stepId);
      if !step.JObj? then None
      else
        var status := Get(step.fields, "status");
        if status.JStr? then Some(status.s) else None
  }

  // ---------------------------------------------------------------------------
  // Update builders
  // ---------------------------------------------------------------------------

  /** `_build_step_update`: each key is prefixed with `steps.<stepId>.`. */
  function StepUpdate(stepId: string, updates: Update): (u: Update)
    ensures |u| == |updates|
    ensures forall k :: 0 <= k < |u| ==> StartsWith(u[k].0, "steps." + stepId + ".") && u[k].1 == updates[k].1
    decreases |updates|
  {
    if |updates| == 0 then []
    else [("steps." + stepId + "." + updates[0].0, updates[0].1)] + StepUpdate(stepId, updates[1..])
  }

  /** With a dot-free step id, a prefixed key names the field path under that step. */
  lemma StepUpdatePaths(stepId: string, updates: Update, k: nat)
    requires '.' !in stepId
    requires k < |updates|
    ensures PathOf(StepUpdate(stepId, updates)[k].0) == StepPath(stepId, PathOf(updates[k].0))
  {
    StepUpdateKey(stepId, updates, k);
    StepKeyPath(stepId, updates[k].0);
  }

  lemma StepKeyPath(stepId: string, field: string)
    requires '.' !in stepId
    ensures PathOf("steps." + stepId + "." + field) == StepPath(stepId, PathOf(field))
  {
    var tail := stepId + ['.'] + field;
    assert "steps." + stepId + "." + field == "steps" + ['.'] + tail;
    SplitAtFirst("steps", '.', tail);
    SplitAtFirst(stepId, '.', field);
  }

  lemma {:induction false} StepUpdateKey(stepId: string, updates: Update, k: nat)
    requires k < |updates|
    ensures StepUpdate(stepId, updates)[k].0 == "steps." + stepId + "." + updates[k].0
    decreases k
  {
    if k > 0 {
      StepUpdateKey(stepId, updates[1..], k - 1);
    }
  }

  /** `build_claim_update`. */
  function ClaimUpdate(stepId: string): Update {
    StepUpdate(stepId, [("status", JStr(RUNNING))])
  }

  /** `build_finalize_success_update`. */
  function SuccessUpdate(stepId: string, finishedAt: string, manifestUri: string): Update {
    StepUpdate(stepId, [
      ("status", JStr(SUCCEEDED)),
      ("finishedAt", JStr(finishedAt)),
      (OUTPUTS_URI_FIELD, JStr(manifestUri))])
  }

  /** The `error` object of a failure update: `code` and `message`, and `details` only when given. */
  function ErrorPayload(error: StepError): (p: Json)
    ensures p.JObj? && Get(p.fields, "code") == JStr(error.code) && Get(p.fields, "message") == JStr(error.message)
    ensures "details" in p.fields <==> error.details.Some?
    ensures error.details.Some? ==> p.fields["details"] == JObj(error.details.value)
    ensures p.fields.Keys <= {"code", "message", "details"}
  {
    var base := map["code" := JStr(error.code), "message" := JStr(error.message)];
    JObj(if error.details.Some? then base["details" := JObj(error.details.value)] else base)
  }

  /** `build_finalize_failure_update`. */
  function FailureUpdate(stepId: string, finishedAt: string, error: StepError): Update {
    StepUpdate(stepId, [
      ("status", JStr(FAILED)),
      ("finishedAt", JStr(finishedAt)),
      ("error", ErrorPayload(error))])
  }

  // ---------------------------------------------------------------------------
  // Transactions
  // ---------------------------------------------------------------------------

  /** The flow run a transaction sees: `snapshot.to_dict()`, or `{}` for a missing document. */
  function FlowRunOf(snapshot: Option<Doc>): Doc {
    snapshot.GetOr(map[])
  }

  /** `claim_step_transaction`: only a READY step is claimed, and only its status is written. */
  function ClaimStep(snapshot: Option<Doc>, stepId: string, commit: WriteOutcome): (r: Result<Committed<ClaimResult>, TransactionError>)
    ensures commit != Written <==> r.Err?
    ensures r.Ok? ==> r.value.result.status == StepStatus(FlowRunOf(snapshot), stepId)
    ensures r.Ok? ==> (r.value.result.claimed <==> StepStatus(FlowRunOf(snapshot), stepId) == Some(READY))
    ensures r.Ok? && r.value.result.claimed ==> r.value.update == ClaimUpdate(stepId) && r.value.result.reason.None?
    ensures r.Ok? && !r.value.result.claimed ==> r.value.update == [] && r.value.result.reason == Some("not_ready")
  {
    var status := StepStatus(FlowRunOf(snapshot), stepId);
    var done :=
      if status != Some(READY) then Committed(ClaimResult(false, status, Some("not_ready")), [])
      else Committed(ClaimResult(true, status, None), ClaimUpdate(stepId));
    if commit != Written then Err(CommitRejected(commit)) else Ok(done)
  }

  /** `finalize_step`. */
  function FinalizeStep(
    snapshot: Option<Doc>, stepId: string, status: FinalStatus, finishedAt: string,
    manifestUri: Option<string>, error: Option<StepError>, commit: WriteOutcome): (r: Result<Committed<FinalizeResult>, TransactionError>)
    ensures var current := StepStatus(FlowRunOf(snapshot), stepId);
      current == Some(SUCCEEDED) || current == Some(FAILED) ==>
        r == (if commit == Written then Ok(Committed(FinalizeResult(false, current, Some("already_final")), [])) else Err(CommitRejected(commit)))
    ensures var current := StepStatus(FlowRunOf(snapshot), stepId);
      current != Some(SUCCEEDED) && current != Some(FAILED) && current != Some(RUNNING) ==>
        r == (if commit == Written then Ok(Committed(FinalizeResult(false, current, Some("not_running")), [])) else Err(CommitRejected(commit)))
    ensures commit != Written ==> r.Err?
    ensures r.Ok? ==> r.value.result.status == StepStatus(FlowRunOf(snapshot), stepId)
    ensures r.Ok? && r.value.result.updated ==> StepStatus(FlowRunOf(snapshot), stepId) == Some(RUNNING)
    ensures r.Ok? && r.value.result.updated ==> r.value.result.reason.None?
    ensures r.Ok? && r.value.result.updated ==>
      if status == Succeeded then manifestUri.Some? && r.value.update == SuccessUpdate(stepId, finishedAt, manifestUri.value)
      else error.Some? && r.value.update == FailureUpdate(stepId, finishedAt, error.value)
    ensures r.Ok? ==> (r.value.update != [] <==> r.value.result.updated)
  {
    var current := StepStatus(FlowRunOf(snapshot), stepId);
    var decided: Result<Committed<FinalizeResult>, TransactionError> :=
      if current == Some(SUCCEEDED) || current == Some(FAILED) then
        Ok(Committed(FinalizeResult(false, current, Some("already_final")), []))
      else if current != Some(RUNNING) then
        Ok(Committed(FinalizeResult(false, current, Some("not_running")), []))
      else if status == Succeeded then
        if manifestUri.None? then Err(ManifestUriRequired)
        else Ok(Committed(FinalizeResult(true, current, None), SuccessUpdate(stepId, finishedAt, manifestUri.value)))
      else
        if error.None? then Err(ErrorRequired)
        else Ok(Committed(FinalizeResult(true, current, None), FailureUpdate(stepId, finishedAt, error.value)));
    if decided.Err? then decided
    else if commit != Written then Err(CommitRejected(commit))
    else decided
  }

  // ---------------------------------------------------------------------------
  // Properties over the document
  // ---------------------------------------------------------------------------

  /** Every key a builder produces lies under `steps.<stepId>.`. */
  lemma BuildersAreStepScoped(stepId: string, finishedAt: string, manifestUri: string, error: StepError)
    ensures forall k :: 0 <= k < |ClaimUpdate(stepId)| ==> StartsWith(ClaimUpdate(stepId)[k].0, "steps." + stepId + ".")
    ensures forall k :: 0 <= k < |SuccessUpdate(stepId, finishedAt, manifestUri)| ==>
      StartsWith(SuccessUpdate(stepId, finishedAt, manifestUri)[k].0, "steps." + stepId + ".")
    ensures forall k :: 0 <= k < |FailureUpdate(stepId, finishedAt, error)| ==>
      StartsWith(FailureUpdate(stepId, finishedAt, error)[k].0, "steps." + stepId + ".")
  {
  }

  /** The field paths of an update's entries under a step, before prefixing. */
  function FieldPaths(updates: Update): seq<seq<string>> {
    seq(|updates|, k requires 0 <= k < |updates| => PathOf(updates[k].0))
  }

  /**
   * Applying a step update with a dot-free id: every path that parts ways
   * with all of the step's updated fields keeps its value.  Sibling steps,
   * other top-level fields and untouched fields of the step are such paths.
   */
  lemma StepUpdateKeepsOthers(doc: Doc, stepId: string, updates: Update, q: seq<string>)
    requires '.' !in stepId
    requires |q| > 0
    requires forall k :: 0 <= k < |updates| ==> Diverge(StepPath(stepId, PathOf(updates[k].0)), q)
    ensures Lookup(ApplyUpdate(doc, StepUpdate(stepId, updates)), q) == Lookup(doc, q)
  {
    var u := StepUpdate(stepId, updates);
    forall k | 0 <= k < |u|
      ensures Diverge(PathOf(u[k].0), q)
    {
      StepUpdatePaths(stepId, updates, k);
    }
    ApplyUpdateKeeps(doc, u, q);
  }

  /** A path under another step, or outside `steps`, parts ways with every path under this step. */
  lemma OutsideStepDiverges(stepId: string, field: seq<string>, q: seq<string>)
    requires |q| > 0
    requires q[0] != "steps" || (|q| > 1 && q[1] != stepId)
    ensures Diverge(StepPath(stepId, field), q)
  {
    var p := StepPath(stepId, field);
    if q[0] == "steps" {
      assert p[1..][0] == stepId && q[1..][0] == q[1];
    }
  }

  /**
   * With a dot-free id, a step update changes nothing outside its step: no
   * other top-level field and no sibling step.
   */
  lemma StepUpdateLeavesSiblings(doc: Doc, stepId: string, updates: Update, q: seq<string>)
    requires '.' !in stepId
    requires |q| > 0
    requires q[0] != "steps" || (|q| > 1 && q[1] != stepId)
    ensures Lookup(ApplyUpdate(doc, StepUpdate(stepId, updates)), q) == Lookup(doc, q)
  {
    forall k | 0 <= k < |updates|
      ensures Diverge(StepPath(stepId, PathOf(updates[k].0)), q)
    {
      OutsideStepDiverges(stepId, PathOf(updates[k].0), q);
    }
    StepUpdateKeepsOthers(doc, stepId, updates, q);
  }

  lemma StatusFieldPath() ensures PathOf("status") == ["status"] { SplitWithoutSep("status", '.'); }

  lemma FinishedAtFieldPath() ensures PathOf("finishedAt") == ["finishedAt"] { SplitWithoutSep("finishedAt", '.'); }

  lemma ErrorFieldPath() ensures PathOf("error") == ["error"] { SplitWithoutSep("error", '.'); }

  lemma OutputsUriFieldPath()
    ensures PathOf(OUTPUTS_URI_FIELD) == ["outputs", "outputsManifestGcsUri"]
  {
    SplitWithoutSep("outputsManifestGcsUri", '.');
    SplitAtFirst("outputs", '.', "outputsManifestGcsUri");
  }

  /** Paths under one step part ways exactly when the field paths do. */
  lemma StepFieldsDiverge(stepId: string, f: seq<string>, g: seq<string>)
    requires Diverge(f, g)
    ensures Diverge(StepPath(stepId, f), StepPath(stepId, g))
  {
    var p := StepPath(stepId, f);
    var q := StepPath(stepId, g);
    assert p[1..][1..] == f && q[1..][1..] == g;
  }

  /**
   * With a dot-free id and field paths that part ways pairwise, every field
   * of a step update lands under the step with its value.
   */
  lemma StepUpdateSets(doc: Doc, stepId: string, updates: Update, k: nat)
    requires '.' !in stepId
    requires k < |updates|
    requires DisjointPaths(updates)
    ensures Lookup(ApplyUpdate(doc, StepUpdate(stepId, updates)), StepPath(stepId, PathOf(updates[k].0))) == updates[k].1
  {
    var u := StepUpdate(stepId, updates);
    forall i, j | 0 <= i < j < |u|
      ensures Diverge(PathOf(u[i].0), PathOf(u[j].0))
    {
      StepUpdatePaths(stepId, updates, i);
      StepUpdatePaths(stepId, updates, j);
      StepFieldsDiverge(stepId, PathOf(updates[i].0), PathOf(updates[j].0));
    }
    StepUpdatePaths(stepId, updates, k);
    ApplyUpdateSets(doc, u, k);
  }

  /** The result of a claim: the document after it commits. */
  function AfterClaim(doc: Doc, stepId: string): Doc {
    var r := ClaimStep(Some(doc), stepId, Written);
    ApplyUpdate(doc, r.value.update)
  }

  /**
   * A committed claim of a READY step leaves it RUNNING and, with a dot-free
   * id, every path other than the step's status as it was.
   */
  lemma ClaimMovesReadyToRunning(doc: Doc, stepId: string, q: seq<string>)
    requires '.' !in stepId
    requires StepStatus(doc, stepId) == Some(READY)
    requires |q| > 0 && Diverge(StepPath(stepId, ["status"]), q)
    ensures StepStatus(AfterClaim(doc, stepId), stepId) == Some(RUNNING)
    ensures Lookup(AfterClaim(doc, stepId), q) == Lookup(doc, q)
  {
    var updates := [("status", JStr(RUNNING))];
    StatusFieldPath();
    StepUpdateSets(doc, stepId, updates, 0);
    StepUpdateKeepsOthers(doc, stepId, updates, q);
  }

  /** Of two claims of one step, one after the other, at most one succeeds. */
  lemma AtMostOneClaimSucceeds(doc: Doc, stepId: string)
    requires '.' !in stepId
    ensures var first := ClaimStep(Some(doc), stepId, Written).value.result;
      var second := ClaimStep(Some(AfterClaim(doc, stepId)), stepId, Written).value.result;
      !(first.claimed && second.claimed)
  {
    if StepStatus(doc, stepId) == Some(READY) {
      var path := StepPath(stepId, ["status"]);
      assert Diverge(path, ["runId"]);
      ClaimMovesReadyToRunning(doc, stepId, ["runId"]);
    }
  }

  /** The document after a finalize commits. */
  function AfterFinalize(doc: Doc, stepId: string, status: FinalStatus, finishedAt: string,
                         manifestUri: Option<string>, error: Option<StepError>): Doc
  {
    var r := FinalizeStep(Some(doc), stepId, status, finishedAt, manifestUri, error, Written);
    if r.Ok? then ApplyUpdate(doc, r.value.update) else doc
  }

  /** Three entries whose field paths part ways pairwise. */
  lemma ThreeDisjoint(updates: Update)
    requires |updates| == 3
    requires Diverge(PathOf(updates[0].0), PathOf(updates[1].0))
    requires Diverge(PathOf(updates[0].0), PathOf(updates[2].0))
    requires Diverge(PathOf(updates[1].0), PathOf(updates[2].0))
    ensures DisjointPaths(updates)
  {
  }

  /**
   * A SUCCEEDED update sets the status, the finish time and the manifest URI,
   * and with a dot-free id leaves every path that parts ways with those three
   * (other `outputs` keys, other step fields, sibling steps) as it was.
   */
  lemma SuccessUpdateWrites(doc: Doc, stepId: string, finishedAt: string, uri: string, q: seq<string>)
    requires '.' !in stepId
    requires |q| > 0
    requires Diverge(StepPath(stepId, ["status"]), q) && Diverge(StepPath(stepId, ["finishedAt"]), q)
    requires Diverge(StepPath(stepId, ["outputs", "outputsManifestGcsUri"]), q)
    ensures var after := ApplyUpdate(doc, SuccessUpdate(stepId, finishedAt, uri));
      && StepStatus(after, stepId) == Some(SUCCEEDED)
      && Lookup(after, StepPath(stepId, ["finishedAt"])) == JStr(finishedAt)
      && Lookup(after, StepPath(stepId, ["outputs", "outputsManifestGcsUri"])) == JStr(uri)
      && Lookup(after, q) == Lookup(doc, q)
  {
    var updates := [("status", JStr(SUCCEEDED)), ("finishedAt", JStr(finishedAt)), (OUTPUTS_URI_FIELD, JStr(uri))];
    assert SuccessUpdate(stepId, finishedAt, uri) == StepUpdate(stepId, updates);
    StatusFieldPath();
    FinishedAtFieldPath();
    OutputsUriFieldPath();
    ThreeDisjoint(updates);
    StepUpdateSets(doc, stepId, updates, 0);
    StepUpdateSets(doc, stepId, updates, 1);
    StepUpdateSets(doc, stepId, updates, 2);
    StepUpdateKeepsOthers(doc, stepId, updates, q);
  }

  /**
   * A FAILED update sets the status, the finish time and the error object,
   * and leaves every path that parts ways with those three as it was.
   */
  lemma FailureUpdateWrites(doc: Doc, stepId: string, finishedAt: string, error: StepError, q: seq<string>)
    requires '.' !in stepId
    requires |q| > 0
    requires Diverge(StepPath(stepId, ["status"]), q) && Diverge(StepPath(stepId, ["finishedAt"]), q)
    requires Diverge(StepPath(stepId, ["error"]), q)
    ensures var after := ApplyUpdate(doc, FailureUpdate(stepId, finishedAt, error));
      && StepStatus(after, stepId) == Some(FAILED)
      && Lookup(after, StepPath(stepId, ["finishedAt"])) == JStr(finishedAt)
      && Lookup(after, StepPath(stepId, ["error"])) == ErrorPayload(error)
      && Lookup(after, q) == Lookup(doc, q)
  {
    var updates := [("status", JStr(FAILED)), ("finishedAt", JStr(finishedAt)), ("error", ErrorPayload(error))];
    assert FailureUpdate(stepId, finishedAt, error) == StepUpdate(stepId, updates);
    StatusFieldPath();
    FinishedAtFieldPath();
    ErrorFieldPath();
    ThreeDisjoint(updates);
    StepUpdateSets(doc, stepId, updates, 0);
    StepUpdateSets(doc, stepId, updates, 1);
    StepUpdateSets(doc, stepId, updates, 2);
    StepUpdateKeepsOthers(doc, stepId, updates, q);
  }

  /** A committed finalize of a RUNNING step applies the update its status calls for. */
  lemma AfterFinalizeOfRunning(doc: Doc, stepId: string, status: FinalStatus, finishedAt: string,
                               manifestUri: Option<string>, error: Option<StepError>)
    requires StepStatus(doc, stepId) == Some(RUNNING)
    ensures status == Succeeded && manifestUri.Some? ==>
      AfterFinalize(doc, stepId, status, finishedAt, manifestUri, error) == ApplyUpdate(doc, SuccessUpdate(stepId, finishedAt, manifestUri.value))
    ensures status == Failed && error.Some? ==>
      AfterFinalize(doc, stepId, status, finishedAt, manifestUri, error) == ApplyUpdate(doc, FailureUpdate(stepId, finishedAt, error.value))
  {
  }

  /**
   * Finalize is idempotent: once a finalize has moved a step to a terminal
   * status, any further finalize reports `already_final`, writes nothing, and
   * so leaves the document (its manifest URI included) as it is.
   */
  lemma FinalizeTwiceIsNoop(
    doc: Doc, stepId: string, status: FinalStatus, finishedAt: string, manifestUri: Option<string>, error: Option<StepError>,
    status2: FinalStatus, finishedAt2: string, manifestUri2: Option<string>, error2: Option<StepError>)
    requires '.' !in stepId
    requires FinalizeStep(Some(doc), stepId, status, finishedAt, manifestUri, error, Written).Ok?
    requires FinalizeStep(Some(doc), stepId, status, finishedAt, manifestUri, error, Written).value.result.updated
    ensures var after := AfterFinalize(doc, stepId, status, finishedAt, manifestUri, error);
      var again := FinalizeStep(Some(after), stepId, status2, finishedAt2, manifestUri2, error2, Written);
      && again.Ok? && again.value.update == [] && again.value.result.reason == Some("already_final")
      && AfterFinalize(after, stepId, status2, finishedAt2, manifestUri2, error2) == after
  {
    var q := StepPath(stepId, ["stepType"]);
    StepFieldsDiverge(stepId, ["status"], ["stepType"]);
    StepFieldsDiverge(stepId, ["finishedAt"], ["stepType"]);
    StepFieldsDiverge(stepId, ["outputs", "outputsManifestGcsUri"], ["stepType"]);
    StepFieldsDiverge(stepId, ["error"], ["stepType"]);
    AfterFinalizeOfRunning(doc, stepId, status, finishedAt, manifestUri, error);
    if status == Succeeded {
      SuccessUpdateWrites(doc, stepId, finishedAt, manifestUri.value, q);
    } else {
      FailureUpdateWrites(doc, stepId, finishedAt, error.value, q);
    }
  }

  /** A SUCCEEDED finalize of a RUNNING step without a URI, or a FAILED one without an error, raises. */
  lemma FinalizeNeedsItsArgument(snapshot: Option<Doc>, stepId: string, finishedAt: string, commit: WriteOutcome,
                                 manifestUri: Option<string>, error: Option<StepError>)
    requires StepStatus(FlowRunOf(snapshot), stepId) == Some(RUNNING)
    ensures FinalizeStep(snapshot, stepId, Succeeded, finishedAt, None, error, commit) == Err(ManifestUriRequired)
    ensures FinalizeStep(snapshot, stepId, Failed, finishedAt, manifestUri, None, commit) == Err(ErrorRequired)
  {
  }
}
