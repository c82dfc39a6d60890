/**
 * Turning a Firestore "document updated" CloudEvent into a flow run
 * (worker_chart_export/ingest.py): the event filter, the document path and
 * run id taken from the resource name, the decoding of Firestore's typed-value
 * wire format, and the choice of the step to run.
 *
 * The event's attributes arrive as already-decoded values: reading them off
 * the event object and `json.loads` of a string or bytes payload are not part
 * of this model.
 */
module Ingest {
  import opened Wrappers
  import opened Json
  import opened Strings

  const FLOW_RUNS_MARKER: string := "/documents/flow_runs/"

  /** The marker without its leading slash (`documents/flow_runs/`), as it appears in a relative resource name. */
  const RELATIVE_FLOW_RUNS_MARKER: string := FLOW_RUNS_MARKER[1..]

  const CHART_EXPORT: string := "CHART_EXPORT"

  // ---------------------------------------------------------------------------
  // Event filter and resource names
  // ---------------------------------------------------------------------------

  /** `is_firestore_update_event`. */
  function IsFirestoreUpdateEvent(eventType: Json): (r: bool)
    ensures r <==> eventType.JStr? && eventType.s != "" && EndsWith(eventType.s, ".updated")
  {
    Truthy(eventType) && eventType.JStr? && EndsWith(eventType.s, ".updated")
  }

  /** The text before the first `/` (`s.split("/", 1)[0]`). */
  function FirstSegment(s: string): (r: string)
    ensures '/' !in r
    ensures StartsWith(s, r)
    ensures |r| < |s| ==> s[|r|] == '/'
  {
    var parts := Split(s, '/');
    JoinSplit(s, '/');
    if |parts| == 1 then s
    else
      assert Join(parts, "/") == parts[0] + "/" + Join(parts[1..], "/");
      parts[0]
  }

  /**
   * `_extract_run_id`: the segment between the first `/documents/flow_runs/`
   * and the next `/`; None when the marker is missing or the segment empty.
   */
  function ExtractRunId(docPath: string): (r: Option<string>)
    ensures IndexOf(docPath, FLOW_RUNS_MARKER).None? ==> r.None?
    ensures r.Some? ==> r.value != "" && '/' !in r.value
    ensures r.Some? ==>
      var i := IndexOf(docPath, FLOW_RUNS_MARKER).value + |FLOW_RUNS_MARKER|;
      StartsWith(docPath[i..], r.value) && (i + |r.value| == |docPath| || docPath[i + |r.value|] == '/')
  {
    var i := IndexOf(docPath, FLOW_RUNS_MARKER);
    if i.None? then None
    else
      var runId := FirstSegment(docPath[i.value + |FLOW_RUNS_MARKER|..]);
      if runId == "" then None else Some(runId)
  }

  /** The first segment of a text that starts with a slash-free segment and then ends or continues with `/`. */
  lemma FirstSegmentOf(segment: string, rest: string)
    requires '/' !in segment
    requires rest == "" || rest[0] == '/'
    ensures FirstSegment(segment + rest) == segment
  {
    if rest == "" {
      assert segment + rest == segment;
      SplitWithoutSep(segment, '/');
    } else {
      assert segment + rest == segment + ['/'] + rest[1..];
      SplitAtFirst(segment, '/', rest[1..]);
    }
  }

  /**
   * A resource name whose first marker is followed by a run id and then
   * either the end or a `/` yields exactly that run id.
   */
  lemma ExtractRunIdOfName(prefix: string, runId: string, rest: string)
    requires IndexOf(prefix + FLOW_RUNS_MARKER, FLOW_RUNS_MARKER) == Some(|prefix|)
    requires runId != "" && '/' !in runId
    requires rest == "" || rest[0] == '/'
    ensures ExtractRunId(prefix + FLOW_RUNS_MARKER + runId + rest) == Some(runId)
  {
    var head := prefix + FLOW_RUNS_MARKER;
    var name := prefix + FLOW_RUNS_MARKER + runId + rest;
    assert name == head + (runId + rest);
    IndexOfExtend(head, FLOW_RUNS_MARKER, runId + rest);
    assert name[|head|..] == runId + rest;
    FirstSegmentOf(runId, rest);
  }

  /**
   * `_extract_doc_path`: a string subject containing the marker is the path;
   * one containing it without the leading slash gets one; otherwise the
   * event's `value.name`, when it is a string containing the marker.
   */
  function ExtractDocPath(subject: Json, data: map<string, Json>): (r: Option<string>)
    ensures r.Some? ==> Contains(r.value, FLOW_RUNS_MARKER) || (subject.JStr? && r.value == "/" + subject.s)
    ensures subject.JStr? && Contains(subject.s, FLOW_RUNS_MARKER) ==> r == Some(subject.s)
    ensures subject.JStr? && !Contains(subject.s, FLOW_RUNS_MARKER) && Contains(subject.s, RELATIVE_FLOW_RUNS_MARKER) ==>
      r == Some("/" + subject.s)
  {
    if subject.JStr? && Contains(subject.s, FLOW_RUNS_MARKER) then Some(subject.s)
    else if subject.JStr? && Contains(subject.s, RELATIVE_FLOW_RUNS_MARKER) then Some("/" + subject.s)
    else
      var value := Get(data, "value");
      var name := if value.JObj? then Get(value.fields, "name") else JNull;
      if name.JStr? && Contains(name.s, FLOW_RUNS_MARKER) then Some(name.s) else None
  }

  // ---------------------------------------------------------------------------
  // Firestore typed values
  // ---------------------------------------------------------------------------

  /** `.get` on a truthy `mapValue` or `arrayValue` that is not a map raises `AttributeError`. */
  datatype DecodeError = NotAMapping

  /** `int(x)` as the decoder applies it: None where Python raises. */
  function PyInt(x: Json): Option<int> {
    match x
    case JInt(i) => Some(i)
    case JBool(b) => Some(if b then 1 else 0)
    case JStr(s) => ParseIntLiteral(s)
    case _ => None
  }

  /**
   * `decode_firestore_value`: the first type key present, in the order
   * `stringValue`, `integerValue`, `doubleValue`, `booleanValue`, `nullValue`,
   * `timestampValue`, `bytesValue`, `mapValue`, `arrayValue`, decides the
   * result; a map without any of them is returned as it is, and so is
   * anything that is not a map.
   */
  function DecodeValue(v: Json): (r: Result<Json, DecodeError>)
    ensures !v.JObj? ==> r == Ok(v)
    decreases v, 1
  {
    if !v.JObj? then Ok(v)
    else
      var f := v.fields;
      if "stringValue" in f then Ok(f["stringValue"])
      else if "integerValue" in f then
        var n := PyInt(f["integerValue"]);
        Ok(if n.Some? then JInt(n.value) else f["integerValue"])
      else if "doubleValue" in f then Ok(f["doubleValue"])
      else if "booleanValue" in f then Ok(JBool(Truthy(f["booleanValue"])))
      else if "nullValue" in f then Ok(JNull)
      else if "timestampValue" in f then Ok(f["timestampValue"])
      else if "bytesValue" in f then Ok(f["bytesValue"])
      else if "mapValue" in f then DecodeMapValue(f["mapValue"])
      else if "arrayValue" in f then DecodeArrayValue(f["arrayValue"])
      else Ok(v)
  }

  /** The `mapValue` branch: a falsy payload is an empty map, a truthy non-map an error. */
  function DecodeMapValue(mv: Json): (r: Result<Json, DecodeError>)
    ensures r.Ok? ==> r.value.JObj?
    decreases mv, 2
  {
    if !Truthy(mv) then Ok(JObj(map[]))
    else if !mv.JObj? then Err(NotAMapping)
    else if "fields" in mv.fields && mv.fields["fields"].JObj? then
      var decoded := DecodeFields(mv.fields["fields"].fields);
      if decoded.Err? then Err(decoded.error) else Ok(JObj(decoded.value))
    else Ok(JObj(map[]))
  }

  /** The `arrayValue` branch: a falsy payload is an empty list, a truthy non-map an error. */
  function DecodeArrayValue(av: Json): (r: Result<Json, DecodeError>)
    ensures r.Ok? ==> r.value.JArr?
    decreases av, 2
  {
    if !Truthy(av) then Ok(JArr([]))
    else if !av.JObj? then Err(NotAMapping)
    else if "values" in av.fields && av.fields["values"].JArr? then
      var decoded := DecodeList(av.fields["values"].items);
      if decoded.Err? then Err(decoded.error) else Ok(JArr(decoded.value))
    else Ok(JArr([]))
  }

  /** `decode_firestore_fields`: every field decoded; any failure fails the whole. */
  function DecodeFields(fields: map<string, Json>): (r: Result<map<string, Json>, DecodeError>)
    ensures r.Ok? <==> forall k :: k in fields ==> DecodeValue(fields[k]).Ok?
    ensures r.Ok? ==> r.value.Keys == fields.Keys
    ensures r.Ok? ==> forall k :: k in fields ==> DecodeValue(fields[k]) == Ok(r.value[k])
    decreases JObj(fields), 0
  {
    if forall k :: k in fields ==> DecodeValue(fields[k]).Ok? then
      Ok(map k | k in fields :: DecodeValue(fields[k]).value)
    else Err(NotAMapping)
  }

  /** The items of an `arrayValue`, decoded in order; any failure fails the whole. */
  function DecodeList(items: seq<Json>): (r: Result<seq<Json>, DecodeError>)
    ensures r.Ok? <==> forall i :: 0 <= i < |items| ==> DecodeValue(items[i]).Ok?
    ensures r.Ok? ==> |r.value| == |items|
    ensures r.Ok? ==> forall i :: 0 <= i < |items| ==> DecodeValue(items[i]) == Ok(r.value[i])
    decreases JArr(items), 0
  {
    if forall i :: 0 <= i < |items| ==> DecodeValue(items[i]).Ok? then
      Ok(seq(|items|, i requires 0 <= i < |items| => DecodeValue(items[i]).value))
    else Err(NotAMapping)
  }

  /** The wire form Firestore sends for a value. */
  function EncodeValue(j: Json): (w: Json)
    ensures w.JObj? && |w.fields| == 1
  {
    match j
    case JNull => JObj(map["nullValue" := JNull])
    case JBool(b) => JObj(map["booleanValue" := JBool(b)])
    case JInt(i) => JObj(map["integerValue" := JStr(IntToString(i))])
    case JStr(s) => JObj(map["stringValue" := JStr(s)])
    case JArr(items) =>
      JObj(map["arrayValue" := JObj(map["values" := JArr(seq(|items|, i requires 0 <= i < |items| => EncodeValue(items[i])))])])
    case JObj(fields) =>
      JObj(map["mapValue" := JObj(map["fields" := JObj(EncodeFields(fields))])])
  }

  /** The wire form of a document's fields: each value in its wire form. */
  function EncodeFields(fields: map<string, Json>): (w: map<string, Json>)
    ensures w.Keys == fields.Keys
    ensures forall k :: k in fields ==> w[k] == EncodeValue(fields[k])
    decreases JObj(fields), 0
  {
    map k | k in fields :: EncodeValue(fields[k])
  }

  /** Decoding the wire form of a value gives the value back. */
  lemma {:induction false} DecodeEncode(j: Json)
    ensures DecodeValue(EncodeValue(j)) == Ok(j)
    decreases j
  {
    match j
    case JNull =>
      DecodeEncodeScalar(j);
    case JBool(b) =>
      DecodeEncodeScalar(j);
    case JInt(i) =>
      DecodeEncodeScalar(j);
    case JStr(s) =>
      DecodeEncodeScalar(j);
    case JArr(items) =>
      forall i | 0 <= i < |items|
        ensures DecodeValue(EncodeValue(items[i])) == Ok(items[i])
      {
        DecodeEncode(items[i]);
      }
      DecodeEncodeArr(items);
    case JObj(fields) =>
      forall k | k in fields
        ensures DecodeValue(EncodeValue(fields[k])) == Ok(fields[k])
      {
        DecodeEncode(fields[k]);
      }
      DecodeEncodeObj(fields);
  }

  lemma DecodeEncodeScalar(j: Json)
    requires !j.JArr? && !j.JObj?
    ensures DecodeValue(EncodeValue(j)) == Ok(j)
  {
    match j
    case JNull => DecodeEncodeNull();
    case JBool(b) => DecodeEncodeBool(b);
    case JInt(i) => DecodeEncodeInt(i);
    case JStr(s) => DecodeEncodeStr(s);
  }

  lemma DecodeEncodeNull()
    ensures DecodeValue(EncodeValue(JNull)) == Ok(JNull)
  {
    var f := map["nullValue" := JNull];
    assert EncodeValue(JNull) == JObj(f);
    assert "stringValue" !in f && "integerValue" !in f && "doubleValue" !in f && "booleanValue" !in f;
    assert "nullValue" in f;
  }

  lemma DecodeEncodeBool(b: bool)
    ensures DecodeValue(EncodeValue(JBool(b))) == Ok(JBool(b))
  {
    var f := map["booleanValue" := JBool(b)];
    assert EncodeValue(JBool(b)) == JObj(f);
    assert "stringValue" !in f && "integerValue" !in f && "doubleValue" !in f;
    assert "booleanValue" in f && Truthy(f["booleanValue"]) == b;
  }

  lemma DecodeEncodeInt(i: int)
    ensures DecodeValue(EncodeValue(JInt(i))) == Ok(JInt(i))
  {
    var w := JStr(IntToString(i));
    IntWireParses(i);
    EncodeIntWire(i);
    DecodeIntegerWire(w, i);
  }

  lemma IntWireParses(i: int)
    ensures PyInt(JStr(IntToString(i))) == Some(i)
  {
    ParseIntLiteralOfIntToString(i);
  }

  lemma EncodeIntWire(i: int)
    ensures DecodeValue(EncodeValue(JInt(i))) == DecodeValue(JObj(map["integerValue" := JStr(IntToString(i))]))
  {
  }

  lemma DecodeIntegerWire(w: Json, i: int)
    requires PyInt(w) == Some(i)
    ensures DecodeValue(JObj(map["integerValue" := w])) == Ok(JInt(i))
  {
    var f := map["integerValue" := w];
    assert "stringValue" !in f && "integerValue" in f;
  }

  lemma DecodeEncodeStr(s: string)
    ensures DecodeValue(EncodeValue(JStr(s))) == Ok(JStr(s))
  {
    var f := map["stringValue" := JStr(s)];
    assert EncodeValue(JStr(s)) == JObj(f);
    assert "stringValue" in f;
  }

  lemma DecodeEncodeArr(items: seq<Json>)
    requires forall i :: 0 <= i < |items| ==> DecodeValue(EncodeValue(items[i])) == Ok(items[i])
    ensures DecodeValue(EncodeValue(JArr(items))) == Ok(JArr(items))
  {
    var wire := seq(|items|, i requires 0 <= i < |items| => EncodeValue(items[i]));
    var av := JObj(map["values" := JArr(wire)]);
    var f := map["arrayValue" := av];
    assert EncodeValue(JArr(items)) == JObj(f);
    assert DecodeValue(JObj(f)) == DecodeArrayValue(av);
    var d := DecodeList(wire);
    assert d.Ok?;
    assert d.value == items;
  }

  lemma DecodeEncodeObj(fields: map<string, Json>)
    requires forall k :: k in fields ==> DecodeValue(EncodeValue(fields[k])) == Ok(fields[k])
    ensures DecodeValue(EncodeValue(JObj(fields))) == Ok(JObj(fields))
  {
    var wire := EncodeFields(fields);
    assert wire.Keys == fields.Keys;
    forall k | k in wire
      ensures DecodeValue(wire[k]) == Ok(fields[k])
    {
      assert wire[k] == EncodeValue(fields[k]);
    }
    DecodeFieldsOf(wire, fields);
    DecodeMapWire(wire, fields);
    assert EncodeValue(JObj(fields)) == JObj(map["mapValue" := JObj(map["fields" := JObj(wire)])]);
  }

  lemma DecodeFieldsOf(wire: map<string, Json>, fields: map<string, Json>)
    requires wire.Keys == fields.Keys
    requires forall k :: k in wire ==> DecodeValue(wire[k]) == Ok(fields[k])
    ensures DecodeFields(wire) == Ok(fields)
  {
    var d := DecodeFields(wire);
    assert d.Ok?;
    assert d.value == fields;
  }

  lemma DecodeMapWire(wire: map<string, Json>, fields: map<string, Json>)
    requires DecodeFields(wire) == Ok(fields)
    ensures DecodeValue(JObj(map["mapValue" := JObj(map["fields" := JObj(wire)])])) == Ok(JObj(fields))
  {
    var mv := JObj(map["fields" := JObj(wire)]);
    var f := map["mapValue" := mv];
    assert "stringValue" !in f && "integerValue" !in f && "doubleValue" !in f && "booleanValue" !in f;
    assert "nullValue" !in f && "timestampValue" !in f && "bytesValue" !in f && "mapValue" in f;
    assert Truthy(mv) && "fields" in mv.fields;
    assert DecodeMapValue(mv) == Ok(JObj(fields));
  }

  /** The type keys, in the order the decoder tries them. */
  const TYPE_KEYS: seq<string> := ["stringValue", "integerValue", "doubleValue", "booleanValue", "nullValue",
                                   "timestampValue", "bytesValue", "mapValue", "arrayValue"]

  /** What a value decodes to when `key` is the type key that decides it and `payload` its payload. */
  function DecodeTyped(key: string, payload: Json): Result<Json, DecodeError> {
    match key
    case "stringValue" => Ok(payload)
    case "integerValue" =>
      var n := PyInt(payload);
      Ok(if n.Some? then JInt(n.value) else payload)
    case "booleanValue" => Ok(JBool(Truthy(payload)))
    case "nullValue" => Ok(JNull)
    case "mapValue" => DecodeMapValue(payload)
    case "arrayValue" => DecodeArrayValue(payload)
    case _ => Ok(payload)
  }

  /** `TYPE_KEYS[k]` is the first type key that `f` holds. */
  predicate IsFirstTypeKey(f: map<string, Json>, k: int) {
    0 <= k < |TYPE_KEYS| && TYPE_KEYS[k] in f && forall j :: 0 <= j < k ==> TYPE_KEYS[j] !in f
  }

  /** A map is decided by the first type key it holds, whatever other type keys it also holds. */
  lemma DecodeByFirstTypeKey(f: map<string, Json>, k: int)
    requires IsFirstTypeKey(f, k)
    ensures DecodeValue(JObj(f)) == DecodeTyped(TYPE_KEYS[k], f[TYPE_KEYS[k]])
  {
    assert TYPE_KEYS[0] == "stringValue" && TYPE_KEYS[1] == "integerValue" && TYPE_KEYS[2] == "doubleValue";
    assert TYPE_KEYS[3] == "booleanValue" && TYPE_KEYS[4] == "nullValue" && TYPE_KEYS[5] == "timestampValue";
    assert TYPE_KEYS[6] == "bytesValue" && TYPE_KEYS[7] == "mapValue" && TYPE_KEYS[8] == "arrayValue";
  }

  /** A map without any type key is returned as it is. */
  lemma UntypedMapIsKept(f: map<string, Json>)
    requires forall j :: 0 <= j < |TYPE_KEYS| ==> TYPE_KEYS[j] !in f
    ensures DecodeValue(JObj(f)) == Ok(JObj(f))
  {
    assert TYPE_KEYS[0] !in f && TYPE_KEYS[1] !in f && TYPE_KEYS[2] !in f && TYPE_KEYS[3] !in f && TYPE_KEYS[4] !in f;
    assert TYPE_KEYS[5] !in f && TYPE_KEYS[6] !in f && TYPE_KEYS[7] !in f && TYPE_KEYS[8] !in f;
  }

  /** A map holding the type key `TYPE_KEYS[i]` has a first type key no later than `i`. */
  lemma {:induction false} FirstTypeKeyExists(f: map<string, Json>, i: nat)
    requires i < |TYPE_KEYS| && TYPE_KEYS[i] in f
    ensures exists k :: 0 <= k <= i && IsFirstTypeKey(f, k)
    decreases i
  {
    if forall j :: 0 <= j < i ==> TYPE_KEYS[j] !in f {
      assert IsFirstTypeKey(f, i);
    } else {
      var j :| 0 <= j < i && TYPE_KEYS[j] in f;
      FirstTypeKeyExists(f, j);
    }
  }

  /**
   * The type keys are tried in a fixed order: once a map holds a type key,
   * adding or changing any type key later in the order leaves its decoding
   * unchanged.
   */
  lemma LaterTypeKeyIgnored(f: map<string, Json>, i: nat, j: nat, w: Json)
    requires i < j < |TYPE_KEYS| && TYPE_KEYS[i] in f
    ensures DecodeValue(JObj(f[TYPE_KEYS[j] := w])) == DecodeValue(JObj(f))
  {
    FirstTypeKeyExists(f, i);
    var k :| 0 <= k <= i && IsFirstTypeKey(f, k);
    var g := f[TYPE_KEYS[j] := w];
    assert TYPE_KEYS[k] != TYPE_KEYS[j];
    assert IsFirstTypeKey(g, k);
    DecodeByFirstTypeKey(f, k);
    DecodeByFirstTypeKey(g, k);
  }

  /** The type keys are tried in a fixed order: a string value wins over any other key. */
  lemma StringValueTakesPriority(f: map<string, Json>)
    requires "stringValue" in f
    ensures DecodeValue(JObj(f)) == Ok(f["stringValue"])
  {
  }

  /** A `mapValue` without `fields` decodes to an empty map, an `arrayValue` without `values` to an empty list. */
  lemma MissingContainersDecodeEmpty(mv: map<string, Json>, av: map<string, Json>)
    requires "fields" !in mv && "values" !in av
    ensures DecodeValue(JObj(map["mapValue" := JObj(mv)])) == Ok(JObj(map[]))
    ensures DecodeValue(JObj(map["arrayValue" := JObj(av)])) == Ok(JArr([]))
  {
  }

  // ---------------------------------------------------------------------------
  // parse_flow_run_event
  // ---------------------------------------------------------------------------

  datatype FlowRunEvent = FlowRunEvent(runId: string, flowRun: map<string, Json>, eventId: Json, eventType: Json, subject: Json)

  /** The run id an event names: the one in its document path, when it has one. */
  function RunIdOf(subject: Json, data: map<string, Json>): Option<string> {
    var docPath := ExtractDocPath(subject, data);
    if docPath.None? then None else ExtractRunId(docPath.value)
  }

  /** The event's `value.fields`, or null when `value` is not a map or has none. */
  function ValueFields(data: map<string, Json>): Json {
    var value := Get(data, "value");
    if value.JObj? then Get(value.fields, "fields") else JNull
  }

  /**
   * `parse_flow_run_event`, given the event's `id`, `type`, `subject` and
   * (decoded) `data`: None unless `data` is a map and a flow-run path with a
   * run id can be found; the flow run is the decoded `value.fields`, or `{}`.
   */
  function ParseFlowRunEvent(eventId: Json, eventType: Json, subject: Json, data: Json): (r: Result<Option<FlowRunEvent>, DecodeError>)
    ensures !data.JObj? ==> r == Ok(None)
    ensures r.Ok? && r.value.Some? ==>
      && data.JObj?
      && ExtractDocPath(subject, data.fields).Some?
      && ExtractRunId(ExtractDocPath(subject, data.fields).value) == Some(r.value.value.runId)
      && r.value.value.eventId == eventId && r.value.value.eventType == eventType && r.value.value.subject == subject
    ensures r == Ok(None) <==> !(data.JObj? && RunIdOf(subject, data.fields).Some?)
    ensures data.JObj? && RunIdOf(subject, data.fields).Some? ==>
      var runId := RunIdOf(subject, data.fields).value;
      var fields := ValueFields(data.fields);
      && (!fields.JObj? ==> r == Ok(Some(FlowRunEvent(runId, map[], eventId, eventType, subject))))
      && (fields.JObj? && DecodeFields(fields.fields).Err? ==> r.Err?)
      && (fields.JObj? && DecodeFields(fields.fields).Ok? ==>
            r == Ok(Some(FlowRunEvent(runId, DecodeFields(fields.fields).value, eventId, eventType, subject))))
  {
    if !data.JObj? then Ok(None)
    else
      var docPath := ExtractDocPath(subject, data.fields);
      if docPath.None? || docPath.value == "" then Ok(None)
      else
        var runId := ExtractRunId(docPath.value);
        if runId.None? then Ok(None)
        else
          var value := Get(data.fields, "value");
          var fields := if value.JObj? then Get(value.fields, "fields") else JNull;
          var flowRun := if fields.JObj? then DecodeFields(fields.fields) else Ok(map[]);
          if flowRun.Err? then Err(flowRun.error)
          else Ok(Some(FlowRunEvent(runId.value, flowRun.value, eventId, eventType, subject)))
  }

  /** An event whose subject and document name both lack the flow-runs marker is dropped. */
  lemma NonFlowRunEventIsDropped(eventId: Json, eventType: Json, subject: string, data: map<string, Json>)
    requires !Contains(subject, RELATIVE_FLOW_RUNS_MARKER)
    requires var value := Get(data, "value");
      !(value.JObj? && Get(value.fields, "name").JStr? && Contains(Get(value.fields, "name").s, FLOW_RUNS_MARKER))
    ensures ParseFlowRunEvent(eventId, eventType, JStr(subject), JObj(data)) == Ok(None)
  {
    if Contains(subject, FLOW_RUNS_MARKER) {
      ContainsSuffixOf(subject, FLOW_RUNS_MARKER, 1);
    }
    assert ExtractDocPath(JStr(subject), data).None?;
  }

  /**
   * An update event for `.../documents/flow_runs/<runId>[/...]` whose
   * document carries the wire form of a flow run parses to that run id and
   * that flow run.
   */
  lemma ParseEncodedFlowRun(eventId: Json, eventType: Json, prefix: string, runId: string, rest: string,
                            flowRun: map<string, Json>)
    requires IndexOf(prefix + FLOW_RUNS_MARKER, FLOW_RUNS_MARKER) == Some(|prefix|)
    requires runId != "" && '/' !in runId
    requires rest == "" || rest[0] == '/'
    ensures var subject := JStr(prefix + FLOW_RUNS_MARKER + runId + rest);
      var data := map["value" := JObj(map["fields" := JObj(EncodeFields(flowRun))])];
      ParseFlowRunEvent(eventId, eventType, subject, JObj(data)) == Ok(Some(FlowRunEvent(runId, flowRun, eventId, eventType, subject)))
  {
    var subject := JStr(prefix + FLOW_RUNS_MARKER + runId + rest);
    var wire := EncodeFields(flowRun);
    var data := map["value" := JObj(map["fields" := JObj(wire)])];
    RunIdOfName(prefix, runId, rest, data);
    DecodeEncodeFields(flowRun);
    assert ValueFields(data) == JObj(wire);
    ParseFlowRunEventOf(eventId, eventType, subject, data, runId, wire, flowRun);
  }

  /** An event naming a run id whose document fields decode parses to that run id and those fields. */
  lemma ParseFlowRunEventOf(eventId: Json, eventType: Json, subject: Json, data: map<string, Json>,
                            runId: string, wire: map<string, Json>, flowRun: map<string, Json>)
    requires RunIdOf(subject, data) == Some(runId)
    requires ValueFields(data) == JObj(wire) && DecodeFields(wire) == Ok(flowRun)
    ensures ParseFlowRunEvent(eventId, eventType, subject, JObj(data)) == Ok(Some(FlowRunEvent(runId, flowRun, eventId, eventType, subject)))
  {
  }

  /** The run id of an event whose subject is a flow-run resource name is the one in that name. */
  lemma RunIdOfName(prefix: string, runId: string, rest: string, data: map<string, Json>)
    requires IndexOf(prefix + FLOW_RUNS_MARKER, FLOW_RUNS_MARKER) == Some(|prefix|)
    requires runId != "" && '/' !in runId
    requires rest == "" || rest[0] == '/'
    ensures RunIdOf(JStr(prefix + FLOW_RUNS_MARKER + runId + rest), data) == Some(runId)
  {
    var name := prefix + FLOW_RUNS_MARKER + runId + rest;
    IndexOfExtend(prefix + FLOW_RUNS_MARKER, FLOW_RUNS_MARKER, runId + rest);
    assert name == (prefix + FLOW_RUNS_MARKER) + (runId + rest);
    assert Contains(name, FLOW_RUNS_MARKER);
    assert ExtractDocPath(JStr(name), data) == Some(name);
    ExtractRunIdOfName(prefix, runId, rest);
  }

  /** Decoding the wire form of a document's fields gives the fields back. */
  lemma DecodeEncodeFields(fields: map<string, Json>)
    ensures DecodeFields(EncodeFields(fields)) == Ok(fields)
  {
    var wire := EncodeFields(fields);
    forall k | k in wire
      ensures DecodeValue(wire[k]) == Ok(fields[k])
    {
      DecodeEncode(fields[k]);
    }
    DecodeFieldsOf(wire, fields);
  }

  // ---------------------------------------------------------------------------
  // pick_ready_chart_export_step
  // ---------------------------------------------------------------------------

  /** A step the worker may run: a map whose `stepType` is CHART_EXPORT and whose `status` is READY. */
  predicate IsReadyChartExport(step: Json) {
    step.JObj? && Get(step.fields, "stepType") == JStr(CHART_EXPORT) && Get(step.fields, "status") == JStr("READY")
  }

  /** The ids of the ready chart-export steps. */
  function ReadySteps(steps: map<string, Json>): set<string> {
    set id | id in steps && IsReadyChartExport(steps[id])
  }

  /**
   * `pick_ready_chart_export_step`: the least ready chart-export step id in
   * code-point order, or None when `steps` is not a map or holds none.
   */
  method PickReadyStep(flowRun: map<string, Json>) returns (r: Option<string>)
    ensures !Get(flowRun, "steps").JObj? ==> r.None?
    ensures Get(flowRun, "steps").JObj? ==> (r.None? <==> ReadySteps(Get(flowRun, "steps").fields) == {})
    ensures r.Some? ==> Get(flowRun, "steps").JObj? && r.value in ReadySteps(Get(flowRun, "steps").fields)
    ensures r.Some? ==> forall y :: y in ReadySteps(Get(flowRun, "steps").fields) ==> LexLe(r.value, y)
  {
    var steps := Get(flowRun, "steps");
    if !steps.JObj? {
      return None;
    }
    var ready := ReadySteps(steps.fields);
    var remaining := ready;
    r := None;
    while remaining != {}
      invariant remaining <= ready
      invariant r.None? <==> remaining == ready
      invariant r.Some? ==> r.value in ready
      invariant r.Some? ==> forall y :: y in ready - remaining ==> LexLe(r.value, y)
      decreases |remaining|
    {
      var x :| x in remaining;
      if r.None? || LexLess(x, r.value) {
        if r.Some? {
          forall y | y in ready - remaining
            ensures LexLe(x, y)
          {
            if y != r.value {
              LexLessTransitive(x, r.value, y);
            }
          }
        }
        r := Some(x);
      } else {
        LexTotal(x, r.value);
      }
      remaining := remaining - {x};
    }
  }

  /** The pick is the one least ready id: any id with the same two properties is it. */
  lemma PickIsUnique(ready: set<string>, a: string, b: string)
    requires a in ready && b in ready
    requires forall y :: y in ready ==> LexLe(a, y)
    requires forall y :: y in ready ==> LexLe(b, y)
    ensures a == b
  {
    if a != b {
      assert LexLess(a, b) && LexLess(b, a);
      LexLessAsymmetric(a, b);
    }
  }
}
