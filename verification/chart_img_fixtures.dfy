/**
 * The fixture naming scheme of the Chart-IMG client
 * (worker_chart_export/chart_img.py): the per-request stem, the error slug,
 * the status that the error-fixture file name carries, and how a loaded error
 * fixture is classified.  Reading, writing and globbing the files is not
 * modelled; the decoded fixture content is an input.
 */
module ChartImgFixtures {
  import opened Wrappers
  import opened Json
  import opened Strings
  import opened ChartImg

  // ---------------------------------------------------------------------------
  // Stem
  // ---------------------------------------------------------------------------

  /** `_fixture_stem`: `<symbol with ':' as '_'>__<timeframe>__<chartTemplateId>`. */
  function FixtureStem(request: ChartImgRequest): (stem: string)
    ensures StartsWith(stem, Replace(request.chartImgSymbol, ":", "_"))
    ensures EndsWith(stem, "__" + request.timeframe + "__" + request.chartTemplateId)
  {
    var symbol := Replace(request.chartImgSymbol, ":", "_");
    var stem := symbol + "__" + request.timeframe + "__" + request.chartTemplateId;
    assert stem[..|symbol|] == symbol;
    assert stem[|stem| - |"__" + request.timeframe + "__" + request.chartTemplateId|..]
        == "__" + request.timeframe + "__" + request.chartTemplateId;
    stem
  }

  /** Replacing every ':' leaves none behind and keeps the length. */
  lemma {:induction false} ReplaceColonRemovesColons(s: string)
    ensures ':' !in Replace(s, ":", "_") && |Replace(s, ":", "_")| == |s|
    decreases |s|
  {
    if |s| >= 1 {
      ReplaceColonRemovesColons(s[1..]);
    }
  }

  /**
   * The stem opens with the symbol, as long as before but with every ':'
   * turned into '_' (`EXCHANGE:TICKER` becomes `EXCHANGE_TICKER`), then `__`.
   */
  lemma FixtureStemSymbolPart(request: ChartImgRequest)
    ensures var stem := FixtureStem(request); var n := |request.chartImgSymbol|;
      n + 2 <= |stem| && ':' !in stem[..n] && stem[n..n + 2] == "__"
  {
    ReplaceColonRemovesColons(request.chartImgSymbol);
  }

  // ---------------------------------------------------------------------------
  // Slug
  // ---------------------------------------------------------------------------

  predicate IsSlugChar(c: char) { c == '_' || IsDigit(c) || IsUpperLetter(c) }

  predicate NoDoubleUnderscore(s: string) {
    forall i :: 0 <= i < |s| - 1 ==> !(s[i] == '_' && s[i + 1] == '_')
  }

  /** What `_slugify_error` promises: non-empty, `[A-Z0-9_]`, single underscores, none at either end. */
  predicate IsSlug(s: string) {
    && |s| > 0
    && (forall i :: 0 <= i < |s| ==> IsSlugChar(s[i]))
    && NoDoubleUnderscore(s)
    && s[0] != '_' && s[|s| - 1] != '_'
  }

  /** The loop of `_slugify_error` over `message.upper()`, with its `last_was_sep` flag. */
  function SlugChars(s: string, lastWasSep: bool): (r: string)
    ensures forall i :: 0 <= i < |r| ==> IsSlugChar(r[i])
    ensures NoDoubleUnderscore(r)
    ensures lastWasSep && |r| > 0 ==> r[0] != '_'
    decreases |s|
  {
    if |s| == 0 then ""
    else
      var c := ToUpperChar(s[0]);
      if IsAlnum(c) then [c] + SlugChars(s[1..], false)
      else if lastWasSep then SlugChars(s[1..], true)
      else "_" + SlugChars(s[1..], true)
  }

  /** `s.lstrip(c)`. */
  function TrimLeftChar(s: string, c: char): (r: string)
    ensures |r| <= |s| && r == s[|s| - |r|..]
    ensures |r| == 0 || r[0] != c
    ensures (forall i :: 0 <= i < |s| ==> s[i] == c) ==> r == ""
    decreases |s|
  {
    if |s| > 0 && s[0] == c then TrimLeftChar(s[1..], c) else s
  }

  /** `s.rstrip(c)`. */
  function TrimRightChar(s: string, c: char): (r: string)
    ensures |r| <= |s| && r == s[..|r|]
    ensures |r| == 0 || r[|r| - 1] != c
    decreases |s|
  {
    if |s| > 0 && s[|s| - 1] == c then TrimRightChar(s[..|s| - 1], c) else s
  }

  /** `s.strip('_')` keeps the slug characters and the single underscores and clears both ends. */
  function TrimUnderscores(s: string): (r: string)
    requires forall i :: 0 <= i < |s| ==> IsSlugChar(s[i])
    requires NoDoubleUnderscore(s)
    ensures forall i :: 0 <= i < |r| ==> IsSlugChar(r[i])
    ensures NoDoubleUnderscore(r)
    ensures |r| == 0 || (r[0] != '_' && r[|r| - 1] != '_')
    ensures (forall i :: 0 <= i < |s| ==> s[i] == '_') ==> r == ""
  {
    var left := TrimLeftChar(s, '_');
    var r := TrimRightChar(left, '_');
    assert forall i :: 0 <= i < |r| ==> r[i] == s[|s| - |left| + i];
    r
  }

  /** `_slugify_error`. */
  function SlugifyError(message: string): (slug: string)
    ensures IsSlug(slug)
  {
    var trimmed := TrimUnderscores(SlugChars(message, false));
    if trimmed == "" then "ERROR" else trimmed
  }

  /** A message without letters or digits slugs to `ERROR`. */
  lemma {:induction false} SlugCharsWithoutAlnum(s: string, lastWasSep: bool)
    requires forall i :: 0 <= i < |s| ==> !IsAlnum(ToUpperChar(s[i]))
    ensures forall i :: 0 <= i < |SlugChars(s, lastWasSep)| ==> SlugChars(s, lastWasSep)[i] == '_'
    decreases |s|
  {
    if |s| > 0 {
      SlugCharsWithoutAlnum(s[1..], true);
    }
  }

  lemma SlugifyWithoutAlnumIsError(message: string)
    requires forall i :: 0 <= i < |message| ==> !IsAlnum(ToUpperChar(message[i]))
    ensures SlugifyError(message) == "ERROR"
  {
    SlugCharsWithoutAlnum(message, false);
  }

  /** A run of characters that are letters or digits once upper-cased. */
  predicate IsWord(w: string) {
    |w| > 0 && forall i :: 0 <= i < |w| ==> IsAlnum(ToUpperChar(w[i]))
  }

  /** A run of characters none of which is a letter or digit once upper-cased. */
  predicate IsSeparator(s: string) {
    forall i :: 0 <= i < |s| ==> !IsAlnum(ToUpperChar(s[i]))
  }

  /** `words[0] + seps[0] + words[1] + ... + words[n]`. */
  function Interleave(words: seq<string>, seps: seq<string>): string
    requires |words| > 0 && |seps| == |words| - 1
    decreases |words|
  {
    if |words| == 1 then words[0] else words[0] + seps[0] + Interleave(words[1..], seps[1..])
  }

  function UpperWords(words: seq<string>): seq<string> {
    seq(|words|, i requires 0 <= i < |words| => Upper(words[i]))
  }

  /** A word is copied upper-cased and clears the separator flag. */
  lemma {:induction false} SlugCharsWord(w: string, rest: string, lastWasSep: bool)
    requires IsWord(w)
    ensures SlugChars(w + rest, lastWasSep) == Upper(w) + SlugChars(rest, false)
    decreases |w|
  {
    assert (w + rest)[0] == w[0] && (w + rest)[1..] == w[1..] + rest;
    if |w| == 1 {
      assert Upper(w) == [ToUpperChar(w[0])];
      assert w[1..] + rest == rest;
    } else {
      SlugCharsWord(w[1..], rest, false);
      assert Upper(w) == [ToUpperChar(w[0])] + Upper(w[1..]);
    }
  }

  /** A separator run gives one underscore, or none right after another separator. */
  lemma {:induction false} SlugCharsSeparator(sep: string, rest: string, lastWasSep: bool)
    requires IsSeparator(sep)
    ensures SlugChars(sep + rest, lastWasSep)
         == (if |sep| > 0 && !lastWasSep then "_" else "") + SlugChars(rest, lastWasSep || |sep| > 0)
    decreases |sep|
  {
    if |sep| == 0 {
      assert sep + rest == rest;
    } else {
      assert (sep + rest)[0] == sep[0] && (sep + rest)[1..] == sep[1..] + rest;
      SlugCharsSeparator(sep[1..], rest, true);
    }
  }

  lemma {:induction false} SlugCharsInterleave(words: seq<string>, seps: seq<string>, rest: string, lastWasSep: bool)
    requires |words| > 0 && |seps| == |words| - 1
    requires forall i :: 0 <= i < |words| ==> IsWord(words[i])
    requires forall i :: 0 <= i < |seps| ==> |seps[i]| > 0 && IsSeparator(seps[i])
    ensures SlugChars(Interleave(words, seps) + rest, lastWasSep) == Join(UpperWords(words), "_") + SlugChars(rest, false)
    decreases |words|
  {
    if |words| == 1 {
      SlugCharsWord(words[0], rest, lastWasSep);
    } else {
      var tail := Interleave(words[1..], seps[1..]);
      assert Interleave(words, seps) + rest == words[0] + (seps[0] + (tail + rest));
      SlugCharsWord(words[0], seps[0] + (tail + rest), lastWasSep);
      SlugCharsSeparator(seps[0], tail + rest, false);
      SlugCharsInterleave(words[1..], seps[1..], rest, true);
      assert UpperWords(words)[1..] == UpperWords(words[1..]);
    }
  }

  /** The upper-cased words joined by `_` start and end with a letter or digit. */
  lemma {:induction false} JoinedWordsEnds(words: seq<string>)
    requires |words| > 0 && forall i :: 0 <= i < |words| ==> IsWord(words[i])
    ensures var j := Join(UpperWords(words), "_");
      |j| > 0 && IsAlnum(j[0]) && IsAlnum(j[|j| - 1])
    decreases |words|
  {
    var j := Join(UpperWords(words), "_");
    if |words| == 1 {
      assert j == Upper(words[0]);
      assert IsAlnum(ToUpperChar(words[0][|words[0]| - 1]));
    } else {
      JoinedWordsEnds(words[1..]);
      assert UpperWords(words)[1..] == UpperWords(words[1..]);
      var t := Join(UpperWords(words[1..]), "_");
      assert j == Upper(words[0]) + "_" + t;
      assert j[|j| - 1] == t[|t| - 1];
    }
    assert j[0] == ToUpperChar(words[0][0]);
  }

  /** Stripping `_` off `lead + s + trail` leaves `s`, when `s` has a non-underscore at each end. */
  lemma TrimAround(lead: string, s: string, trail: string)
    requires lead == "" || lead == "_"
    requires trail == "" || trail == "_"
    requires |s| > 0 && s[0] != '_' && s[|s| - 1] != '_'
    ensures TrimRightChar(TrimLeftChar(lead + s + trail, '_'), '_') == s
  {
    assert lead + s + trail == lead + (s + trail);
    TrimLeftUnderscore(lead, s + trail);
    TrimRightUnderscore(s, trail);
  }

  lemma TrimLeftUnderscore(lead: string, u: string)
    requires lead == "" || lead == "_"
    requires |u| > 0 && u[0] != '_'
    ensures TrimLeftChar(lead + u, '_') == u
  {
    if lead == "_" {
      assert (lead + u)[0] == '_' && (lead + u)[1..] == u;
    } else {
      assert lead + u == u;
    }
  }

  lemma TrimRightUnderscore(s: string, trail: string)
    requires trail == "" || trail == "_"
    requires |s| > 0 && s[|s| - 1] != '_'
    ensures TrimRightChar(s + trail, '_') == s
  {
    if trail == "_" {
      assert (s + trail)[|s|] == '_' && (s + trail)[..|s|] == s;
    } else {
      assert s + trail == s;
    }
  }

  /**
   * Letters are upper-cased and every run of other characters becomes one
   * underscore between words, none at either end: a message made of words
   * separated, and possibly preceded and followed, by runs of other
   * characters slugs to its upper-cased words joined by `_`.
   */
  lemma SlugifyWords(lead: string, words: seq<string>, seps: seq<string>, trail: string)
    requires |words| > 0 && |seps| == |words| - 1
    requires forall i :: 0 <= i < |words| ==> IsWord(words[i])
    requires forall i :: 0 <= i < |seps| ==> |seps[i]| > 0 && IsSeparator(seps[i])
    requires IsSeparator(lead) && IsSeparator(trail)
    ensures SlugifyError(lead + Interleave(words, seps) + trail) == Join(UpperWords(words), "_")
  {
    var body := Interleave(words, seps);
    var j := Join(UpperWords(words), "_");
    SlugCharsInterleave(words, seps, trail, |lead| > 0);
    SlugCharsFramed(lead, body, trail, j);
    JoinedWordsEnds(words);
    SlugifyOfChars(lead + body + trail, if |lead| > 0 then "_" else "", j, if |trail| > 0 then "_" else "");
  }

  /** Separator runs around a text add at most one underscore at each end. */
  lemma SlugCharsFramed(lead: string, body: string, trail: string, j: string)
    requires IsSeparator(lead) && IsSeparator(trail)
    requires SlugChars(body + trail, |lead| > 0) == j + SlugChars(trail, false)
    ensures SlugChars(lead + body + trail, false)
         == (if |lead| > 0 then "_" else "") + j + (if |trail| > 0 then "_" else "")
  {
    assert lead + body + trail == lead + (body + trail);
    SlugCharsSeparator(lead, body + trail, false);
    SlugCharsSeparator(trail, "", false);
    assert trail + "" == trail;
  }

  /** A message whose slug characters are `j` with at most one underscore around it slugs to `j`. */
  lemma SlugifyOfChars(message: string, l: string, j: string, t: string)
    requires l == "" || l == "_"
    requires t == "" || t == "_"
    requires |j| > 0 && IsAlnum(j[0]) && IsAlnum(j[|j| - 1])
    requires SlugChars(message, false) == l + j + t
    ensures SlugifyError(message) == j
  {
    TrimAround(l, j, t);
  }

  // ---------------------------------------------------------------------------
  // Status in the error-fixture file name
  // ---------------------------------------------------------------------------

  /** `_parse_status_from_filename`: the leading digits after the last `__`, before `.json`. */
  function ParseStatusFromFilename(filename: string): (r: Option<int>)
    ensures r.Some? ==> r.value >= 0
    ensures LastIndexOf(filename, "__").None? ==> r.None?
  {
    match LastIndexOf(filename, "__")
    case None => None
    case Some(i) =>
      var suffix := filename[i + 2..];
      if !EndsWith(suffix, ".json") then None
      else
        var digits := LeadingDigits(suffix[..|suffix| - 5]);
        if |digits| > 0 then Some(DigitsValue(digits)) else None
  }

  /** `error.http_status or 0`. */
  function StatusOrZero(status: Option<int>): int {
    if status.Some? then status.value else 0
  }

  /** The file `_record_fixture` writes an error to: `<stem>__<status>_<slug>.json`. */
  function ErrorFixtureName(stem: string, error: ChartApiError): (name: string)
    ensures StartsWith(name, stem + "__") && EndsWith(name, ".json")
  {
    var slug := SlugifyError(if error.message == "" then "ERROR" else error.message);
    var mid := IntToString(StatusOrZero(error.httpStatus)) + "_" + slug;
    Framed(stem + "__", mid, ".json");
    stem + "__" + mid + ".json"
  }

  lemma Framed(prefix: string, mid: string, suffix: string)
    ensures StartsWith(prefix + mid + suffix, prefix) && EndsWith(prefix + mid + suffix, suffix)
  {
    var s := prefix + mid + suffix;
    assert s[..|prefix|] == prefix;
    assert s[|s| - |suffix|..] == suffix;
  }

  lemma NoDoubleUnderscoreConcat(a: string, b: string)
    requires NoDoubleUnderscore(a) && NoDoubleUnderscore(b)
    requires |a| == 0 || |b| == 0 || a[|a| - 1] != '_' || b[0] != '_'
    ensures NoDoubleUnderscore(a + b)
  {
    var ab := a + b;
    forall i | 0 <= i < |ab| - 1
      ensures !(ab[i] == '_' && ab[i + 1] == '_')
    {
      if i + 1 < |a| {
        assert ab[i] == a[i] && ab[i + 1] == a[i + 1];
      } else if i >= |a| {
        assert ab[i] == b[i - |a|] && ab[i + 1] == b[i + 1 - |a|];
      }
    }
  }

  /** The part after the stem's `__` never holds another `__`. */
  lemma FixtureTailHasSingleUnderscores(code: string, slug: string)
    requires |code| > 0 && (code[0] == '-' || IsDigit(code[0]))
    requires forall i :: 0 <= i < |code| ==> code[i] == '-' || IsDigit(code[i])
    requires IsSlug(slug)
    ensures NoDoubleUnderscore("_" + code + "_" + slug + ".json")
  {
    assert NoDoubleUnderscore(code);
    NoDoubleUnderscoreConcat("_", code);
    NoDoubleUnderscoreConcat("_" + code, "_");
    NoDoubleUnderscoreConcat("_" + code + "_", slug);
    assert NoDoubleUnderscore(".json");
    NoDoubleUnderscoreConcat("_" + code + "_" + slug, ".json");
  }

  /** When nothing after a `__` holds another `__`, that `__` is the last one. */
  lemma LastSeparatorAfterStem(stem: string, rest: string)
    requires NoDoubleUnderscore("_" + rest)
    ensures LastIndexOf(stem + "__" + rest, "__") == Some(|stem|)
  {
    var name := stem + "__" + rest;
    var after := "_" + rest;
    assert name[|stem| + 1..] == after;
    assert OccursAt(name, "__", |stem|);
    forall j | j > |stem|
      ensures !OccursAt(name, "__", j)
    {
      if j + 2 <= |name| {
        assert name[j] == after[j - |stem| - 1] && name[j + 1] == after[j - |stem|];
        assert name[j..j + 2] == [name[j], name[j + 1]];
      }
    }
  }

  /** The status read back from `<stem>__<code>_<slug>.json`, for a decimal code with an optional '-'. */
  lemma ParseStatusOfRecordedName(stem: string, code: string, slug: string)
    requires |code| > 0 && (code[0] == '-' || IsDigit(code[0]))
    requires forall i :: 0 <= i < |code| ==> code[i] == '-' || IsDigit(code[i])
    requires IsSlug(slug)
    ensures ParseStatusFromFilename(stem + "__" + code + "_" + slug + ".json")
         == if code[0] == '-' then None else Some(DigitsValue(LeadingDigits(code + "_" + slug)))
  {
    var tail := code + "_" + slug + ".json";
    FixtureTailHasSingleUnderscores(code, slug);
    assert "_" + code + "_" + slug + ".json" == "_" + tail;
    LastSeparatorAfterStem(stem, tail);
    var name := stem + "__" + tail;
    assert stem + "__" + code + "_" + slug + ".json" == name;
    assert name[|stem| + 2..] == tail;
    assert tail[..|tail| - 5] == code + "_" + slug;
  }

  /** `str(code)` is a decimal code, and its leading digits read back as `code` when it is not negative. */
  lemma {:induction false} IntToStringReadsBack(code: int, rest: string)
    requires |rest| > 0 && !IsDigit(rest[0])
    ensures var digits := IntToString(code);
      |digits| > 0 && (digits[0] == '-' || IsDigit(digits[0]))
      && (forall i :: 0 <= i < |digits| ==> digits[i] == '-' || IsDigit(digits[i]))
      && (digits[0] == '-' <==> code < 0)
      && (code >= 0 ==> DigitsValue(LeadingDigits(digits + rest)) == code)
  {
    var n: nat := if code < 0 then -code else code;
    var d := NatToString(n);
    assert IsDigit(d[0]);
    if code >= 0 {
      LeadingDigitsOfDigitsThen(d, rest);
      DigitsValueOfNatToString(n);
    }
  }

  /**
   * Recording an error and reading the status back from the file name gives
   * `http_status or 0` when that is non-negative (a negative status leaves no
   * leading digits, so the name yields none).
   */
  lemma ErrorFixtureNameRoundTrip(stem: string, error: ChartApiError)
    ensures var code := StatusOrZero(error.httpStatus);
      ParseStatusFromFilename(ErrorFixtureName(stem, error)) == if code >= 0 then Some(code) else None
  {
    var code := StatusOrZero(error.httpStatus);
    var slug := SlugifyError(if error.message == "" then "ERROR" else error.message);
    assert ErrorFixtureName(stem, error) == stem + "__" + (IntToString(code) + "_" + slug) + ".json";
    RecordedNameRoundTrip(stem, code, slug);
  }

  /** The status written into a fixture name with any slug is read back, and a negative one is not. */
  lemma RecordedNameRoundTrip(stem: string, code: int, slug: string)
    requires IsSlug(slug)
    ensures ParseStatusFromFilename(stem + "__" + (IntToString(code) + "_" + slug) + ".json")
         == if code >= 0 then Some(code) else None
  {
    var digits := IntToString(code);
    IntToStringReadsBack(code, "_" + slug);
    ParseStatusOfRecordedName(stem, digits, slug);
    assert stem + "__" + (digits + "_" + slug) + ".json" == stem + "__" + digits + "_" + slug + ".json";
    assert digits + "_" + slug == digits + ("_" + slug);
  }


  // ---------------------------------------------------------------------------
  // Error-fixture classification
  // ---------------------------------------------------------------------------

  /** `Path(path).name`: the text after the last '/'. */
  function FileName(path: string): string {
    var parts := Split(path, '/');
    parts[|parts| - 1]
  }

  /** The status an error-fixture payload states itself: an int (a bool counts) or a digit string. */
  function PayloadStatus(payload: Json): (r: Option<int>)
    ensures r.Some? ==> payload.JObj? && "status" in payload.fields && "body" in payload.fields
  {
    if payload.JObj? && "status" in payload.fields && "body" in payload.fields then
      var raw := payload.fields["status"];
      if AsPyInt(raw).Some? then AsPyInt(raw)
      else if raw.JStr? && |raw.s| > 0 && AllDigits(raw.s) then Some(DigitsValue(raw.s))
      else None
    else None
  }

  /**
   * The classification branch of `_load_error_fixture`.  `payload` is the
   * decoded file (`JNull` where decoding fails).
   */
  function LoadErrorFixture(payload: Json, path: string, chartTemplateId: string, chartImgSymbol: string): (r: ChartApiResult)
    ensures !r.ok && r.fromFixture && r.fixturePath == Some(path) && r.httpStatus.None? && r.pngBytes.None?
    ensures var wrapped := payload.JObj? && "status" in payload.fields && "body" in payload.fields;
      var body := if wrapped then payload.fields["body"] else payload;
      var status := if PayloadStatus(payload).Some? then PayloadStatus(payload) else ParseStatusFromFilename(FileName(path));
      r.error == Some(ClassifyErrorBody(status, body, chartTemplateId, chartImgSymbol))
  {
    var wrapped := payload.JObj? && "status" in payload.fields && "body" in payload.fields;
    var body := if wrapped then payload.fields["body"] else payload;
    var status := if PayloadStatus(payload).Some? then PayloadStatus(payload) else ParseStatusFromFilename(FileName(path));
    ChartApiResult(false, None, Some(ClassifyErrorBody(status, body, chartTemplateId, chartImgSymbol)), None, true, Some(path))
  }

  /** A fixture without any status is never a quota error and never retriable. */
  lemma StatuslessFixtureIsPermanent(payload: Json, path: string, chartTemplateId: string, chartImgSymbol: string)
    requires PayloadStatus(payload).None? && ParseStatusFromFilename(FileName(path)).None?
    ensures var e := LoadErrorFixture(payload, path, chartTemplateId, chartImgSymbol).error.value;
      e.code == CHART_API_FAILED && !e.retriable && e.httpStatus.None?
  {
  }

  /** What `_record_fixture` stores for an error: its status and the body it came with. */
  function RecordedPayload(error: ChartApiError): (p: Json)
    ensures p.JObj? && p.fields.Keys == {"status", "body"}
  {
    var body := if error.details.Some? && error.details.value.JObj? then Get(error.details.value.fields, "response") else JNull;
    var status := if error.httpStatus.Some? then JInt(error.httpStatus.value) else JNull;
    JObj(map["status" := status, "body" := body])
  }

  /**
   * Replaying a recorded HTTP error gives back the very error that was
   * recorded, whatever the fixture file is called.
   */
  lemma ReplayReproducesHttpError(
    status: int, body: Json, path: string, chartTemplateId: string, chartImgSymbol: string)
    ensures var e := ClassifyErrorBody(Some(status), body, chartTemplateId, chartImgSymbol);
      LoadErrorFixture(RecordedPayload(e), path, chartTemplateId, chartImgSymbol).error == Some(e)
  {
    var e := ClassifyErrorBody(Some(status), body, chartTemplateId, chartImgSymbol);
    var p := RecordedPayload(e);
    assert Get(e.details.value.fields, "response") == body;
    assert PayloadStatus(p) == Some(status);
    assert p.fields["body"] == body;
  }
}
