/** The sequential crew (backend/src/crew.py, up to the end of `_parse_extraction_result`):
    document preparation with its task normalisation, the text extraction from an OCR
    response, the per-task extraction loop and the regex-based result parser. */
module Crew {
  import opened Wrappers
  import opened Text
  import opened Models
  import TolerantParser
  import SchemaAnalyzer
  import Tools
  import Workflow

  // ---------------------------------------------------------------------------
  // `_parse_extraction_result`
  // ---------------------------------------------------------------------------

  const Fence := "```"
  const JsonFence := "```json"

  /** `re.sub(marker + r'\s*', '', text)`: scanning left to right, every occurrence of
      the marker is removed together with the run of whitespace after it; the text
      after a removal is not rescanned against what precedes it. */
  function RemoveMarker(text: string, marker: string): (r: string)
    requires |marker| > 0
    ensures |r| <= |text|
    decreases |text|
  {
    if |text| == 0 then ""
    else if StartsWith(text, marker) then RemoveMarker(StripLeft(text[|marker|..]), marker)
    else [text[0]] + RemoveMarker(text[1..], marker)
  }

  /** A text that does not hold the marker's first character is left alone. */
  lemma {:induction false} RemoveMarkerAbsent(text: string, marker: string)
    requires |marker| > 0 && marker[0] !in text
    ensures RemoveMarker(text, marker) == text
    decreases |text|
  {
    if |text| > 0 {
      assert text[0] in text;
      assert forall c :: c in text[1..] ==> c in text;
      RemoveMarkerAbsent(text[1..], marker);
      assert [text[0]] + text[1..] == text;
    }
  }

  /** A removal pass passes a prefix without the marker's first character through. */
  lemma {:induction false} RemoveMarkerAfterPlain(a: string, b: string, marker: string)
    requires |marker| > 0 && marker[0] !in a
    ensures RemoveMarker(a + b, marker) == a + RemoveMarker(b, marker)
    decreases |a|
  {
    if |a| == 0 {
      assert a + b == b;
    } else {
      assert a[0] in a;
      assert (a + b)[0] == a[0];
      assert !StartsWith(a + b, marker);
      assert (a + b)[1..] == a[1..] + b;
      assert forall c :: c in a[1..] ==> c in a;
      RemoveMarkerAfterPlain(a[1..], b, marker);
      AppendAssoc([a[0]], a[1..], RemoveMarker(b, marker));
      assert [a[0]] + a[1..] == a;
    }
  }

  /** After removing the fences, an output beginning with backticks comes from an input
      beginning with at least as many. */
  lemma {:induction false} FenceFreeStart(text: string, k: nat)
    requires k <= 2
    ensures StartsWith(RemoveMarker(text, Fence), Fence[..k]) ==> StartsWith(text, Fence[..k])
    decreases |text|
  {
    var r := RemoveMarker(text, Fence);
    if !StartsWith(r, Fence[..k]) {
    } else if k > 0 && !StartsWith(text, Fence) {
      assert |text| > 0;
      assert r == [text[0]] + RemoveMarker(text[1..], Fence);
      assert r[0] == Fence[..k][0] == '`';
      if k == 2 {
        assert StartsWith(RemoveMarker(text[1..], Fence), Fence[..1]) by {
          assert r[1..2] == RemoveMarker(text[1..], Fence)[..1];
        }
        FenceFreeStart(text[1..], 1);
        assert text[1..][..1] == Fence[..1];
        assert text[..2] == Fence[..2];
      } else {
        assert text[..1] == Fence[..1];
      }
    } else if k > 0 {
      assert text[..k] == Fence[..k];
    }
  }

  /** Removing every fence leaves no fence behind: a backtick the pass keeps is never
      followed by a removed fence, so no three kept backticks can meet. */
  lemma {:induction false} NoFenceLeft(text: string)
    ensures !Contains(RemoveMarker(text, Fence), Fence)
    decreases |text|
  {
    hide StripLeft;
    var r := RemoveMarker(text, Fence);
    if |text| == 0 {
    } else if StartsWith(text, Fence) {
      var rest := StripLeft(text[|Fence|..]);
      NoFenceLeft(rest);
    } else {
      var tail := RemoveMarker(text[1..], Fence);
      assert r == [text[0]] + tail;
      NoFenceLeft(text[1..]);
      assert r[1..] == tail;
      assert StartsWith(r, Fence) ==> StartsWith(tail, Fence[..2]) by {
        assert |r| >= 3 ==> r[1..3] == tail[..2];
      }
      FenceFreeStart(text[1..], 2);
      assert !(text[0] == '`' && StartsWith(text[1..], Fence[..2])) by {
        assert |text| >= 3 ==> text[..3] == [text[0]] + text[1..][..2];
      }
      assert !StartsWith(r, Fence);
    }
  }

  /** Both substitutions of `_parse_extraction_result`: first every "```json" with the
      whitespace after it, then every remaining "```" with the whitespace after it. */
  function StripFences(result: string): (r: string)
    ensures !Contains(r, Fence)
  {
    NoFenceLeft(RemoveMarker(result, JsonFence));
    RemoveMarker(RemoveMarker(result, JsonFence), Fence)
  }

  /** The dict returned when the text cannot be parsed: the fence-free text under
      `raw_output`. */
  function RawOutput(text: string): Value
  {
    Dict([("raw_output", Str(text))])
  }

  /** `_parse_extraction_result`: the strict parse of the greedy `{...}`/`[...]` span when
      there is one, and of the whole fence-free text only when there is none; any parse
      failure gives the `raw_output` dict. Unlike the graph's parser it neither falls back
      from a failed span to the whole text nor tries a literal parse. */
  function ParseExtractionResult(result: string, jsonLoads: string -> TolerantParser.ParseOutcome): (r: Value)
    ensures var text := StripFences(result);
      match TolerantParser.FindSpan(text)
      case Some((i, j)) =>
        jsonLoads(text[i..j + 1]).Parsed? ==> r == jsonLoads(text[i..j + 1]).value
      case None =>
        jsonLoads(text).Parsed? ==> r == jsonLoads(text).value
    ensures var text := StripFences(result);
      r == RawOutput(text)
      || (TolerantParser.FindSpan(text).None? && jsonLoads(text) == TolerantParser.Parsed(r))
      || (TolerantParser.FindSpan(text).Some?
          && jsonLoads(text[TolerantParser.FindSpan(text).value.0..TolerantParser.FindSpan(text).value.1 + 1])
             == TolerantParser.Parsed(r))
  {
    var text := StripFences(result);
    var candidate := match TolerantParser.FindSpan(text)
      case Some((i, j)) => text[i..j + 1]
      case None => text;
    match jsonLoads(candidate)
    case Parsed(v) => v
    case _ => RawOutput(text)
  }

  /** A lone closing fence is not an opening "```json" fence. */
  lemma FenceSurvivesJsonPass()
    ensures RemoveMarker(Fence, JsonFence) == Fence
  {
    assert !StartsWith(Fence, JsonFence);
    assert Fence[1..] == "``";
    assert RemoveMarker("``", JsonFence) == "``" by {
      assert !StartsWith("``", JsonFence);
      assert "``"[1..] == "`";
      assert RemoveMarker("`", JsonFence) == "`" by {
        assert !StartsWith("`", JsonFence);
        assert "`"[1..] == "";
      }
    }
  }

  /** Stripping the leading whitespace of a newline before a non-space text. */
  lemma StripNewline(t: string)
    requires |t| > 0 && !IsSpace(t[0])
    ensures StripLeft("\n" + t) == t
  {
    assert IsSpace(("\n" + t)[0]);
    assert ("\n" + t)[1..] == t;
  }

  /** A text starting with the marker loses it and the whitespace after it. */
  lemma RemoveMarkerAtStart(text: string, marker: string)
    requires |marker| > 0 && StartsWith(text, marker)
    ensures RemoveMarker(text, marker) == RemoveMarker(StripLeft(text[|marker|..]), marker)
  {
  }

  /** Appending a newline adds no backtick. */
  lemma NoBacktickWithNewline(body: string)
    requires '`' !in body
    ensures '`' !in body + "\n"
  {
    assert forall c :: c in body + "\n" ==> c in body || c == '\n';
  }

  /** The first pass removes the opening "```json" fence and the newline after it
      and leaves a body without backticks, and the closing fence, alone. */
  lemma JsonPassOfFencedBody(body: string)
    requires |body| > 0 && !IsSpace(body[0]) && '`' !in body
    ensures RemoveMarker(JsonFence + "\n" + body + "\n" + Fence, JsonFence) == body + "\n" + Fence
  {
    hide RemoveMarker, StripLeft;
    var input := JsonFence + "\n" + body + "\n" + Fence;
    var afterJson := body + "\n" + Fence;
    AppendAssoc(JsonFence + "\n", body, "\n");
    AppendAssoc(JsonFence + "\n", body + "\n", Fence);
    AppendAssoc(JsonFence, "\n", afterJson);
    assert input == JsonFence + ("\n" + afterJson);
    assert input[|JsonFence|..] == "\n" + afterJson;
    RemoveMarkerAtStart(input, JsonFence);
    StripNewline(afterJson);
    NoBacktickWithNewline(body);
    RemoveMarkerAfterPlain(body + "\n", Fence, JsonFence);
    FenceSurvivesJsonPass();
  }

  /** The second pass removes the closing fence after a text without backticks. */
  lemma FencePassOfBody(text: string)
    requires '`' !in text
    ensures RemoveMarker(text + Fence, Fence) == text
  {
    RemoveMarkerAfterPlain(text, Fence, Fence);
    assert StartsWith(Fence, Fence);
    assert Fence[|Fence|..] == "";
    assert text + "" == text;
  }

  /** The span of an object body followed by a newline is the whole body. */
  lemma SpanOfObjectBody(body: string)
    requires |body| >= 2 && body[0] == '{' && body[|body| - 1] == '}'
    ensures TolerantParser.FindSpan(body + "\n") == Some((0, |body| - 1))
    ensures (body + "\n")[0..|body|] == body
  {
    var text := body + "\n";
    assert text[0] == '{' && text[|body| - 1] == '}';
    assert TolerantParser.OpensSpan(text, 0) by {
      assert text[1..][|body| - 2] == '}';
    }
    assert forall k :: |body| - 1 < k < |text| ==> text[k] != '}';
    assert TolerantParser.SpanAt(text, 0, |body| - 1);
    assert text[0..|body|] == body;
  }

  /** A reply fenced as ```json whose body is one JSON object is parsed from the body:
      both fences and the newlines after them go, the span is the whole body, and an
      unparsable body is kept as `raw_output`. */
  lemma FencedObjectScenario(body: string, jsonLoads: string -> TolerantParser.ParseOutcome)
    requires |body| >= 2 && body[0] == '{' && body[|body| - 1] == '}' && '`' !in body
    ensures ParseExtractionResult(JsonFence + "\n" + body + "\n" + Fence, jsonLoads)
      == (if jsonLoads(body).Parsed? then jsonLoads(body).value else RawOutput(body + "\n"))
  {
    hide RemoveMarker;
    var input := JsonFence + "\n" + body + "\n" + Fence;
    JsonPassOfFencedBody(body);
    NoBacktickWithNewline(body);
    FencePassOfBody(body + "\n");
    assert StripFences(input) == body + "\n";
    SpanOfObjectBody(body);
  }

  // ---------------------------------------------------------------------------
  // `_extract_text_from_nanonets`
  // ---------------------------------------------------------------------------

  const OcrErrorText := "Error processing OCR result"

  /** What `result.get('result', [{}])[0].get('page_data', [])` iterates over, or `None`
      when reaching the pages raises: the `result` value must be a non-empty list whose
      first item is an object; the pages are a list, or an empty object or string
      (iterating a non-empty object or string reaches a `str` and `.get` fails). */
  function Pages(result: Value): Option<seq<Value>>
  {
    if !result.Dict? then None
    else
      var outer := GetOr(result.entries, "result", List([Dict([])]));
      if !outer.List? || |outer.items| == 0 || !outer.items[0].Dict? then None
      else
        match GetOr(outer.items[0].entries, "page_data", List([]))
        case List(items) => Some(items)
        case Dict(entries) => if |entries| == 0 then Some([]) else None
        case Str(s) => if |s| == 0 then Some([]) else None
        case _ => None
  }

  /** `page.get('raw_text', '')` for a page that is an object. */
  function RawText(page: Value): Value
    requires page.Dict?
  {
    GetOr(page.entries, "raw_text", Str(""))
  }

  /** The `raw_text` values the loop appends, in page order: the truthy ones. */
  function KeptValues(pages: seq<Value>): (r: seq<Value>)
    requires forall i :: 0 <= i < |pages| ==> pages[i].Dict?
    ensures |r| <= |pages|
    ensures forall k :: 0 <= k < |r| ==> Truthy(r[k])
    decreases |pages|
  {
    if |pages| == 0 then []
    else
      var front := KeptValues(pages[..|pages| - 1]);
      var raw := RawText(pages[|pages| - 1]);
      if Truthy(raw) then front + [raw] else front
  }

  /** The values kept from one more page extend those kept before it. */
  lemma KeptValuesStep(pages: seq<Value>, i: nat)
    requires i < |pages| && forall j :: 0 <= j <= i ==> pages[j].Dict?
    ensures KeptValues(pages[..i + 1])
      == KeptValues(pages[..i]) + (if Truthy(RawText(pages[i])) then [RawText(pages[i])] else [])
  {
    assert pages[..i + 1][..i] == pages[..i];
    assert pages[..i + 1][i] == pages[i];
  }

  /** The texts of values that are all strings. */
  function Texts(values: seq<Value>): (r: seq<string>)
    requires forall k :: 0 <= k < |values| ==> values[k].Str?
    ensures |r| == |values| && forall k :: 0 <= k < |values| ==> r[k] == values[k].s
  {
    seq(|values|, k requires 0 <= k < |values| => values[k].s)
  }

  /** `_extract_text_from_nanonets`: the kept page texts joined by blank lines; the
      error text when reaching the pages raises, when a page is not an object, or when
      `"\n\n".join` meets a kept value that is not a string. */
  function NanonetsText(result: Value): (r: string)
    ensures Pages(result).None? ==> r == OcrErrorText
  {
    match Pages(result)
    case None => OcrErrorText
    case Some(pages) =>
      if exists i :: 0 <= i < |pages| && !pages[i].Dict? then OcrErrorText
      else
        var values := KeptValues(pages);
        if exists k :: 0 <= k < |values| && !values[k].Str? then OcrErrorText
        else Join(Texts(values), "\n\n")
  }

  /** A page as the OCR service produces it: an object whose `raw_text`, if present, is
      a string. */
  predicate WellFormedPage(page: Value)
  {
    page.Dict? && (Get(page.entries, "raw_text").None? || Get(page.entries, "raw_text").value.Str?)
  }

  /** The text of a well-formed page, "" when it has none. */
  function PageText(page: Value): string
    requires WellFormedPage(page)
  {
    match Get(page.entries, "raw_text")
    case Some(v) => v.s
    case None => ""
  }

  /** The non-empty page texts, in page order. */
  function NonEmptyTexts(pages: seq<Value>): (r: seq<string>)
    requires forall i :: 0 <= i < |pages| ==> WellFormedPage(pages[i])
    ensures forall k :: 0 <= k < |r| ==> r[k] != ""
    decreases |pages|
  {
    if |pages| == 0 then []
    else
      var front := NonEmptyTexts(pages[..|pages| - 1]);
      var t := PageText(pages[|pages| - 1]);
      if t != "" then front + [t] else front
  }

  /** For well-formed pages, the truthy values the loop keeps are exactly the strings
      of the non-empty texts. */
  lemma {:induction false} KeptValuesOfWellFormed(pages: seq<Value>)
    requires forall i :: 0 <= i < |pages| ==> WellFormedPage(pages[i])
    ensures forall i :: 0 <= i < |pages| ==> pages[i].Dict?
    ensures forall k :: 0 <= k < |KeptValues(pages)| ==> KeptValues(pages)[k].Str?
    ensures Texts(KeptValues(pages)) == NonEmptyTexts(pages)
    decreases |pages|
  {
    if |pages| > 0 {
      var front := pages[..|pages| - 1];
      assert forall i :: 0 <= i < |front| ==> front[i] == pages[i];
      KeptValuesOfWellFormed(front);
      var page := pages[|pages| - 1];
      assert WellFormedPage(page);
      var a := KeptValues(pages);
      var b := NonEmptyTexts(pages);
      assert Truthy(RawText(page)) <==> PageText(page) != "";
      if PageText(page) != "" {
        assert RawText(page) == Str(PageText(page));
        assert a == KeptValues(front) + [RawText(page)];
        assert b == NonEmptyTexts(front) + [PageText(page)];
        assert Texts(a) == Texts(KeptValues(front)) + [PageText(page)];
      }
    }
  }

  /** For a response whose pages are well formed, the text is the non-empty page texts
      in page order, joined by blank lines. */
  lemma NanonetsJoinsPageTexts(result: Value, pages: seq<Value>)
    requires Pages(result) == Some(pages)
    requires forall i :: 0 <= i < |pages| ==> WellFormedPage(pages[i])
    ensures NanonetsText(result) == Join(NonEmptyTexts(pages), "\n\n")
  {
    hide Pages, Get, Join, KeptValues, NonEmptyTexts, Texts, WellFormedPage;
    KeptValuesOfWellFormed(pages);
    assert !exists i :: 0 <= i < |pages| && !pages[i].Dict?;
    var values := KeptValues(pages);
    assert !exists k :: 0 <= k < |values| && !values[k].Str?;
  }

  /** Every non-empty page text of a well-formed response occurs in the text. */
  lemma NanonetsKeepsEveryText(result: Value, pages: seq<Value>, k: nat)
    requires Pages(result) == Some(pages)
    requires forall i :: 0 <= i < |pages| ==> WellFormedPage(pages[i])
    requires k < |NonEmptyTexts(pages)|
    ensures Contains(NanonetsText(result), NonEmptyTexts(pages)[k])
  {
    NanonetsJoinsPageTexts(result, pages);
    JoinContains(NonEmptyTexts(pages), "\n\n", k);
  }

  /** A response object without a `result` key gives the empty text. */
  lemma MissingResultGivesEmptyText(entries: seq<(string, Value)>)
    requires forall k :: 0 <= k < |entries| ==> entries[k].0 != "result"
    ensures NanonetsText(Dict(entries)) == ""
  {
    assert Get(entries, "result").None?;
    assert Get([], "page_data").None?;
    assert Pages(Dict(entries)) == Some([]);
    assert KeptValues([]) == [];
  }

  /** An empty `result` list makes the indexing raise, which yields the error text. */
  lemma EmptyResultListGivesError(entries: seq<(string, Value)>)
    requires Get(entries, "result") == Some(List([]))
    ensures NanonetsText(Dict(entries)) == OcrErrorText
  {
  }

  /** `_extract_text_from_nanonets` as a loop: the pages are walked in order and the
      truthy `raw_text` values are appended; any exception yields the error text. */
  method ExtractTextFromNanonets(result: Value) returns (text: string)
    ensures text == NanonetsText(result)
  {
    assert KeptValues([]) == [];
    hide KeptValues, Join, Texts;
    var found := Pages(result);
    if found.None? {
      return OcrErrorText;
    }
    var pages := found.value;
    var textParts: seq<Value> := [];
    var i := 0;
    while i < |pages|
      invariant 0 <= i <= |pages|
      invariant forall j :: 0 <= j < i ==> pages[j].Dict?
      invariant textParts == KeptValues(pages[..i])
    {
      var page := pages[i];
      if !page.Dict? {
        return OcrErrorText;
      }
      var rawText := GetOr(page.entries, "raw_text", Str(""));
      KeptValuesStep(pages, i);
      if Truthy(rawText) {
        textParts := textParts + [rawText];
      }
      i := i + 1;
    }
    assert pages[..i] == pages;
    if exists k :: 0 <= k < |textParts| && !textParts[k].Str? {
      return OcrErrorText;
    }
    return Join(Texts(textParts), "\n\n");
  }

  // ---------------------------------------------------------------------------
  // Task normalisation in `prepare_document`
  // ---------------------------------------------------------------------------

  /** `str(e)` for the `KeyError` of a missing key. */
  function KeyErrorText(key: string): string
  {
    "'" + key + "'"
  }

  /** One task as the preparation loop builds it, as written: the fields come from the
      legacy `schema` key, then `task_data['aim']` is read, and the task is built with
      the keyword `schema`, which `ExtractionTask` ignores, so the required
      `extraction_schema` is missing and validation always fails. */
  function NormalizeTaskAsWritten(raw: RawTask): Result<ExtractionTask, string>
  {
    if raw.schema.None? then Err(KeyErrorText("schema"))
    else match ValidateFields(raw.schema.value)
      case Err(e) => Err(e)
      case Ok(_) => if raw.aim.None? then Err(KeyErrorText("aim")) else Err(ValidationMessage)
  }

  /** The preparation loop as written: the first task that fails fails the preparation. */
  function NormalizeTasksAsWritten(raws: seq<RawTask>): Result<seq<ExtractionTask>, string>
    decreases |raws|
  {
    if |raws| == 0 then Ok([])
    else match NormalizeTaskAsWritten(raws[0])
      case Err(e) => Err(e)
      case Ok(t) =>
        match NormalizeTasksAsWritten(raws[1..])
        case Err(e) => Err(e)
        case Ok(ts) => Ok([t] + ts)
  }

  /** One task as the preparation loop evidently intends it: the fields of the legacy
      `schema` key become the task's `extraction_schema`; `multi_row` keeps its default. */
  function NormalizeTask(raw: RawTask): (r: Result<ExtractionTask, string>)
    ensures r.Ok? <==> raw.schema.Some? && ValidateFields(raw.schema.value).Ok? && raw.aim.Some?
    ensures r.Ok? ==> r.value == ExtractionTask(raw.aim.value, ValidateFields(raw.schema.value).value)
  {
    if raw.schema.None? then Err(KeyErrorText("schema"))
    else match ValidateFields(raw.schema.value)
      case Err(e) => Err(e)
      case Ok(fields) => if raw.aim.None? then Err(KeyErrorText("aim")) else Ok(ExtractionTask(raw.aim.value, fields))
  }

  /** The preparation loop, evidently intended: every task normalised, in order. */
  function NormalizeTasks(raws: seq<RawTask>): (r: Result<seq<ExtractionTask>, string>)
    ensures r.Ok? <==> forall i :: 0 <= i < |raws| ==> NormalizeTask(raws[i]).Ok?
    ensures r.Ok? ==> (|r.value| == |raws|
      && forall i :: 0 <= i < |raws| ==> NormalizeTask(raws[i]) == Ok(r.value[i]))
    decreases |raws|
  {
    if |raws| == 0 then Ok([])
    else match NormalizeTask(raws[0])
      case Err(e) => Err(e)
      case Ok(t) =>
        match NormalizeTasks(raws[1..])
        case Err(e) => Err(e)
        case Ok(ts) => Ok([t] + ts)
  }

  /** As written, preparation rejects every non-empty task list, even the smallest well
      formed one, which the intended version accepts. */
  lemma AsWrittenRejectsEveryTask(raws: seq<RawTask>)
    ensures |raws| > 0 ==> NormalizeTasksAsWritten(raws).Err?
    ensures NormalizeTasksAsWritten([RawTask(Some("a"), None, Some([]))]) == Err(ValidationMessage)
    ensures NormalizeTasks([RawTask(Some("a"), None, Some([]))]) == Ok([ExtractionTask("a", [])])
  {
    assert ValidateFields([]) == Ok([]);
    assert NormalizeTask(RawTask(Some("a"), None, Some([]))) == Ok(ExtractionTask("a", []));
    assert NormalizeTasks([RawTask(Some("a"), None, Some([]))][1..]) == Ok([]);
    assert [ExtractionTask("a", [])] + [] == [ExtractionTask("a", [])];
    if |raws| > 0 {
      assert NormalizeTaskAsWritten(raws[0]).Err?;
    }
  }

  /** The intended normalisation agrees with the graph's validation of the same task
      under the current key: the crew's legacy `schema` list is the graph's
      `extraction_schema` list. */
  lemma NormalizeTaskMatchesValidation(raw: RawTask)
    requires NormalizeTask(raw).Ok?
    ensures ValidateTask(RawTask(raw.aim, raw.schema)) == NormalizeTask(raw)
  {
  }

  // ---------------------------------------------------------------------------
  // The per-task extraction loop of `extract`
  // ---------------------------------------------------------------------------

  /** One entry of `results`: a 1-based task number, the aim, and either the parsed
      data (status "success") or the error text (status "error"). */
  datatype TaskOutcome =
    | Succeeded(taskNumber: nat, taskAim: string, data: Value)
    | Failed(taskNumber: nat, taskAim: string, error: string)

  function Status(o: TaskOutcome): string
  {
    if o.Succeeded? then "success" else "error"
  }

  /** What `extract` returns: the success dict, or the error dict of an exception
      raised outside the per-task `try`. */
  datatype CrewOutput =
    | CrewSuccess(markdownLength: nat, tasksProcessed: nat, results: seq<TaskOutcome>)
    | CrewError(error: string)

  const ClosingInstruction := "\n\nExtract the data and return ONLY valid JSON matching the schema. No additional commentary."

  /** The agent's task description: the tool's prompt, then the document under its
      heading, then the closing instruction (no model text, unlike the extractor tool). */
  function CrewPrompt(extractionPrompt: string, markdown: string): (r: string)
    ensures StartsWith(r, extractionPrompt)
    ensures var m := |extractionPrompt| + |Tools.DocumentHeading|;
      m + |markdown| <= |r| && r[m..m + |markdown|] == markdown
  {
    var r := extractionPrompt + Tools.DocumentHeading + markdown + ClosingInstruction;
    var m := |extractionPrompt| + |Tools.DocumentHeading|;
    assert r[..|extractionPrompt|] == extractionPrompt;
    assert r[m..m + |markdown|] == markdown;
    r
  }

  /** The dumped fields of a validated schema always compile in the tool: every dump has
      a name and a type. */
  lemma DumpedFieldsCompile(fields: seq<SchemaField>)
    ensures Tools.Compiles(DumpFields(fields))
    ensures Tools.FirstError(DumpFields(fields)).None?
  {
    forall i | 0 <= i < |DumpFields(fields)|
      ensures Tools.FieldError(DumpFields(fields)[i]).None?
    {
      assert DumpFields(fields)[i] == DumpField(fields[i]);
    }
  }

  /** One task of the loop, as evidently intended: the tool analyses the task's fields
      (their JSON round trip is the identity), an error dict becomes the task's error,
      the agent's reply is parsed, and a failing agent call becomes the task's error.
      The agent is `kickoff`, given the 1-based task number and the description. */
  function ExtractTask(number: nat, task: ExtractionTask, markdown: string,
                       kickoff: (nat, string) -> Workflow.LlmReply,
                       jsonLoads: string -> TolerantParser.ParseOutcome): (r: TaskOutcome)
    ensures r.taskNumber == number && r.taskAim == task.aim
  {
    match Tools.AnalyzeFields(task.aim, DumpFields(task.extractionSchema))
    case ErrorReport(e) => Failed(number, task.aim, e)
    case Analysis(_, prompt, _, _) =>
      match kickoff(number, CrewPrompt(prompt, markdown))
      case Raised(m) => Failed(number, task.aim, m)
      case Content(text) => Succeeded(number, task.aim, ParseExtractionResult(text, jsonLoads))
  }

  /** A task fails exactly when the agent call fails; otherwise its data is the parse of
      the reply to the prompt the tool built for it. */
  lemma TaskFailsOnlyWhenAgentFails(number: nat, task: ExtractionTask, markdown: string,
                                    kickoff: (nat, string) -> Workflow.LlmReply,
                                    jsonLoads: string -> TolerantParser.ParseOutcome)
    ensures var analysis := Tools.AnalyzeFields(task.aim, DumpFields(task.extractionSchema));
      analysis.Analysis?
      && var reply := kickoff(number, CrewPrompt(analysis.extractionPrompt, markdown));
      var r := ExtractTask(number, task, markdown, kickoff, jsonLoads);
      (r.Failed? <==> reply.Raised?)
      && (reply.Raised? ==> r.error == reply.message)
      && (reply.Content? ==> r.data == ParseExtractionResult(reply.text, jsonLoads))
  {
    hide SchemaAnalyzer.MapType, Tools.Prompt, Tools.ModelLines, Join;
    DumpedFieldsCompile(task.extractionSchema);
  }

  /** `str(e)` for iterating over a bound method. */
  const NotIterable := "'method' object is not iterable"

  /** One task of the loop as written: `task.schema` is not the task's field list but
      Pydantic's `BaseModel.schema` method, so building `schema_json` raises before the
      tool is called and every task fails. */
  function ExtractTaskAsWritten(number: nat, task: ExtractionTask): (r: TaskOutcome)
    ensures r.Failed? && r.taskNumber == number && r.taskAim == task.aim
  {
    Failed(number, task.aim, NotIterable)
  }

  /** As written, a task fails even when the agent answers, where the intended loop
      reports its parsed data. */
  lemma AsWrittenFailsAnsweredTask(number: nat, task: ExtractionTask, markdown: string,
                                   kickoff: (nat, string) -> Workflow.LlmReply,
                                   jsonLoads: string -> TolerantParser.ParseOutcome)
    requires var analysis := Tools.AnalyzeFields(task.aim, DumpFields(task.extractionSchema));
      analysis.Analysis? && kickoff(number, CrewPrompt(analysis.extractionPrompt, markdown)).Content?
    ensures ExtractTask(number, task, markdown, kickoff, jsonLoads).Succeeded?
    ensures ExtractTaskAsWritten(number, task) == Failed(number, task.aim, NotIterable)
  {
    hide SchemaAnalyzer.MapType, Tools.Prompt, Tools.ModelLines, Join;
    TaskFailsOnlyWhenAgentFails(number, task, markdown, kickoff, jsonLoads);
  }

  /** `extract`: a missing extraction input raises outside the loop; otherwise one
      outcome per task, numbered from 1, with the document length and the task count. */
  function Extraction(markdown: string, extractionInput: Option<seq<ExtractionTask>>,
                      kickoff: (nat, string) -> Workflow.LlmReply,
                      jsonLoads: string -> TolerantParser.ParseOutcome): (r: CrewOutput)
    ensures extractionInput.None? <==> r.CrewError?
    ensures extractionInput.None? ==> r.error == SchemaAnalyzer.NoneHasNo("tasks")
  {
    match extractionInput
    case None => CrewError(SchemaAnalyzer.NoneHasNo("tasks"))
    case Some(tasks) =>
      CrewSuccess(|markdown|, |tasks|,
        seq(|tasks|, k requires 0 <= k < |tasks| => ExtractTask(k + 1, tasks[k], markdown, kickoff, jsonLoads)))
  }

  /** The loop reports exactly one outcome per task, in task order, numbered from 1 and
      carrying the task's aim; the task count and document length come with them. */
  lemma ResultsFollowTasks(markdown: string, tasks: seq<ExtractionTask>,
                           kickoff: (nat, string) -> Workflow.LlmReply,
                           jsonLoads: string -> TolerantParser.ParseOutcome, k: nat)
    requires k < |tasks|
    ensures var out := Extraction(markdown, Some(tasks), kickoff, jsonLoads);
      out.CrewSuccess? && out.tasksProcessed == |tasks| == |out.results|
      && out.markdownLength == |markdown|
      && out.results[k].taskNumber == k + 1 && out.results[k].taskAim == tasks[k].aim
  {
    hide ExtractTask;
    var out := Extraction(markdown, Some(tasks), kickoff, jsonLoads);
    assert out.results[k] == ExtractTask(k + 1, tasks[k], markdown, kickoff, jsonLoads);
  }

  /** A failing task does not stop the loop: the outcome of each task depends only on
      that task, its number, the document and the agent's reply to it. */
  lemma TaskIsolation(markdown: string, tasks: seq<ExtractionTask>, other: seq<ExtractionTask>,
                      kickoff: (nat, string) -> Workflow.LlmReply,
                      jsonLoads: string -> TolerantParser.ParseOutcome, k: nat)
    requires k < |tasks| && k < |other| && tasks[k] == other[k]
    ensures Extraction(markdown, Some(tasks), kickoff, jsonLoads).results[k]
      == Extraction(markdown, Some(other), kickoff, jsonLoads).results[k]
  {
    hide ExtractTask;
  }

  /** The body of the loop of `extract`: the `try` block for the task numbered `number`,
      with the exception it catches turned into a failed outcome. */
  method RunTask(number: nat, task: ExtractionTask, markdown: string,
                 kickoff: (nat, string) -> Workflow.LlmReply,
                 jsonLoads: string -> TolerantParser.ParseOutcome) returns (outcome: TaskOutcome)
    ensures outcome == ExtractTask(number, task, markdown, kickoff, jsonLoads)
  {
    hide Tools.AnalyzeFields, ParseExtractionResult, CrewPrompt, DumpFields;
    match Tools.AnalyzeFields(task.aim, DumpFields(task.extractionSchema)) {
      case ErrorReport(e) =>
        outcome := Failed(number, task.aim, e);
      case Analysis(_, extractionPrompt, _, _) =>
        var fullPrompt := CrewPrompt(extractionPrompt, markdown);
        var reply := kickoff(number, fullPrompt);
        if reply.Raised? {
          outcome := Failed(number, task.aim, reply.message);
        } else {
          var data := ParseExtractionResult(reply.text, jsonLoads);
          outcome := Succeeded(number, task.aim, data);
        }
    }
  }

  /** The outcomes the loop collects, one per task in order, make up the output. */
  lemma ExtractionOfOutcomes(markdown: string, tasks: seq<ExtractionTask>,
                             kickoff: (nat, string) -> Workflow.LlmReply,
                             jsonLoads: string -> TolerantParser.ParseOutcome, results: seq<TaskOutcome>)
    requires |results| == |tasks|
    requires forall k :: 0 <= k < |tasks| ==> results[k] == ExtractTask(k + 1, tasks[k], markdown, kickoff, jsonLoads)
    ensures Extraction(markdown, Some(tasks), kickoff, jsonLoads) == CrewSuccess(|markdown|, |tasks|, results)
  {
    hide ExtractTask;
  }

  /** The sequential crew: the document text and the normalised input that
      `prepare_document` stores for `extract`. */
  class ExtractionCrew {
    var markdownContent: string
    var extractionInput: Option<seq<ExtractionTask>>

    constructor()
      ensures markdownContent == "" && extractionInput == None
    {
      markdownContent := "";
      extractionInput := None;
    }

    /** The part of `prepare_document` after OCR is stubbed by `convert`: a falsy file is
        rejected before anything changes; otherwise the document text is stored first,
        then the tasks are normalised in a loop, and only a complete list is stored as the
        extraction input. A missing `tasks` key is an empty list. The outcome is the task
        count or the text of the exception re-raised. */
    method PrepareDocument(fileData: Option<string>, tasks: Option<seq<RawTask>>, convert: string -> string)
      returns (r: Result<nat, string>)
      modifies this
      ensures fileData.None? || fileData == Some("") ==>
        r == Err("No file data provided") && markdownContent == old(markdownContent)
        && extractionInput == old(extractionInput)
      ensures fileData.Some? && fileData != Some("") ==> markdownContent == convert(fileData.value)
      ensures fileData.Some? && fileData != Some("") ==>
        var normalized := NormalizeTasks(if tasks.Some? then tasks.value else []);
        (normalized.Ok? ==> r == Ok(|normalized.value|) && extractionInput == Some(normalized.value))
        && (normalized.Err? ==> r == Err(normalized.error) && extractionInput == old(extractionInput))
    {
      if fileData.None? || fileData.value == "" {
        return Err("No file data provided");
      }
      markdownContent := convert(fileData.value);
      var tasksData := if tasks.Some? then tasks.value else [];
      var extractionTasks: seq<ExtractionTask> := [];
      var i := 0;
      while i < |tasksData|
        invariant 0 <= i <= |tasksData|
        invariant NormalizeTasks(tasksData[..i]) == Ok(extractionTasks)
        invariant markdownContent == convert(fileData.value)
        invariant extractionInput == old(extractionInput)
      {
        var taskData := tasksData[i];
        NormalizeTasksStep(tasksData, i);
        match NormalizeTask(taskData) {
          case Err(e) =>
            NormalizeTasksFailsAt(tasksData, i);
            return Err(e);
          case Ok(task) =>
            extractionTasks := extractionTasks + [task];
        }
        i := i + 1;
      }
      assert tasksData[..i] == tasksData;
      extractionInput := Some(extractionTasks);
      return Ok(|extractionTasks|);
    }

    /** `extract`, with the loop over the tasks numbered from 1; each task's failure is
        caught and recorded, and the loop goes on. */
    method Extract(kickoff: (nat, string) -> Workflow.LlmReply,
                   jsonLoads: string -> TolerantParser.ParseOutcome) returns (out: CrewOutput)
      ensures out == Extraction(markdownContent, extractionInput, kickoff, jsonLoads)
    {
      hide ExtractTask, Extraction;
      if extractionInput.None? {
        return CrewError(SchemaAnalyzer.NoneHasNo("tasks"));
      }
      var tasks := extractionInput.value;
      var results: seq<TaskOutcome> := [];
      var idx: nat := 1;
      while idx <= |tasks|
        invariant 1 <= idx <= |tasks| + 1
        invariant |results| == idx - 1
        invariant forall k :: 0 <= k < idx - 1 ==>
          results[k] == ExtractTask(k + 1, tasks[k], markdownContent, kickoff, jsonLoads)
      {
        var outcome := RunTask(idx, tasks[idx - 1], markdownContent, kickoff, jsonLoads);
        results := results + [outcome];
        idx := idx + 1;
      }
      ExtractionOfOutcomes(markdownContent, tasks, kickoff, jsonLoads, results);
      return CrewSuccess(|markdownContent|, |tasks|, results);
    }
  }

  /** Normalising one more task extends the list of a prefix, or fails. */
  lemma NormalizeTasksStep(raws: seq<RawTask>, i: nat)
    requires i < |raws| && NormalizeTasks(raws[..i]).Ok?
    ensures NormalizeTask(raws[i]).Ok? ==>
      NormalizeTasks(raws[..i + 1]) == Ok(NormalizeTasks(raws[..i]).value + [NormalizeTask(raws[i]).value])
  {
    hide NormalizeTask, NormalizeTasks, ValidateFields;
    var front := raws[..i];
    var next := raws[..i + 1];
    assert forall j :: 0 <= j < i ==> next[j] == front[j];
    assert next[i] == raws[i];
    if NormalizeTask(raws[i]).Ok? {
      assert forall j :: 0 <= j < i ==> NormalizeTask(front[j]).Ok?;
      assert forall j :: 0 <= j <= i ==> NormalizeTask(next[j]).Ok?;
      assert NormalizeTasks(next).Ok?;
      var a := NormalizeTasks(next).value;
      var b := NormalizeTasks(front).value + [NormalizeTask(raws[i]).value];
      assert |a| == |b|;
      forall j | 0 <= j < |a|
        ensures a[j] == b[j]
      {
        if j < i {
          assert NormalizeTask(next[j]) == Ok(a[j]);
          assert NormalizeTask(front[j]) == Ok(NormalizeTasks(front).value[j]);
        }
      }
      assert a == b;
    }
  }

  /** The first task that fails normalisation fails the whole preparation with its
      error. */
  lemma {:induction false} NormalizeTasksFailsAt(raws: seq<RawTask>, i: nat)
    requires i < |raws| && NormalizeTasks(raws[..i]).Ok? && NormalizeTask(raws[i]).Err?
    ensures NormalizeTasks(raws) == Err(NormalizeTask(raws[i]).error)
    decreases i
  {
    if i > 0 {
      assert NormalizeTask(raws[0]).Ok? by {
        assert raws[..i][0] == raws[0];
      }
      var rest := raws[1..];
      assert rest[..i - 1] == raws[..i][1..];
      assert NormalizeTasks(raws[..i]) == Ok([NormalizeTask(raws[0]).value] + NormalizeTasks(raws[..i][1..]).value);
      assert rest[i - 1] == raws[i];
      NormalizeTasksFailsAt(rest, i - 1);
    }
  }
}
