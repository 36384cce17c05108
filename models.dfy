/** The request and response records of the extraction service (backend/src/models.py),
    with their Pydantic defaults, and the plain dictionaries they are validated from. */
module Models {
  import opened Wrappers

  /** A JSON-like Python value: what `json.loads` or `ast.literal_eval` can return,
      and what an extraction stores as its data. Python's `None` is `Null`. */
  datatype Value =
    | Null
    | Bool(b: bool)
    | Number(n: real)
    | Str(s: string)
    | List(items: seq<Value>)
    | Dict(entries: seq<(string, Value)>)

  /** `d.get(key)` on a decoded JSON object: the value of the last binding of `key`,
      since `json.loads` keeps the last of duplicate keys. */
  function Get(entries: seq<(string, Value)>, key: string): (r: Option<Value>)
    ensures r.Some? ==> exists k :: (0 <= k < |entries| && entries[k] == (key, r.value)
      && forall j :: k < j < |entries| ==> entries[j].0 != key)
    ensures r.None? <==> forall k :: 0 <= k < |entries| ==> entries[k].0 != key
    decreases |entries|
  {
    if |entries| == 0 then None
    else if entries[|entries| - 1].0 == key then Some(entries[|entries| - 1].1)
    else Get(entries[..|entries| - 1], key)
  }

  /** `d.get(key, default)`. */
  function GetOr(entries: seq<(string, Value)>, key: string, default: Value): Value
  {
    match Get(entries, key)
    case Some(v) => v
    case None => default
  }

  /** Python truthiness of a JSON value. */
  predicate Truthy(v: Value)
  {
    match v
    case Null => false
    case Bool(b) => b
    case Number(n) => n != 0.0
    case Str(s) => s != ""
    case List(items) => |items| > 0
    case Dict(entries) => |entries| > 0
  }

  /** One key of a Python dict as `d.get(key)` sees it: absent, present with `None`,
      or present with a value. */
  datatype Entry<+T> = Missing | NullEntry | Given(value: T)

  /** A schema field as a plain dict (request JSON, or the `model_dump` of a
      `SchemaField`). A missing `mandatory` or `multi_row` key reads as false. */
  datatype RawField = RawField(
    name: Entry<string>,
    fieldType: Entry<string>,
    description: Entry<string> := Missing,
    mandatory: bool := false,
    multiRow: bool := false)

  /** A task as a plain dict. `schema` is the legacy key that crew.py reads. */
  datatype RawTask = RawTask(
    aim: Option<string>,
    extractionSchema: Option<seq<RawField>>,
    schema: Option<seq<RawField>> := None,
    multiRow: Option<bool> := None)

  /** `SchemaField`: `name` and `type` are required; `description` defaults to ""
      and may be `None`; `mandatory` defaults to false. */
  datatype SchemaField = SchemaField(
    name: string,
    fieldType: string,
    description: Option<string> := Some(""),
    mandatory: bool := false)

  /** `ExtractionTask`: `aim` and `extraction_schema` are required; `multi_row`
      defaults to false. */
  datatype ExtractionTask = ExtractionTask(
    aim: string,
    extractionSchema: seq<SchemaField>,
    multiRow: bool := false)

  /** `TaskResult`: only `task_aim` is required; the rest default to `None`. */
  datatype TaskResult = TaskResult(
    taskAim: string,
    extractedData: Value := Null,
    rawExtractedJson: Option<string> := None,
    error: Option<string> := None)

  /** `FinalExtractionOutput`: only `status` is required; the rest default to `None`. */
  datatype FinalExtractionOutput = FinalExtractionOutput(
    status: string,
    markdownLength: Option<nat> := None,
    tasksProcessed: Option<nat> := None,
    results: Option<seq<TaskResult>> := None,
    error: Option<string> := None)

  /** The text standing for the `ValidationError` Pydantic raises; its exact wording
      (error count, locations) is not modelled. */
  const ValidationMessage := "validation error for ExtractionTask"

  /** Building a `SchemaField` from a dict: fails exactly when `name` or `type` is
      absent or `None`; an absent description becomes "", an explicit `None` stays `None`. */
  function ValidateField(raw: RawField): (r: Result<SchemaField, string>)
    ensures r.Ok? <==> raw.name.Given? && raw.fieldType.Given?
    ensures r.Ok? ==> r.value.name == raw.name.value && r.value.fieldType == raw.fieldType.value
    ensures r.Ok? ==> r.value.mandatory == raw.mandatory
    ensures r.Ok? && raw.description.Missing? ==> r.value.description == Some("")
    ensures r.Ok? && raw.description.NullEntry? ==> r.value.description == None
    ensures r.Ok? && raw.description.Given? ==> r.value.description == Some(raw.description.value)
  {
    if !raw.name.Given? || !raw.fieldType.Given? then Err(ValidationMessage)
    else
      var description := match raw.description
        case Missing => Some("")
        case NullEntry => None
        case Given(d) => Some(d);
      Ok(SchemaField(raw.name.value, raw.fieldType.value, description, raw.mandatory))
  }

  /** Validates a list of field dicts in order; the first invalid one fails the list. */
  function ValidateFields(raws: seq<RawField>): (r: Result<seq<SchemaField>, string>)
    ensures r.Ok? <==> forall i :: 0 <= i < |raws| ==> ValidateField(raws[i]).Ok?
    ensures r.Ok? ==> (|r.value| == |raws|
      && forall i :: 0 <= i < |raws| ==> ValidateField(raws[i]) == Ok(r.value[i]))
    decreases |raws|
  {
    if |raws| == 0 then Ok([])
    else match (ValidateField(raws[0]), ValidateFields(raws[1..]))
      case (Ok(f), Ok(fs)) => Ok([f] + fs)
      case (Err(e), _) => Err(e)
      case (_, Err(e)) => Err(e)
  }

  /** `ExtractionTask(**task)`: `aim` and `extraction_schema` must be present (the
      legacy `schema` key is an ignored extra) and every field must validate;
      `multi_row` defaults to false. */
  function ValidateTask(raw: RawTask): (r: Result<ExtractionTask, string>)
    ensures r.Ok? <==> (raw.aim.Some? && raw.extractionSchema.Some?
      && ValidateFields(raw.extractionSchema.value).Ok?)
    ensures r.Ok? ==> (r.value.aim == raw.aim.value
      && |r.value.extractionSchema| == |raw.extractionSchema.value|
      && forall i :: 0 <= i < |raw.extractionSchema.value| ==>
           ValidateField(raw.extractionSchema.value[i]) == Ok(r.value.extractionSchema[i]))
    ensures r.Ok? ==> r.value.multiRow == (raw.multiRow == Some(true))
  {
    if raw.aim.None? || raw.extractionSchema.None? then Err(ValidationMessage)
    else match ValidateFields(raw.extractionSchema.value)
      case Err(e) => Err(e)
      case Ok(fields) =>
        Ok(ExtractionTask(raw.aim.value, fields, raw.multiRow.Some? && raw.multiRow.value))
  }

  /** `[ExtractionTask(**task) for task in tasks]`: the first invalid task fails the list. */
  function ValidateTasks(raws: seq<RawTask>): (r: Result<seq<ExtractionTask>, string>)
    ensures r.Ok? <==> forall i :: 0 <= i < |raws| ==> ValidateTask(raws[i]).Ok?
    ensures r.Ok? ==> (|r.value| == |raws|
      && forall i :: 0 <= i < |raws| ==> ValidateTask(raws[i]) == Ok(r.value[i]))
    decreases |raws|
  {
    if |raws| == 0 then Ok([])
    else match (ValidateTask(raws[0]), ValidateTasks(raws[1..]))
      case (Ok(t), Ok(ts)) => Ok([t] + ts)
      case (Err(e), _) => Err(e)
      case (_, Err(e)) => Err(e)
  }

  /** `SchemaField.model_dump()`: every key present, `description` possibly `None`. */
  function DumpField(f: SchemaField): RawField
  {
    RawField(Given(f.name), Given(f.fieldType),
      if f.description.None? then NullEntry else Given(f.description.value),
      f.mandatory)
  }

  function DumpFields(fs: seq<SchemaField>): (r: seq<RawField>)
    ensures |r| == |fs| && forall i :: 0 <= i < |fs| ==> r[i] == DumpField(fs[i])
  {
    seq(|fs|, i requires 0 <= i < |fs| => DumpField(fs[i]))
  }

  /** `ExtractionTask.model_dump()`. */
  function DumpTask(t: ExtractionTask): RawTask
  {
    RawTask(Some(t.aim), Some(DumpFields(t.extractionSchema)), None, Some(t.multiRow))
  }

  /** Validating a dumped field gives the field back. */
  lemma FieldDumpRoundTrip(f: SchemaField)
    ensures ValidateField(DumpField(f)) == Ok(f)
  {
  }

  /** Validating a dumped task gives the task back: `model_dump` loses nothing that
      validation needs. */
  lemma TaskDumpRoundTrip(t: ExtractionTask)
    ensures ValidateTask(DumpTask(t)) == Ok(t)
  {
    var raws := DumpFields(t.extractionSchema);
    forall i | 0 <= i < |raws|
      ensures ValidateField(raws[i]) == Ok(t.extractionSchema[i])
    {
      FieldDumpRoundTrip(t.extractionSchema[i]);
    }
    assert ValidateFields(raws).value == t.extractionSchema;
  }

  /** The error output of a failed run: only `status` and `error` are set. */
  function ErrorOutput(message: string): (r: FinalExtractionOutput)
    ensures r.status == "error" && r.error == Some(message)
    ensures r.results.None? && r.markdownLength.None? && r.tasksProcessed.None?
  {
    FinalExtractionOutput("error", error := Some(message))
  }
}
