/** The older schema tools (backend/src/tools.py): `SchemaAnalyzerTool` compiles an aim
    and a JSON list of field dicts into a Pydantic model text and a prompt, taking the
    multi-row choice from the fields themselves; `DataExtractorTool` wraps the prompt,
    the document and the model into the text an agent is given. */
module Tools {
  import opened Wrappers
  import opened Text
  import opened Models
  import SchemaAnalyzer

  /** What `SchemaAnalyzerTool._run` returns, before `json.dumps`: the four-key
      analysis dict, or the dict whose only key is `error`. */
  datatype ToolOutput =
    | Analysis(pydanticModel: string, extractionPrompt: string, resultClass: string, isMultiRow: bool)
    | ErrorReport(error: string)

  const FailurePrefix := "Schema analysis failed: "

  /** The exception the model-building loop raises on a field, if any: `field['name']`
      and `field['type']` raise `KeyError` when absent, and `.lower()` fails on `None`.
      The description is read with `.get`, so it never raises. */
  function FieldError(f: RawField): (r: Option<string>)
    ensures r.None? <==> !f.name.Missing? && f.fieldType.Given?
  {
    if f.name.Missing? then Some("'name'")
    else if f.fieldType.Missing? then Some("'type'")
    else if f.fieldType.NullEntry? then Some(SchemaAnalyzer.NoneHasNo("lower"))
    else None
  }

  /** Every field of the list compiles. */
  predicate Compiles(fields: seq<RawField>)
  {
    forall i :: 0 <= i < |fields| ==> FieldError(fields[i]).None?
  }

  /** The error of the first field that has one, or `None` when all compile. */
  function FirstError(fields: seq<RawField>): (r: Option<string>)
    ensures r.None? <==> Compiles(fields)
    ensures r.Some? ==> exists i :: (0 <= i < |fields| && FieldError(fields[i]) == r
      && forall j :: 0 <= j < i ==> FieldError(fields[j]).None?)
    decreases |fields|
  {
    if |fields| == 0 then None
    else
      var front := fields[..|fields| - 1];
      if FirstError(front).Some? then FirstError(front) else FieldError(fields[|fields| - 1])
  }

  /** The error of the first failing field is the loop's error, whatever follows. */
  lemma {:induction false} FirstErrorAt(fields: seq<RawField>, i: nat)
    requires i < |fields| && FieldError(fields[i]).Some?
    requires forall j :: 0 <= j < i ==> FieldError(fields[j]).None?
    ensures FirstError(fields) == FieldError(fields[i])
    decreases |fields|
  {
    var front := fields[..|fields| - 1];
    if i < |fields| - 1 {
      assert front[i] == fields[i];
      assert forall j :: 0 <= j < i ==> front[j] == fields[j];
      FirstErrorAt(front, i);
    } else {
      assert forall j :: 0 <= j < |front| ==> front[j] == fields[j];
      assert Compiles(front);
    }
  }

  /** `field.get('description')` as a truth value: a missing key, `None` and "" all
      read as no description. */
  function DescriptionText(f: RawField): string
  {
    if f.description.Given? then f.description.value else ""
  }

  /** The annotation of a field: the mapped type (the same case-insensitive table as
      the graph's analyzer), wrapped in `Optional[...]` unless the field is mandatory. */
  function Annotation(f: RawField): string
    requires FieldError(f).None?
  {
    var t := SchemaAnalyzer.MapType(f.fieldType.value);
    if f.mandatory then t else "Optional[" + t + "]"
  }

  /** The part of a field line before any `Field(...)` default. */
  function FieldHead(f: RawField): string
    requires FieldError(f).None?
  {
    "    " + SchemaAnalyzer.NameText(f) + ": " + Annotation(f)
  }

  const DescriptionOpen := " = Field(description='"
  const DescriptionClose := "')"

  /** The model line of one field; a non-empty description is written between single
      quotes exactly as given, without escaping. */
  function FieldLine(f: RawField): string
    requires FieldError(f).None?
  {
    var d := DescriptionText(f);
    if d != "" then FieldHead(f) + DescriptionOpen + d + DescriptionClose else FieldHead(f)
  }

  /** A field line names the field and annotates it with its mapped type, bare when the
      field is mandatory and `Optional[...]` otherwise; it ends with the description,
      copied verbatim, exactly when the description is non-empty. */
  lemma FieldLineForm(f: RawField)
    requires FieldError(f).None?
    ensures StartsWith(FieldLine(f), "    " + SchemaAnalyzer.NameText(f) + ": ")
    ensures f.mandatory ==>
      FieldHead(f) == "    " + SchemaAnalyzer.NameText(f) + ": " + SchemaAnalyzer.MapType(f.fieldType.value)
    ensures !f.mandatory ==>
      FieldHead(f) == "    " + SchemaAnalyzer.NameText(f) + ": Optional[" + SchemaAnalyzer.MapType(f.fieldType.value) + "]"
    ensures DescriptionText(f) == "" <==> FieldLine(f) == FieldHead(f)
    ensures DescriptionText(f) != "" ==>
      var line := FieldLine(f);
      var start := |FieldHead(f)| + |DescriptionOpen|;
      start <= |line| - 2 && EndsWith(line, DescriptionClose)
      && line[start..|line| - 2] == DescriptionText(f)
  {
    hide SchemaAnalyzer.MapType;
    var p := "    " + SchemaAnalyzer.NameText(f) + ": ";
    var line := FieldLine(f);
    assert line == p + (Annotation(f) + (line[|FieldHead(f)|..]));
    if !f.mandatory {
      var t := SchemaAnalyzer.MapType(f.fieldType.value);
      var q := "    " + SchemaAnalyzer.NameText(f);
      assert ": Optional[" == ": " + "Optional[";
      AppendAssoc(q, ": ", "Optional[");
      AppendAssoc(p, "Optional[", t);
      AppendAssoc(p, "Optional[" + t, "]");
    }
    if DescriptionText(f) != "" {
      var start := |FieldHead(f)| + |DescriptionOpen|;
      assert line == FieldHead(f) + DescriptionOpen + DescriptionText(f) + DescriptionClose;
      assert line[start..|line| - 2] == DescriptionText(f);
    }
  }

  /** A description holding a single quote reaches the model text unescaped. */
  lemma QuoteIsNotEscaped()
    ensures FieldLine(RawField(Given("note"), Given("string"), Given("it's"), mandatory := true))
      == "    note: str" + DescriptionOpen + "it's" + DescriptionClose
  {
    var f := RawField(Given("note"), Given("string"), Given("it's"), mandatory := true);
    SchemaAnalyzer.LowerOfLowerCase("string");
    assert SchemaAnalyzer.MapType("string") == "str";
    assert FieldHead(f) == "    note: str";
    assert DescriptionText(f) == "it's";
  }

  /** The model lines of the fields, in field order. */
  function FieldLines(fields: seq<RawField>): (r: seq<string>)
    requires Compiles(fields)
    ensures |r| == |fields|
  {
    seq(|fields|, i requires 0 <= i < |fields| => FieldLine(fields[i]))
  }

  /** The field lines of a longer prefix extend those of a shorter one. */
  lemma FieldLinesStep(fields: seq<RawField>, i: nat)
    requires i < |fields| && Compiles(fields[..i + 1])
    ensures Compiles(fields[..i]) && FieldError(fields[i]).None?
    ensures FieldLines(fields[..i + 1]) == FieldLines(fields[..i]) + [FieldLine(fields[i])]
  {
    hide FieldLine;
    assert fields[..i + 1][i] == fields[i];
    assert forall k :: 0 <= k < i ==> fields[..i + 1][k] == fields[..i][k];
    var a := FieldLines(fields[..i + 1]);
    var b := FieldLines(fields[..i]) + [FieldLine(fields[i])];
    forall k | 0 <= k < |a|
      ensures a[k] == b[k]
    {
      if k < i {
        assert fields[..i + 1][k] == fields[..i][k];
      }
    }
  }

  /** The bullets of a longer prefix extend those of a shorter one. */
  lemma BulletsStep(fields: seq<RawField>, i: nat)
    requires i < |fields| && Compiles(fields)
    ensures Compiles(fields[..i]) && Compiles(fields[..i + 1])
    ensures Bullets(fields[..i + 1]) == Bullets(fields[..i]) + Bullet(fields[i])
  {
    assert fields[..i + 1][..i] == fields[..i];
  }

  /** `any(f.get('multi_row', False) for f in fields)`. */
  predicate HasMultiRow(fields: seq<RawField>)
  {
    exists i :: 0 <= i < |fields| && fields[i].multiRow
  }

  const ModelHeader: seq<string> := [
    "from pydantic import BaseModel, Field",
    "from typing import Optional, List\n",
    "class ExtractedData(BaseModel):"]

  const WrapperLine := "\nclass ExtractionResult(BaseModel):"
  const ListLine := "    data: List[ExtractedData]"

  /** The wrapper class added after the fields of a multi-row schema. */
  function WrapperLines(multiRow: bool): seq<string>
  {
    if multiRow then [WrapperLine, ListLine] else []
  }

  function ModelLines(fields: seq<RawField>): seq<string>
    requires Compiles(fields)
  {
    ModelHeader + FieldLines(fields) + WrapperLines(HasMultiRow(fields))
  }

  function ResultClass(multiRow: bool): string
  {
    if multiRow then "ExtractionResult" else "ExtractedData"
  }

  function PromptHead(aim: string): string
  {
    "EXTRACTION TASK: " + aim + "\n\nREQUIRED FIELDS TO EXTRACT:\n"
  }

  /** The prompt line of one field: its name, its type as the user wrote it, whether it
      is mandatory, and its description when that is non-empty. */
  function Bullet(f: RawField): string
    requires FieldError(f).None?
  {
    var requirement := if f.mandatory then "MANDATORY" else "optional";
    var desc := if DescriptionText(f) != "" then " - " + DescriptionText(f) else "";
    "- " + SchemaAnalyzer.NameText(f) + " (" + f.fieldType.value + ", " + requirement + ")" + desc + "\n"
  }

  function Bullets(fields: seq<RawField>): string
    requires Compiles(fields)
    decreases |fields|
  {
    if |fields| == 0 then ""
    else Bullets(fields[..|fields| - 1]) + Bullet(fields[|fields| - 1])
  }

  const ArrayFormat := "\nOUTPUT FORMAT: Return a JSON array of items matching the schema.\n"
  const ObjectFormat := "\nOUTPUT FORMAT: Return a single JSON object matching the schema.\n"

  /** The output-format line: a JSON array for a multi-row schema, a single object
      otherwise. */
  function OutputFormat(multiRow: bool): string
  {
    if multiRow then ArrayFormat else ObjectFormat
  }

  const Instructions1 := "\nINSTRUCTIONS:"
  const Instructions2 := "\n1. Extract only the information requested"
  const Instructions3 := "\n2. If a mandatory field is missing, mark it as null and note the missing data"
  const Instructions4 := "\n3. Be precise and accurate"
  const Instructions5 := "\n4. Return valid JSON only, no additional text\n"

  const Instructions := Instructions1 + Instructions2 + Instructions3 + Instructions4 + Instructions5

  function Prompt(aim: string, fields: seq<RawField>): string
    requires Compiles(fields)
  {
    PromptHead(aim) + Bullets(fields) + OutputFormat(HasMultiRow(fields)) + Instructions
  }

  /** The tool on the decoded field list: the first field that does not compile ends
      it with that field's error; otherwise the model text, the prompt, the root class
      and the multi-row flag, which holds exactly when some field asks for it. */
  function AnalyzeFields(aim: string, fields: seq<RawField>): (r: ToolOutput)
    ensures r.ErrorReport? <==> exists i :: 0 <= i < |fields| && FieldError(fields[i]).Some?
    ensures r.ErrorReport? ==> StartsWith(r.error, FailurePrefix)
    ensures r.Analysis? ==> (r.isMultiRow <==> exists i :: 0 <= i < |fields| && fields[i].multiRow)
    ensures r.Analysis? ==> r.resultClass == (if r.isMultiRow then "ExtractionResult" else "ExtractedData")
  {
    match FirstError(fields)
    case Some(e) => ErrorReport(FailurePrefix + e)
    case None =>
      var multiRow := HasMultiRow(fields);
      Analysis(Join(ModelLines(fields), "\n"), Prompt(aim, fields), ResultClass(multiRow), multiRow)
  }

  /** `SchemaAnalyzerTool._run`: the field list is decoded by `loads` (standing for
      `json.loads`, whose exception text is its error); a decoding failure is reported
      under the same prefix as a bad field. */
  function Analyze(aim: string, schemaFields: string, loads: string -> Result<seq<RawField>, string>): (r: ToolOutput)
    ensures loads(schemaFields).Err? ==> r == ErrorReport(FailurePrefix + loads(schemaFields).error)
    ensures loads(schemaFields).Ok? ==> r == AnalyzeFields(aim, loads(schemaFields).value)
  {
    match loads(schemaFields)
    case Err(e) => ErrorReport(FailurePrefix + e)
    case Ok(fields) => AnalyzeFields(aim, fields)
  }

  /** A successful analysis is made of the model lines joined by newlines and the
      prompt. */
  lemma AnalyzeFieldsOk(aim: string, fields: seq<RawField>)
    requires AnalyzeFields(aim, fields).Analysis?
    ensures Compiles(fields)
    ensures AnalyzeFields(aim, fields) == Analysis(Join(ModelLines(fields), "\n"), Prompt(aim, fields),
      ResultClass(HasMultiRow(fields)), HasMultiRow(fields))
  {
  }

  /** The analysis fails with the error of the first field that does not compile. */
  lemma FailsAtFirstBadField(aim: string, fields: seq<RawField>, i: nat)
    requires i < |fields| && FieldError(fields[i]).Some?
    requires forall j :: 0 <= j < i ==> FieldError(fields[j]).None?
    ensures AnalyzeFields(aim, fields) == ErrorReport(FailurePrefix + FieldError(fields[i]).value)
  {
    FirstErrorAt(fields, i);
  }

  /** Every field of a successful analysis contributes its line to the model text. */
  lemma ModelHasFieldLine(aim: string, fields: seq<RawField>, i: nat)
    requires AnalyzeFields(aim, fields).Analysis? && i < |fields|
    ensures Compiles(fields)
    ensures Contains(AnalyzeFields(aim, fields).pydanticModel, FieldLine(fields[i]))
  {
    hide Prompt;
    AnalyzeFieldsOk(aim, fields);
    var lines := ModelLines(fields);
    AppendAssoc(ModelHeader, FieldLines(fields), WrapperLines(HasMultiRow(fields)));
    var k := |ModelHeader| + i;
    assert lines[k] == FieldLines(fields)[i];
    JoinContains(lines, "\n", k);
  }

  /** A multi-row analysis wraps the items in a list under `data`. */
  lemma MultiRowModelWrapsList(aim: string, fields: seq<RawField>)
    requires AnalyzeFields(aim, fields).Analysis? && AnalyzeFields(aim, fields).isMultiRow
    ensures Contains(AnalyzeFields(aim, fields).pydanticModel, WrapperLine)
    ensures Contains(AnalyzeFields(aim, fields).pydanticModel, ListLine)
    ensures AnalyzeFields(aim, fields).resultClass == "ExtractionResult"
  {
    hide AnalyzeFields, Prompt, FieldLines, SchemaAnalyzer.MapType;
    AnalyzeFieldsOk(aim, fields);
    var lines := ModelLines(fields);
    assert lines[|lines| - 2] == WrapperLine;
    assert lines[|lines| - 1] == ListLine;
    JoinContains(lines, "\n", |lines| - 2);
    JoinContains(lines, "\n", |lines| - 1);
  }

  /** Without a multi-row field the model ends with the last field line (or the class
      header when there is none): no wrapper is added, and the root is `ExtractedData`. */
  lemma SingleRowModelHasNoWrapper(aim: string, fields: seq<RawField>)
    requires AnalyzeFields(aim, fields).Analysis? && !AnalyzeFields(aim, fields).isMultiRow
    ensures AnalyzeFields(aim, fields).resultClass == "ExtractedData"
    ensures |fields| == 0 ==> EndsWith(AnalyzeFields(aim, fields).pydanticModel, ModelHeader[2])
    ensures |fields| > 0 ==> EndsWith(AnalyzeFields(aim, fields).pydanticModel, FieldLine(fields[|fields| - 1]))
  {
    hide AnalyzeFields, Prompt, FieldLine, SchemaAnalyzer.MapType;
    AnalyzeFieldsOk(aim, fields);
    var lines := ModelLines(fields);
    assert lines == ModelHeader + FieldLines(fields);
    var last := lines[|lines| - 1];
    assert Join(lines, "\n") == Join(lines[..|lines| - 1], "\n") + "\n" + last;
    if |fields| > 0 {
      assert last == FieldLine(fields[|fields| - 1]);
    }
  }

  /** Bullets of a concatenation are the bullets of its parts. */
  lemma {:induction false} BulletsAppend(a: seq<RawField>, b: seq<RawField>)
    requires Compiles(a + b)
    ensures Compiles(a) && Compiles(b)
    ensures Bullets(a + b) == Bullets(a) + Bullets(b)
    decreases |b|
  {
    assert forall i :: 0 <= i < |a| ==> a[i] == (a + b)[i];
    assert forall i :: 0 <= i < |b| ==> b[i] == (a + b)[|a| + i];
    if |b| == 0 {
      assert a + b == a;
    } else {
      var front := b[..|b| - 1];
      assert (a + b)[..|a + b| - 1] == a + front;
      BulletsAppend(a, front);
      AppendAssoc(Bullets(a), Bullets(front), Bullet(b[|b| - 1]));
    }
  }

  /** The prompt lists the fields in order, one bullet each: field `i`'s bullet sits
      between the bullets of the fields before it and those of the fields after it,
      after the aim and before the output format. */
  lemma PromptLayout(aim: string, fields: seq<RawField>, i: nat)
    requires AnalyzeFields(aim, fields).Analysis? && i < |fields|
    ensures Compiles(fields[..i]) && Compiles(fields[i + 1..]) && FieldError(fields[i]).None?
    ensures AnalyzeFields(aim, fields).extractionPrompt
      == PromptHead(aim) + Bullets(fields[..i]) + Bullet(fields[i]) + Bullets(fields[i + 1..])
         + OutputFormat(HasMultiRow(fields)) + Instructions
  {
    hide AnalyzeFields, ModelLines, Join, Bullet, PromptHead, OutputFormat, SchemaAnalyzer.MapType;
    AnalyzeFieldsOk(aim, fields);
    assert fields == fields[..i] + ([fields[i]] + fields[i + 1..]);
    BulletsAppend(fields[..i], [fields[i]] + fields[i + 1..]);
    BulletsAppend([fields[i]], fields[i + 1..]);
    assert Bullets([fields[i]]) == Bullet(fields[i]) by {
      assert [fields[i]][..0] == [];
    }
    var h := PromptHead(aim);
    var x := Bullets(fields[..i]);
    var y := Bullet(fields[i]);
    var z := Bullets(fields[i + 1..]);
    AppendAssoc(x, y, z);
    AppendAssoc(h, x + y, z);
    AppendAssoc(h, x, y);
  }

  /** The prompt asks for a JSON array exactly when some field is multi-row, and for a
      single object otherwise. */
  lemma PromptStatesFormat(aim: string, fields: seq<RawField>)
    requires AnalyzeFields(aim, fields).Analysis?
    ensures AnalyzeFields(aim, fields).isMultiRow ==> Contains(AnalyzeFields(aim, fields).extractionPrompt, ArrayFormat)
    ensures !AnalyzeFields(aim, fields).isMultiRow ==> Contains(AnalyzeFields(aim, fields).extractionPrompt, ObjectFormat)
  {
    hide AnalyzeFields, ModelLines, Join, Bullets, PromptHead, SchemaAnalyzer.MapType;
    AnalyzeFieldsOk(aim, fields);
    var a := PromptHead(aim) + Bullets(fields);
    ContainsInfix(a, OutputFormat(HasMultiRow(fields)), Instructions);
  }

  /** The prompt opens with the aim. */
  lemma PromptStartsWithAim(aim: string, fields: seq<RawField>)
    requires AnalyzeFields(aim, fields).Analysis?
    ensures StartsWith(AnalyzeFields(aim, fields).extractionPrompt, "EXTRACTION TASK: " + aim)
  {
    hide ModelLines, Join, Bullets, OutputFormat;
    AnalyzeFieldsOk(aim, fields);
    var head := "EXTRACTION TASK: " + aim;
    assert StartsWith(head, head) by { assert head[..|head|] == head; }
    StartsWithExtend(head, head, "\n\nREQUIRED FIELDS TO EXTRACT:\n");
    StartsWithExtend(PromptHead(aim), head, Bullets(fields));
    StartsWithExtend(PromptHead(aim) + Bullets(fields), head, OutputFormat(HasMultiRow(fields)));
    StartsWithExtend(PromptHead(aim) + Bullets(fields) + OutputFormat(HasMultiRow(fields)), head, Instructions);
  }

  /** The model-building loop of `_run`: the header, then one line per field; the first
      field that raises ends it with that field's error. */
  method BuildModel(fields: seq<RawField>) returns (r: Result<seq<string>, string>)
    ensures FirstError(fields).Some? ==> r == Err(FailurePrefix + FirstError(fields).value)
    ensures FirstError(fields).None? ==> r == Ok(ModelHeader + FieldLines(fields))
  {
    var modelLines := ModelHeader;
    var i := 0;
    while i < |fields|
      invariant 0 <= i <= |fields|
      invariant Compiles(fields[..i])
      invariant modelLines == ModelHeader + FieldLines(fields[..i])
    {
      var field := fields[i];
      if field.name.Missing? {
        FirstErrorAt(fields, i);
        return Err(FailurePrefix + "'name'");
      }
      if field.fieldType.Missing? {
        FirstErrorAt(fields, i);
        return Err(FailurePrefix + "'type'");
      }
      if field.fieldType.NullEntry? {
        FirstErrorAt(fields, i);
        return Err(FailurePrefix + SchemaAnalyzer.NoneHasNo("lower"));
      }
      var fieldType := SchemaAnalyzer.MapType(field.fieldType.value);
      var desc := DescriptionText(field);
      if !field.mandatory {
        fieldType := "Optional[" + fieldType + "]";
      }
      var line;
      if desc != "" {
        line := "    " + SchemaAnalyzer.NameText(field) + ": " + fieldType + " = Field(description='" + desc + "')";
      } else {
        line := "    " + SchemaAnalyzer.NameText(field) + ": " + fieldType;
      }
      assert line == FieldLine(field);
      assert Compiles(fields[..i + 1]) by {
        assert fields[..i + 1] == fields[..i] + [field];
      }
      FieldLinesStep(fields, i);
      AppendAssoc(ModelHeader, FieldLines(fields[..i]), [line]);
      modelLines := modelLines + [line];
      i := i + 1;
    }
    assert fields[..i] == fields;
    return Ok(modelLines);
  }

  /** The prompt-building loop of `_run`: the aim, one bullet per field added with
      `+=`, then the output format and the four instructions, one `+=` each. */
  method BuildPrompt(aim: string, fields: seq<RawField>, hasMultiRow: bool) returns (prompt: string)
    requires Compiles(fields) && hasMultiRow == HasMultiRow(fields)
    ensures prompt == Prompt(aim, fields)
  {
    assert Bullets(fields[..0]) == "";
    hide ModelLines, Join, SchemaAnalyzer.MapType, Bullets;
    prompt := PromptHead(aim);
    var i := 0;
    while i < |fields|
      invariant 0 <= i <= |fields|
      invariant Compiles(fields[..i])
      invariant prompt == PromptHead(aim) + Bullets(fields[..i])
    {
      var field := fields[i];
      var mandatoryLabel := if field.mandatory then "MANDATORY" else "optional";
      var desc := if DescriptionText(field) != "" then " - " + DescriptionText(field) else "";
      var bullet := "- " + SchemaAnalyzer.NameText(field) + " (" + field.fieldType.value + ", " + mandatoryLabel + ")" + desc + "\n";
      assert bullet == Bullet(field);
      BulletsStep(fields, i);
      AppendAssoc(PromptHead(aim), Bullets(fields[..i]), bullet);
      prompt := prompt + bullet;
      i := i + 1;
    }
    assert fields[..i] == fields;
    ghost var body := PromptHead(aim) + Bullets(fields) + OutputFormat(hasMultiRow);
    if hasMultiRow {
      prompt := prompt + ArrayFormat;
    } else {
      prompt := prompt + ObjectFormat;
    }
    assert prompt == body;
    prompt := prompt + Instructions1;
    prompt := prompt + Instructions2;
    prompt := prompt + Instructions3;
    prompt := prompt + Instructions4;
    prompt := prompt + Instructions5;
    AppendAssoc(body, Instructions1, Instructions2);
    AppendAssoc(body, Instructions1 + Instructions2, Instructions3);
    AppendAssoc(body, Instructions1 + Instructions2 + Instructions3, Instructions4);
    AppendAssoc(body, Instructions1 + Instructions2 + Instructions3 + Instructions4, Instructions5);
  }

  /** `SchemaAnalyzerTool._run`: decode the fields, build the model lines, add the
      wrapper when some field is multi-row, then build the prompt. */
  method Run(aim: string, schemaFields: string, loads: string -> Result<seq<RawField>, string>) returns (out: ToolOutput)
    ensures out == Analyze(aim, schemaFields, loads)
  {
    var decoded := loads(schemaFields);
    if decoded.Err? {
      return ErrorReport(FailurePrefix + decoded.error);
    }
    var fields := decoded.value;
    var built := BuildModel(fields);
    if built.Err? {
      return ErrorReport(built.error);
    }
    var modelLines := built.value;
    var hasMultiRow := exists i | 0 <= i < |fields| :: fields[i].multiRow;
    var resultClass;
    if hasMultiRow {
      modelLines := modelLines + [WrapperLine, ListLine];
      resultClass := "ExtractionResult";
    } else {
      resultClass := "ExtractedData";
    }
    assert modelLines == ModelLines(fields);
    var pydanticModel := Join(modelLines, "\n");
    var prompt := BuildPrompt(aim, fields, hasMultiRow);
    return Analysis(pydanticModel, prompt, resultClass, hasMultiRow);
  }

  const DocumentHeading := "\n\nDOCUMENT CONTENT (Markdown):\n"
  const SchemaHeading := "\n\nVALIDATION SCHEMA:\n"
  const ClosingInstruction := "\n\nExtract the data and return ONLY valid JSON matching the schema. No additional commentary.\n"

  /** `DataExtractorTool._run`: the prompt, the document under its heading, the model
      under its heading, then the closing instruction. */
  function ExtractorPrompt(markdown: string, extractionPrompt: string, pydanticModel: string): (r: string)
    ensures StartsWith(r, extractionPrompt)
    ensures EndsWith(r, ClosingInstruction)
    ensures |r| == |extractionPrompt| + |DocumentHeading| + |markdown| + |SchemaHeading| + |pydanticModel| + |ClosingInstruction|
  {
    var r := extractionPrompt + DocumentHeading + markdown + SchemaHeading + pydanticModel + ClosingInstruction;
    assert r[..|extractionPrompt|] == extractionPrompt;
    assert r[|r| - |ClosingInstruction|..] == ClosingInstruction;
    r
  }

  /** The extractor's text holds the prompt, the markdown and the model whole, one
      after the other and without overlapping, each right after its heading. */
  lemma ExtractorPromptOrder(markdown: string, extractionPrompt: string, pydanticModel: string)
    ensures var r := ExtractorPrompt(markdown, extractionPrompt, pydanticModel);
      var m := |extractionPrompt| + |DocumentHeading|;
      var s := m + |markdown| + |SchemaHeading|;
      s + |pydanticModel| <= |r|
      && r[..|extractionPrompt|] == extractionPrompt
      && r[|extractionPrompt|..m] == DocumentHeading
      && r[m..m + |markdown|] == markdown
      && r[m + |markdown|..s] == SchemaHeading
      && r[s..s + |pydanticModel|] == pydanticModel
  {
    var r := ExtractorPrompt(markdown, extractionPrompt, pydanticModel);
    var p := extractionPrompt;
    var m := |p| + |DocumentHeading|;
    var s := m + |markdown| + |SchemaHeading|;
    assert r == p + DocumentHeading + markdown + SchemaHeading + pydanticModel + ClosingInstruction;
    assert r[|p|..m] == DocumentHeading;
    assert r[m..m + |markdown|] == markdown;
    assert r[m + |markdown|..s] == SchemaHeading;
    assert r[s..s + |pydanticModel|] == pydanticModel;
  }
}
