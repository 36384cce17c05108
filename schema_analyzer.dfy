/** `SchemaAnalyzer` (backend/src/lg_helpers.py): compiles a task's aim, its ordered
    field dicts and its multi-row flag into the source text of a Pydantic model, an
    extraction prompt, the name of the root class and the multi-row flag. */
module SchemaAnalyzer {
  import opened Wrappers
  import opened Text
  import opened Models

  /** `_map_type`: the lower-cased user type looked up in a fixed table (`string`,
      `number`, `boolean`, `date`); any other type is `str`. */
  function MapType(fieldType: string): (r: string)
    ensures r == "str" || r == "float" || r == "bool"
    ensures r == "float" <==> Lower(fieldType) == "number"
    ensures r == "bool" <==> Lower(fieldType) == "boolean"
  {
    var t := Lower(fieldType);
    if t == "string" then "str"
    else if t == "number" then "float"
    else if t == "boolean" then "bool"
    else if t == "date" then "str"
    else "str"
  }

  /** Lower-casing is idempotent. */
  lemma LowerIdempotent(s: string)
    ensures Lower(Lower(s)) == Lower(s)
  {
    forall k | 0 <= k < |s|
      ensures Lower(Lower(s))[k] == Lower(s)[k]
    {
    }
  }

  /** The type mapping ignores case. */
  lemma MapTypeIgnoresCase(fieldType: string)
    ensures MapType(Lower(fieldType)) == MapType(fieldType)
  {
    LowerIdempotent(fieldType);
  }

  /** `str(e)` for the `AttributeError` raised by calling `attribute` on `None`. */
  function NoneHasNo(attribute: string): string
  {
    "'NoneType' object has no attribute '" + attribute + "'"
  }

  /** The text of the exception the model-building loop raises on a field, if any, in
      the order the loop body evaluates: `field['name']` (`KeyError`), then
      `field['type']` and its `.lower()`, then `.replace` on the description. */
  function FieldError(f: RawField): (r: Option<string>)
    ensures r.None? <==> !f.name.Missing? && f.fieldType.Given? && !f.description.NullEntry?
  {
    if f.name.Missing? then Some("'name'")
    else if f.fieldType.Missing? then Some("'type'")
    else if f.fieldType.NullEntry? then Some(NoneHasNo("lower"))
    else if f.description.NullEntry? then Some(NoneHasNo("replace"))
    else None
  }

  /** How an f-string shows the name: an explicit `None` prints as "None". */
  function NameText(f: RawField): string
    requires !f.name.Missing?
  {
    if f.name.NullEntry? then "None" else f.name.value
  }

  /** `field.get('description', '')` for a field whose description is not `None`. */
  function DescriptionText(f: RawField): string
    requires !f.description.NullEntry?
  {
    if f.description.Given? then f.description.value else ""
  }

  /** The annotation of a field: the mapped type, wrapped in `Optional[...]` unless
      the field is mandatory. */
  function Annotation(f: RawField): string
    requires FieldError(f).None?
  {
    var t := MapType(f.fieldType.value);
    if f.mandatory then t else "Optional[" + t + "]"
  }

  /** The part of a field line before any `Field(...)` default. */
  function FieldHead(f: RawField): string
    requires FieldError(f).None?
  {
    "    " + NameText(f) + ": " + Annotation(f)
  }

  const DescriptionOpen := " = Field(description='"
  const DescriptionClose := "')"

  /** The model line of one field: a `Field(description='...')` default, with single
      quotes escaped, only when the description is non-empty. */
  function FieldLine(f: RawField): string
    requires FieldError(f).None?
  {
    var d := EscapeQuotes(DescriptionText(f));
    if d != "" then FieldHead(f) + DescriptionOpen + d + DescriptionClose else FieldHead(f)
  }

  /** The description written into a field line can be read back from it: the line is
      the bare head when the description is empty, and otherwise the text between the
      opening `Field(description='` and the closing `')` unescapes to the description. */
  lemma FieldLineKeepsDescription(f: RawField)
    requires FieldError(f).None?
    ensures DescriptionText(f) == "" <==> FieldLine(f) == FieldHead(f)
    ensures DescriptionText(f) != "" ==>
      var line := FieldLine(f);
      var start := |FieldHead(f)| + |DescriptionOpen|;
      start <= |line| - 2 && EndsWith(line, DescriptionClose)
      && UnescapeQuotes(line[start..|line| - 2]) == DescriptionText(f)
  {
    var d := EscapeQuotes(DescriptionText(f));
    if DescriptionText(f) != "" {
      var line := FieldLine(f);
      var start := |FieldHead(f)| + |DescriptionOpen|;
      assert line == FieldHead(f) + DescriptionOpen + d + DescriptionClose;
      assert line[start..|line| - 2] == d;
      EscapeRoundTrip(DescriptionText(f));
    } else {
      assert d == "";
    }
  }

  /** A mandatory field is annotated with its bare mapped type, any other field with
      `Optional[...]` around it. */
  lemma FieldLineAnnotation(f: RawField)
    requires FieldError(f).None?
    ensures StartsWith(FieldLine(f), "    " + NameText(f) + ": ")
    ensures f.mandatory ==> FieldHead(f) == "    " + NameText(f) + ": " + MapType(f.fieldType.value)
    ensures !f.mandatory ==>
      FieldHead(f) == "    " + NameText(f) + ": Optional[" + MapType(f.fieldType.value) + "]"
  {
    hide MapType, EscapeQuotes;
    var p := "    " + NameText(f) + ": ";
    var head := FieldHead(f);
    assert head == p + Annotation(f);
    var line := FieldLine(f);
    assert line[..|head|] == head;
    assert line[..|p|] == head[..|p|] == p;
    if !f.mandatory {
      var t := MapType(f.fieldType.value);
      var q := "    " + NameText(f);
      assert ": Optional[" == ": " + "Optional[";
      AppendAssoc(q, ": ", "Optional[");
      AppendAssoc(p, "Optional[", t);
      AppendAssoc(p, "Optional[" + t, "]");
    }
  }

  /** Every field of the list compiles. */
  predicate Compiles(fields: seq<RawField>)
  {
    forall i :: 0 <= i < |fields| ==> FieldError(fields[i]).None?
  }

  /** The exception that stops the model-building loop: the error of the first field
      that has one, or `None` when every field compiles. */
  function FirstError(fields: seq<RawField>): (r: Option<string>)
    ensures r.None? <==> Compiles(fields)
    ensures r.Some? ==> exists i :: (0 <= i < |fields| && FieldError(fields[i]) == r
      && forall j :: 0 <= j < i ==> FieldError(fields[j]).None?)
    decreases |fields|
  {
    if |fields| == 0 then None
    else
      var front := fields[..|fields| - 1];
      if FirstError(front).Some? then FirstError(front) else FieldError(fields[|fields| - 1])
  }

  /** The error of the first failing field is the loop's error, whatever follows. */
  lemma FirstErrorAt(fields: seq<RawField>, i: nat)
    requires i < |fields| && FieldError(fields[i]).Some?
    requires forall j :: 0 <= j < i ==> FieldError(fields[j]).None?
    ensures FirstError(fields) == FieldError(fields[i])
  {
  }

  /** The model lines of the fields, in field order. */
  function FieldLines(fields: seq<RawField>): (r: seq<string>)
    requires Compiles(fields)
    ensures |r| == |fields|
  {
    seq(|fields|, i requires 0 <= i < |fields| => FieldLine(fields[i]))
  }

  /** The field lines of a longer prefix extend those of a shorter one. */
  lemma FieldLinesStep(fields: seq<RawField>, i: nat)
    requires i < |fields| && Compiles(fields[..i + 1])
    ensures Compiles(fields[..i]) && FieldError(fields[i]).None?
    ensures FieldLines(fields[..i + 1]) == FieldLines(fields[..i]) + [FieldLine(fields[i])]
  {
    hide FieldLine;
    assert fields[..i + 1][i] == fields[i];
    assert forall k :: 0 <= k < i ==> fields[..i + 1][k] == fields[..i][k];
    var a := FieldLines(fields[..i + 1]);
    var b := FieldLines(fields[..i]) + [FieldLine(fields[i])];
    forall k | 0 <= k < |a|
      ensures a[k] == b[k]
    {
      if k < i {
        assert fields[..i + 1][k] == fields[..i][k];
      }
    }
  }

  const ModelHeader: seq<string> := [
    "from pydantic import BaseModel, Field",
    "from typing import Optional, List\n",
    "class ExtractedItem(BaseModel):",
    "    \"\"\"Represents a single extracted item based on the schema\"\"\""]

  const NoFieldsLine := "    pass # No fields defined"
  const ListLine := "    data: List[ExtractedItem]"

  /** The placeholder body of a class without fields. */
  function EmptyMarker(fields: seq<RawField>): seq<string>
  {
    if |fields| == 0 then [NoFieldsLine] else []
  }

  /** The root of the model: a wrapper holding a list of items for a multi-row task,
      and otherwise the item class itself. */
  function ResultLines(multiRow: bool): seq<string>
  {
    if multiRow then ["class ExtractionResult(BaseModel):", ListLine]
    else [
      "# Not a multi-row task. The root object is 'ExtractedItem'.",
      "class ExtractionResult(ExtractedItem):",
      "    pass # The root model is the item itself"]
  }

  function ModelLines(fields: seq<RawField>, multiRow: bool): seq<string>
    requires Compiles(fields)
  {
    ModelHeader + EmptyMarker(fields) + FieldLines(fields) + ["\n"] + ResultLines(multiRow)
  }

  function ResultClassName(multiRow: bool): string
  {
    if multiRow then "ExtractionResult" else "ExtractedItem"
  }

  function OutputFormat(multiRow: bool): string
  {
    if multiRow then "Return a JSON object with a single key 'data' containing a list/array of items. Each item in the list should match the 'ExtractedItem' schema."
    else "Return a single JSON object matching the 'ExtractedItem' schema."
  }

  function PromptHead(aim: string): string
  {
    "**Extraction Task Aim:**\n" + aim + "\n\n" + "**Required Schema (as 'ExtractedItem'):**\n"
  }

  /** The prompt line of one field: its name, its type as the user wrote it, whether it
      is mandatory, and its description when that is non-empty. */
  function Bullet(f: RawField): string
    requires FieldError(f).None?
  {
    var requirement := if f.mandatory then "MANDATORY" else "Optional";
    var desc := if f.description.Given? && f.description.value != "" then " - " + f.description.value else "";
    "- **" + NameText(f) + "** (" + f.fieldType.value + ", " + requirement + ")" + desc + "\n"
  }

  function Bullets(fields: seq<RawField>): string
    requires Compiles(fields)
    decreases |fields|
  {
    if |fields| == 0 then ""
    else Bullets(fields[..|fields| - 1]) + Bullet(fields[|fields| - 1])
  }

  /** The bullets of a longer prefix extend those of a shorter one. */
  lemma BulletsStep(fields: seq<RawField>, i: nat)
    requires i < |fields| && Compiles(fields)
    ensures Compiles(fields[..i]) && Compiles(fields[..i + 1])
    ensures Bullets(fields[..i + 1]) == Bullets(fields[..i]) + Bullet(fields[i])
  {
    assert fields[..i + 1][..i] == fields[..i];
  }

  const Instructions :=
    "\n\n**Instructions:**\n"
    + "1.  Carefully read the document content to find the information.\n"
    + "2.  Extract all information matching the schema.\n"
    + "3.  Format the output *exactly* as requested in the 'Required Output Format' section.\n"
    + "4.  If a mandatory field is not found, set its value to `null`.\n"
    + "5.  If an optional field is not found, omit it or set it to `null`.\n"

  function PromptTail(multiRow: bool): string
  {
    "\n**Required Output Format:**\n" + OutputFormat(multiRow) + Instructions
  }

  function Prompt(aim: string, fields: seq<RawField>, multiRow: bool): string
    requires Compiles(fields)
  {
    PromptHead(aim) + Bullets(fields) + PromptTail(multiRow)
  }

  /** The dict `run` returns on success. */
  datatype AnalysisResult = AnalysisResult(
    pydanticModelString: string,
    extractionPrompt: string,
    resultClassName: string,
    isMultiRow: bool)

  const FailurePrefix := "Schema analysis failed: "

  /** What `run` returns: the analysis, or the text of its `{"error": ...}` dict. It
      fails exactly when some field does not compile, with that field's error. */
  function Analyze(aim: string, fields: seq<RawField>, multiRow: bool): (r: Result<AnalysisResult, string>)
    ensures r.Err? <==> !Compiles(fields)
    ensures match r
      case Err(e) => StartsWith(e, FailurePrefix)
      case Ok(v) => v.isMultiRow == multiRow && v.resultClassName == (if multiRow then "ExtractionResult" else "ExtractedItem")
  {
    hide Success;
    match FirstError(fields)
    case Some(e) => Err(FailurePrefix + e)
    case None => Ok(Success(aim, fields, multiRow))
  }

  /** The dict of a successful run. */
  function Success(aim: string, fields: seq<RawField>, multiRow: bool): (r: AnalysisResult)
    requires Compiles(fields)
    ensures r.isMultiRow == multiRow && r.resultClassName == ResultClassName(multiRow)
  {
    hide Join, Prompt;
    AnalysisResult(Join(ModelLines(fields, multiRow), "\n"), Prompt(aim, fields, multiRow),
      ResultClassName(multiRow), multiRow)
  }

  /** Bullets of a concatenation are the bullets of its parts. */
  lemma {:induction false} BulletsAppend(a: seq<RawField>, b: seq<RawField>)
    requires Compiles(a + b)
    ensures Compiles(a) && Compiles(b)
    ensures Bullets(a + b) == Bullets(a) + Bullets(b)
    decreases |b|
  {
    assert forall i :: 0 <= i < |a| ==> a[i] == (a + b)[i];
    assert forall i :: 0 <= i < |b| ==> b[i] == (a + b)[|a| + i];
    if |b| == 0 {
      assert a + b == a;
    } else {
      var front := b[..|b| - 1];
      assert (a + b)[..|a + b| - 1] == a + front;
      BulletsAppend(a, front);
      AppendAssoc(Bullets(a), Bullets(front), Bullet(b[|b| - 1]));
    }
  }

  /** A successful analysis is made of the model lines joined by newlines, the prompt,
      the root class name and the echoed flag. */
  lemma AnalyzeOk(aim: string, fields: seq<RawField>, multiRow: bool)
    requires Analyze(aim, fields, multiRow).Ok?
    ensures Compiles(fields)
    ensures Analyze(aim, fields, multiRow) == Ok(AnalysisResult(
      Join(ModelLines(fields, multiRow), "\n"), Prompt(aim, fields, multiRow),
      ResultClassName(multiRow), multiRow))
  {
    hide Join, ModelLines, Prompt;
  }

  /** Every field of a successful analysis contributes its line to the model text. */
  lemma ModelHasFieldLine(aim: string, fields: seq<RawField>, multiRow: bool, i: nat)
    requires Analyze(aim, fields, multiRow).Ok? && i < |fields|
    ensures Compiles(fields)
    ensures Contains(Analyze(aim, fields, multiRow).value.pydanticModelString, FieldLine(fields[i]))
  {
    hide Analyze, Prompt, Join, FieldLine;
    AnalyzeOk(aim, fields, multiRow);
    var lines := ModelLines(fields, multiRow);
    var before := ModelHeader + EmptyMarker(fields);
    AppendAssoc(before, FieldLines(fields), ["\n"] + ResultLines(multiRow));
    AppendAssoc(before + FieldLines(fields), ["\n"], ResultLines(multiRow));
    assert lines == before + (FieldLines(fields) + (["\n"] + ResultLines(multiRow)));
    var k := |before| + i;
    assert lines[k] == FieldLines(fields)[i];
    JoinContains(lines, "\n", k);
  }

  /** The model text declares the item class. */
  lemma ModelDeclaresItem(aim: string, fields: seq<RawField>, multiRow: bool)
    requires Analyze(aim, fields, multiRow).Ok?
    ensures Contains(Analyze(aim, fields, multiRow).value.pydanticModelString, "class ExtractedItem(BaseModel):")
  {
    hide Analyze, Prompt, Join, FieldLines;
    AnalyzeOk(aim, fields, multiRow);
    var lines := ModelLines(fields, multiRow);
    assert lines[2] == ModelHeader[2];
    JoinContains(lines, "\n", 2);
  }

  /** The root of the model lines is the last part of them. */
  lemma ModelEndsWithRoot(fields: seq<RawField>, multiRow: bool, k: nat)
    requires Compiles(fields) && k < |ResultLines(multiRow)|
    ensures var lines := ModelLines(fields, multiRow);
      |lines| >= |ResultLines(multiRow)|
      && lines[|lines| - |ResultLines(multiRow)| + k] == ResultLines(multiRow)[k]
  {
  }

  /** A multi-row model wraps the items in a list under `data`. */
  lemma MultiRowModelWrapsList(aim: string, fields: seq<RawField>)
    requires Analyze(aim, fields, true).Ok?
    ensures Contains(Analyze(aim, fields, true).value.pydanticModelString, "class ExtractionResult(BaseModel):")
    ensures Contains(Analyze(aim, fields, true).value.pydanticModelString, ListLine)
  {
    hide Analyze, Prompt, Join, FieldLines;
    AnalyzeOk(aim, fields, true);
    var lines := ModelLines(fields, true);
    ModelEndsWithRoot(fields, true, 0);
    ModelEndsWithRoot(fields, true, 1);
    JoinContains(lines, "\n", |lines| - 2);
    JoinContains(lines, "\n", |lines| - 1);
  }

  /** A single-row model makes the item class itself the root. */
  lemma SingleRowModelIsItem(aim: string, fields: seq<RawField>)
    requires Analyze(aim, fields, false).Ok?
    ensures Contains(Analyze(aim, fields, false).value.pydanticModelString, "class ExtractionResult(ExtractedItem):")
  {
    hide Analyze, Prompt, Join, FieldLines;
    AnalyzeOk(aim, fields, false);
    var lines := ModelLines(fields, false);
    ModelEndsWithRoot(fields, false, 1);
    JoinContains(lines, "\n", |lines| - 2);
  }

  /** A task without fields still gets a valid class body. */
  lemma EmptySchemaModel(aim: string, multiRow: bool)
    ensures Analyze(aim, [], multiRow).Ok?
    ensures Contains(Analyze(aim, [], multiRow).value.pydanticModelString, NoFieldsLine)
  {
    hide Analyze, Prompt, Join, MapType, FieldLine;
    AnalyzeOk(aim, [], multiRow);
    var lines := ModelLines([], multiRow);
    assert FieldLines([]) == [];
    assert lines == ModelHeader + [NoFieldsLine] + (["\n"] + ResultLines(multiRow));
    assert lines[|ModelHeader|] == NoFieldsLine;
    JoinContains(lines, "\n", |ModelHeader|);
  }

  /** The prompt is the aim header, one bullet per field in field order, and the
      output format with the instructions: field `i`'s bullet sits between the bullets
      of the fields before it and those of the fields after it. */
  lemma PromptLayout(aim: string, fields: seq<RawField>, multiRow: bool, i: nat)
    requires Analyze(aim, fields, multiRow).Ok? && i < |fields|
    ensures Compiles(fields[..i]) && Compiles(fields[i + 1..]) && FieldError(fields[i]).None?
    ensures Analyze(aim, fields, multiRow).value.extractionPrompt
      == PromptHead(aim) + Bullets(fields[..i]) + Bullet(fields[i]) + Bullets(fields[i + 1..])
         + PromptTail(multiRow)
  {
    hide Analyze, Join, ModelLines, Bullet, PromptHead, PromptTail;
    AnalyzeOk(aim, fields, multiRow);
    assert fields == fields[..i] + ([fields[i]] + fields[i + 1..]);
    BulletsAppend(fields[..i], [fields[i]] + fields[i + 1..]);
    BulletsAppend([fields[i]], fields[i + 1..]);
    assert Bullets([fields[i]]) == Bullet(fields[i]) by {
      assert [fields[i]][..0] == [];
    }
    var h := PromptHead(aim);
    var x := Bullets(fields[..i]);
    var y := Bullet(fields[i]);
    var z := Bullets(fields[i + 1..]);
    AppendAssoc(x, y, z);
    AppendAssoc(h, x + y, z);
    AppendAssoc(h, x, y);
  }

  /** The prompt opens with the aim. */
  lemma PromptStartsWithAim(aim: string, fields: seq<RawField>, multiRow: bool)
    requires Analyze(aim, fields, multiRow).Ok?
    ensures StartsWith(Analyze(aim, fields, multiRow).value.extractionPrompt, "**Extraction Task Aim:**\n" + aim)
  {
    hide Analyze, Join, ModelLines, Bullets, PromptTail;
    AnalyzeOk(aim, fields, multiRow);
    var head := "**Extraction Task Aim:**\n" + aim;
    var s0 := head + "\n\n";
    assert s0[..|head|] == head;
    var s1 := s0 + "**Required Schema (as 'ExtractedItem'):**\n";
    StartsWithExtend(s0, head, "**Required Schema (as 'ExtractedItem'):**\n");
    StartsWithExtend(s1, head, Bullets(fields));
    StartsWithExtend(s1 + Bullets(fields), head, PromptTail(multiRow));
  }

  /** The prompt contains the aim. */
  lemma PromptContainsAim(aim: string, fields: seq<RawField>, multiRow: bool)
    requires Analyze(aim, fields, multiRow).Ok?
    ensures Contains(Analyze(aim, fields, multiRow).value.extractionPrompt, aim)
  {
    PromptStartsWithAim(aim, fields, multiRow);
    ContainsAfterPrefix(Analyze(aim, fields, multiRow).value.extractionPrompt, "**Extraction Task Aim:**\n", aim);
  }

  /** The prompt states the output format chosen by the multi-row flag. */
  lemma PromptStatesFormat(aim: string, fields: seq<RawField>, multiRow: bool)
    requires Analyze(aim, fields, multiRow).Ok?
    ensures Contains(Analyze(aim, fields, multiRow).value.extractionPrompt, OutputFormat(multiRow))
  {
    hide Analyze, Join, ModelLines, Bullets, PromptHead, OutputFormat;
    AnalyzeOk(aim, fields, multiRow);
    var a := PromptHead(aim) + Bullets(fields);
    var m := "\n**Required Output Format:**\n";
    var f := OutputFormat(multiRow);
    AppendAssoc(a, m + f, Instructions);
    AppendAssoc(a, m, f);
    ContainsInfix(a + m, f, Instructions);
  }

  /** The analysis fails exactly when some field does not compile, with the error of the
      first such field behind the common prefix. */
  lemma AnalysisFailsAtFirstBadField(aim: string, fields: seq<RawField>, multiRow: bool, i: nat)
    requires i < |fields| && FieldError(fields[i]).Some?
    requires forall j :: 0 <= j < i ==> FieldError(fields[j]).None?
    ensures Analyze(aim, fields, multiRow) == Err(FailurePrefix + FieldError(fields[i]).value)
  {
    FirstErrorAt(fields, i);
  }

  /** Lower-casing leaves a text without upper-case ASCII letters alone. */
  lemma LowerOfLowerCase(s: string)
    requires forall k :: 0 <= k < |s| ==> !('A' <= s[k] <= 'Z')
    ensures Lower(s) == s
  {
  }

  /** Escaping leaves a text without single quotes alone. */
  lemma {:induction false} EscapeWithoutQuotes(s: string)
    requires '\'' !in s
    ensures EscapeQuotes(s) == s
    decreases |s|
  {
    if |s| > 0 {
      assert s[0] in s;
      assert forall c :: c in s[1..] ==> c in s;
      EscapeWithoutQuotes(s[1..]);
      assert [s[0]] + s[1..] == s;
    }
  }

  /** The line of a mandatory `string` field without a description, as in the
      single-row unit test. */
  lemma MandatoryStringLine()
    ensures FieldLine(RawField(Given("invoice_id"), Given("string"), mandatory := true))
      == "    invoice_id: str"
  {
    var f := RawField(Given("invoice_id"), Given("string"), mandatory := true);
    LowerOfLowerCase("string");
    assert MapType("string") == "str";
    assert DescriptionText(f) == "";
    assert FieldHead(f) == "    invoice_id: str";
  }

  /** A non-empty description without single quotes is written verbatim as the
      field's default. */
  lemma UnquotedDescriptionVerbatim(f: RawField)
    requires FieldError(f).None? && DescriptionText(f) != "" && '\'' !in DescriptionText(f)
    ensures FieldLine(f) == FieldHead(f) + DescriptionOpen + DescriptionText(f) + DescriptionClose
  {
    EscapeWithoutQuotes(DescriptionText(f));
  }

  /** One pass of the model-building loop of `run`: the field's line, or the exception
      a missing key or an explicit `None` raises on the way. */
  method CompileField(field: RawField) returns (r: Result<string, string>)
    ensures FieldError(field).Some? ==> r == Err(FieldError(field).value)
    ensures FieldError(field).None? ==> r == Ok(FieldLine(field))
  {
    hide MapType, EscapeQuotes;
    if field.name.Missing? {
      return Err("'name'");
    }
    if field.fieldType.Missing? {
      return Err("'type'");
    }
    if field.fieldType.NullEntry? {
      return Err(NoneHasNo("lower"));
    }
    var mapped := MapType(field.fieldType.value);
    if field.description.NullEntry? {
      return Err(NoneHasNo("replace"));
    }
    var desc := EscapeQuotes(DescriptionText(field));
    var annotation := if field.mandatory then mapped else "Optional[" + mapped + "]";
    if desc != "" {
      r := Ok("    " + NameText(field) + ": " + annotation + " = Field(description='" + desc + "')");
    } else {
      r := Ok("    " + NameText(field) + ": " + annotation);
    }
  }

  /** The model-building half of `run`: the header, one line per field appended in a
      loop, then the root class; the first field that raises ends it with an error. */
  method BuildModel(fields: seq<RawField>, multiRow: bool) returns (r: Result<string, string>)
    ensures FirstError(fields).Some? ==> r == Err(FailurePrefix + FirstError(fields).value)
    ensures FirstError(fields).None? ==> r == Ok(Join(ModelLines(fields, multiRow), "\n"))
  {
    hide Prompt, MapType, EscapeQuotes, FieldLine;
    var modelLines := ModelHeader;
    if |fields| == 0 {
      modelLines := modelLines + [NoFieldsLine];
    }
    var i := 0;
    while i < |fields|
      invariant 0 <= i <= |fields|
      invariant Compiles(fields[..i])
      invariant modelLines == ModelHeader + EmptyMarker(fields) + FieldLines(fields[..i])
    {
      var field := fields[i];
      var compiled := CompileField(field);
      match compiled
      case Err(e) =>
        FirstErrorAt(fields, i);
        return Err(FailurePrefix + e);
      case Ok(line) =>
        assert Compiles(fields[..i + 1]) by {
          assert fields[..i + 1] == fields[..i] + [field];
        }
        FieldLinesStep(fields, i);
        ghost var before := ModelHeader + EmptyMarker(fields);
        assert modelLines + [line] == before + (FieldLines(fields[..i]) + [line]);
        modelLines := modelLines + [line];
        i := i + 1;
    }
    assert fields[..i] == fields;
    modelLines := modelLines + ["\n"];
    if multiRow {
      modelLines := modelLines + ResultLines(true);
    } else {
      modelLines := modelLines + ResultLines(false);
    }
    return Ok(Join(modelLines, "\n"));
  }

  /** The prompt-building half of `run`: the aim, one bullet per field added in a loop,
      then the output format and the instructions. */
  method BuildPrompt(aim: string, fields: seq<RawField>, multiRow: bool) returns (prompt: string)
    requires Compiles(fields)
    ensures prompt == Prompt(aim, fields, multiRow)
  {
    hide ModelLines, Join, MapType, OutputFormat, Bullets;
    prompt := "**Extraction Task Aim:**\n" + aim + "\n\n";
    prompt := prompt + "**Required Schema (as 'ExtractedItem'):**\n";
    prompt := AppendBullets(prompt, fields);
    var format := "\n**Required Output Format:**\n" + OutputFormat(multiRow);
    AppendAssoc(PromptHead(aim) + Bullets(fields), format, Instructions);
    prompt := prompt + format;
    prompt := prompt + Instructions;
  }

  /** The bullet loop of `run`: one bullet per field, in field order, appended to the
      text so far. */
  method AppendBullets(text: string, fields: seq<RawField>) returns (prompt: string)
    requires Compiles(fields)
    ensures prompt == text + Bullets(fields)
  {
    assert Bullets(fields[..0]) == "";
    hide MapType, Bullets;
    prompt := text;
    var i := 0;
    while i < |fields|
      invariant 0 <= i <= |fields|
      invariant Compiles(fields[..i])
      invariant prompt == text + Bullets(fields[..i])
    {
      var field := fields[i];
      var requirement := if field.mandatory then "MANDATORY" else "Optional";
      var desc := if field.description.Given? && field.description.value != "" then " - " + field.description.value else "";
      var bullet := "- **" + NameText(field) + "** (" + field.fieldType.value + ", " + requirement + ")" + desc + "\n";
      assert bullet == Bullet(field);
      BulletsStep(fields, i);
      AppendAssoc(text, Bullets(fields[..i]), bullet);
      prompt := prompt + bullet;
      i := i + 1;
    }
    assert fields[..i] == fields;
  }

  /** `SchemaAnalyzer.run`: the model text first, then the prompt; an error while
      building the model becomes the run's error. */
  method Run(aim: string, fields: seq<RawField>, multiRow: bool) returns (r: Result<AnalysisResult, string>)
    ensures r == Analyze(aim, fields, multiRow)
  {
    hide ModelLines, Prompt, Join;
    var model := BuildModel(fields, multiRow);
    if model.Err? {
      return Err(model.error);
    }
    var resultClassName := if multiRow then "ExtractionResult" else "ExtractedItem";
    var prompt := BuildPrompt(aim, fields, multiRow);
    return Ok(AnalysisResult(model.value, prompt, resultClassName, multiRow));
  }
}
