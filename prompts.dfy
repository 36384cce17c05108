/** The two prompt builders of the graph workflow (backend/src/prompts_lg.py). A
    `HumanMessage` is modelled as its content text. */
module Prompts {
  import opened Wrappers
  import opened Text
  import SchemaAnalyzer

  /** The keys of an analysis dict that the prompts read; `None` is an absent key. */
  datatype AnalysisDict = AnalysisDict(
    extractionPrompt: Option<string>,
    pydanticModelString: Option<string>,
    isMultiRow: Option<bool>)

  /** The dict the schema analysis hands to the prompts: every key present. */
  function AsDict(a: SchemaAnalyzer.AnalysisResult): (d: AnalysisDict)
    ensures d.extractionPrompt == Some(a.extractionPrompt)
    ensures d.pydanticModelString == Some(a.pydanticModelString)
    ensures d.isMultiRow == Some(a.isMultiRow)
  {
    AnalysisDict(Some(a.extractionPrompt), Some(a.pydanticModelString), Some(a.isMultiRow))
  }

  const DefaultInstructions := "Extract data based on the schema."

  /** `analysis_result.get("extraction_prompt", ...)`. */
  function InstructionsOf(analysis: AnalysisDict): (r: string)
    ensures analysis.extractionPrompt.Some? ==> r == analysis.extractionPrompt.value
    ensures analysis.extractionPrompt.None? ==> r == DefaultInstructions
  {
    if analysis.extractionPrompt.Some? then analysis.extractionPrompt.value else DefaultInstructions
  }

  /** The `---` line that fences each embedded block, with the line breaks around it. */
  const Rule := "\n---\n"
  const DocumentHeading := "DOCUMENT CONTENT (Markdown):"
  const ClosingLead := "\nExtract the data from the document content above and "
  const ReturnOnly := "return ONLY the valid JSON"
  const ClosingTail :=
    " \nthat matches the requested output format. Do not include any other text, \n"
    + "explanations, or markdown formatting.\n"

  /** The extraction prompt up to and including the document. */
  function ExtractionHead(markdown: string, analysis: AnalysisDict): string
  {
    "\n" + InstructionsOf(analysis) + "\n\n" + DocumentHeading + Rule + markdown + Rule
  }

  /** `get_extraction_prompt`: the analysis instructions, then the document between
      `---` lines, then the demand for bare JSON. */
  function ExtractionPrompt(markdown: string, analysis: AnalysisDict): string
  {
    ExtractionHead(markdown, analysis) + ClosingLead + ReturnOnly + ClosingTail
  }

  /** The extraction prompt embeds the instructions, which are the default ones when
      the analysis has none. */
  lemma ExtractionPromptHasInstructions(markdown: string, analysis: AnalysisDict)
    ensures Contains(ExtractionPrompt(markdown, analysis), InstructionsOf(analysis))
    ensures analysis.extractionPrompt.None? ==> Contains(ExtractionPrompt(markdown, analysis), DefaultInstructions)
  {
    var s := "\n" + InstructionsOf(analysis);
    ContainsSuffix("\n", InstructionsOf(analysis));
    ContainsExtendRight(s, InstructionsOf(analysis), "\n\n");
    ContainsExtendRight(s + "\n\n", InstructionsOf(analysis), DocumentHeading);
    ContainsExtendRight(s + "\n\n" + DocumentHeading, InstructionsOf(analysis), Rule);
    ContainsExtendRight(s + "\n\n" + DocumentHeading + Rule, InstructionsOf(analysis), markdown);
    ContainsExtendRight(s + "\n\n" + DocumentHeading + Rule + markdown, InstructionsOf(analysis), Rule);
    InstructionsFollowedByDocument(ExtractionHead(markdown, analysis), InstructionsOf(analysis), ClosingLead, ReturnOnly, ClosingTail);
  }

  /** An occurrence survives appending three texts. */
  lemma InstructionsFollowedByDocument(s: string, t: string, a: string, b: string, c: string)
    requires Contains(s, t)
    ensures Contains(s + a + b + c, t)
  {
    ContainsExtendRight(s, t, a);
    ContainsExtendRight(s + a, t, b);
    ContainsExtendRight(s + a + b, t, c);
  }

  /** The extraction prompt embeds the document heading and the markdown verbatim
      between `---` lines. */
  lemma ExtractionPromptHasDocument(markdown: string, analysis: AnalysisDict)
    ensures Contains(ExtractionPrompt(markdown, analysis), DocumentHeading)
    ensures Contains(ExtractionPrompt(markdown, analysis), Rule + markdown + Rule)
  {
    var a := "\n" + InstructionsOf(analysis) + "\n\n";
    ContainsSuffix(a, DocumentHeading);
    ContainsExtendRight(a + DocumentHeading, DocumentHeading, Rule);
    ContainsExtendRight(a + DocumentHeading + Rule, DocumentHeading, markdown);
    ContainsExtendRight(a + DocumentHeading + Rule + markdown, DocumentHeading, Rule);
    InstructionsFollowedByDocument(ExtractionHead(markdown, analysis), DocumentHeading, ClosingLead, ReturnOnly, ClosingTail);
    var b := a + DocumentHeading;
    AppendAssoc(b, Rule, markdown);
    AppendAssoc(b, Rule + markdown, Rule);
    ContainsSuffix(b, Rule + markdown + Rule);
    InstructionsFollowedByDocument(ExtractionHead(markdown, analysis), Rule + markdown + Rule, ClosingLead, ReturnOnly, ClosingTail);
  }

  /** The extraction prompt demands bare JSON. */
  lemma ExtractionPromptDemandsJson(markdown: string, analysis: AnalysisDict)
    ensures Contains(ExtractionPrompt(markdown, analysis), ReturnOnly)
  {
    var a := ExtractionHead(markdown, analysis) + ClosingLead;
    ContainsSuffix(a, ReturnOnly);
    ContainsExtendRight(a + ReturnOnly, ReturnOnly, ClosingTail);
  }

  /** The extraction prompt determines the document it was built from. */
  lemma ExtractionPromptDeterminesMarkdown(m1: string, m2: string, analysis: AnalysisDict)
    requires ExtractionPrompt(m1, analysis) == ExtractionPrompt(m2, analysis)
    ensures m1 == m2
  {
    var head := "\n" + InstructionsOf(analysis) + "\n\n" + DocumentHeading + Rule;
    var tail := Rule + ClosingLead + ReturnOnly + ClosingTail;
    var p := ExtractionPrompt(m1, analysis);
    ExtractionLayout(m1, analysis);
    ExtractionLayout(m2, analysis);
    assert p == head + m1 + tail;
    assert p == head + m2 + tail;
    assert m1 == p[|head|..|p| - |tail|];
  }

  /** The extraction prompt as the text before the document, the document and the
      text after it. */
  lemma ExtractionLayout(markdown: string, analysis: AnalysisDict)
    ensures ExtractionPrompt(markdown, analysis)
      == ("\n" + InstructionsOf(analysis) + "\n\n" + DocumentHeading + Rule) + markdown
         + (Rule + ClosingLead + ReturnOnly + ClosingTail)
  {
    var h := "\n" + InstructionsOf(analysis) + "\n\n" + DocumentHeading + Rule + markdown;
    AppendAssoc(h, Rule, ClosingLead);
    AppendAssoc(h, Rule + ClosingLead, ReturnOnly);
    AppendAssoc(h, Rule + ClosingLead + ReturnOnly, ClosingTail);
  }

  const ArrayFormat := "a JSON array (list) of items"
  const ObjectFormat := "a single JSON object"

  /** The output format the validation prompt demands: an array exactly when the
      analysis says the task is multi-row (an absent flag counts as false). */
  function FormatOf(analysis: AnalysisDict): (r: string)
    ensures r == ArrayFormat <==> analysis.isMultiRow == Some(true)
    ensures r == ObjectFormat <==> analysis.isMultiRow != Some(true)
  {
    if analysis.isMultiRow.Some? && analysis.isMultiRow.value then ArrayFormat else ObjectFormat
  }

  const DefaultSchema := "No schema provided."

  /** `analysis_result.get("pydantic_model_string", ...)`. */
  function SchemaOf(analysis: AnalysisDict): (r: string)
    ensures analysis.pydanticModelString.Some? ==> r == analysis.pydanticModelString.value
    ensures analysis.pydanticModelString.None? ==> r == DefaultSchema
  {
    if analysis.pydanticModelString.Some? then analysis.pydanticModelString.value else DefaultSchema
  }

  const SpecialistIntro :=
    "\nYou are a JSON Validation & Formatting Specialist. Your job is to clean and validate\n"
    + "raw extracted data to ensure it perfectly matches the required schema.\n\n"
  const SchemaHeading := "TARGET SCHEMA:"
  const RawHeading := "RAW EXTRACTED DATA:"
  const ValidationSteps :=
    "\nINSTRUCTIONS:\n"
    + "1.  Analyze the RAW EXTRACTED DATA. It might be malformed, contain extra text, or be missing quotes.\n"
    + "2.  Your goal is to produce a clean, valid JSON string that conforms to the TARGET SCHEMA.\n"
    + "3.  The final output MUST be "
  const EmptyFallback :=
    ".\n4.  If the raw data is completely unusable or contains no relevant information, return an empty "
  const ValidationClosing :=
    " (e.g., `{}` or `[]`).\n"
    + "5.  Return ONLY the clean, valid JSON. Do not include any other text, explanations, or markdown formatting.\n"

  /** The validation prompt up to and including the raw data. */
  function ValidationHead(rawJson: string, analysis: AnalysisDict): string
  {
    SpecialistIntro + SchemaHeading + Rule + SchemaOf(analysis) + Rule + "\n" + RawHeading + Rule + rawJson + Rule
  }

  /** `get_validation_prompt`: the role, the target schema and the raw data, each
      between `---` lines, then the instructions, which name the output format twice. */
  function ValidationPrompt(rawJson: string, analysis: AnalysisDict): string
  {
    ValidationHead(rawJson, analysis) + ValidationSteps + FormatOf(analysis) + EmptyFallback
    + FormatOf(analysis) + ValidationClosing
  }

  /** An occurrence survives appending the instructions of the validation prompt. */
  lemma OccursBeforeSteps(s: string, t: string, analysis: AnalysisDict)
    requires Contains(s, t)
    ensures Contains(s + ValidationSteps + FormatOf(analysis) + EmptyFallback + FormatOf(analysis) + ValidationClosing, t)
  {
    InstructionsFollowedByDocument(s, t, ValidationSteps, FormatOf(analysis), EmptyFallback);
    InstructionsFollowedByDocument(s + ValidationSteps + FormatOf(analysis) + EmptyFallback, t, FormatOf(analysis), ValidationClosing, "");
    assert s + ValidationSteps + FormatOf(analysis) + EmptyFallback + FormatOf(analysis) + ValidationClosing + ""
      == s + ValidationSteps + FormatOf(analysis) + EmptyFallback + FormatOf(analysis) + ValidationClosing;
  }

  /** The validation prompt embeds the schema (the default text when the analysis has
      none) between `---` lines under its heading. */
  lemma ValidationPromptHasSchema(rawJson: string, analysis: AnalysisDict)
    ensures Contains(ValidationPrompt(rawJson, analysis), SchemaHeading + Rule + SchemaOf(analysis) + Rule)
    ensures analysis.pydanticModelString.None? ==> Contains(ValidationPrompt(rawJson, analysis), DefaultSchema)
  {
    var s := SchemaOf(analysis);
    var t := SchemaHeading + Rule + s + Rule;
    AppendAssoc(SpecialistIntro, SchemaHeading, Rule);
    AppendAssoc(SpecialistIntro, SchemaHeading + Rule, s);
    AppendAssoc(SpecialistIntro, SchemaHeading + Rule + s, Rule);
    ContainsSuffix(SpecialistIntro, t);
    var a := SpecialistIntro + t;
    InstructionsFollowedByDocument(a, t, "\n", RawHeading, Rule);
    InstructionsFollowedByDocument(a + "\n" + RawHeading + Rule, t, rawJson, Rule, "");
    assert a + "\n" + RawHeading + Rule + rawJson + Rule + "" == ValidationHead(rawJson, analysis);
    OccursBeforeSteps(ValidationHead(rawJson, analysis), t, analysis);
    ContainsSuffix(SpecialistIntro + SchemaHeading + Rule, s);
    var b := SpecialistIntro + SchemaHeading + Rule + s;
    InstructionsFollowedByDocument(b, s, Rule, "\n", RawHeading);
    InstructionsFollowedByDocument(b + Rule + "\n" + RawHeading, s, Rule, rawJson, Rule);
    OccursBeforeSteps(ValidationHead(rawJson, analysis), s, analysis);
  }

  /** The validation prompt embeds the raw data verbatim between `---` lines under its
      heading. */
  lemma ValidationPromptHasRaw(rawJson: string, analysis: AnalysisDict)
    ensures Contains(ValidationPrompt(rawJson, analysis), RawHeading + Rule + rawJson + Rule)
  {
    var a := SpecialistIntro + SchemaHeading + Rule + SchemaOf(analysis) + Rule + "\n";
    var t := RawHeading + Rule + rawJson + Rule;
    AppendAssoc(a, RawHeading, Rule);
    AppendAssoc(a, RawHeading + Rule, rawJson);
    AppendAssoc(a, RawHeading + Rule + rawJson, Rule);
    ContainsSuffix(a, t);
    OccursBeforeSteps(ValidationHead(rawJson, analysis), t, analysis);
  }

  /** The chosen output format is stated in the instructions. */
  lemma ValidationPromptStatesFormat(rawJson: string, analysis: AnalysisDict)
    ensures Contains(ValidationPrompt(rawJson, analysis), FormatOf(analysis))
  {
    var a := ValidationHead(rawJson, analysis) + ValidationSteps;
    ContainsSuffix(a, FormatOf(analysis));
    InstructionsFollowedByDocument(a + FormatOf(analysis), FormatOf(analysis), EmptyFallback, FormatOf(analysis), ValidationClosing);
  }

  /** The validation prompt determines the raw data it was built from. */
  lemma ValidationPromptDeterminesRaw(r1: string, r2: string, analysis: AnalysisDict)
    requires ValidationPrompt(r1, analysis) == ValidationPrompt(r2, analysis)
    ensures r1 == r2
  {
    var head := SpecialistIntro + SchemaHeading + Rule + SchemaOf(analysis) + Rule + "\n" + RawHeading + Rule;
    var f := FormatOf(analysis);
    var tail := Rule + ValidationSteps + f + EmptyFallback + f + ValidationClosing;
    ValidationLayout(r1, analysis);
    ValidationLayout(r2, analysis);
    var p := ValidationPrompt(r1, analysis);
    assert r1 == p[|head|..|p| - |tail|];
  }

  /** The validation prompt as the text before the raw data, the raw data and the text
      after it. */
  lemma ValidationLayout(rawJson: string, analysis: AnalysisDict)
    ensures ValidationPrompt(rawJson, analysis)
      == (SpecialistIntro + SchemaHeading + Rule + SchemaOf(analysis) + Rule + "\n" + RawHeading + Rule)
         + rawJson
         + (Rule + ValidationSteps + FormatOf(analysis) + EmptyFallback + FormatOf(analysis) + ValidationClosing)
  {
    var h := SpecialistIntro + SchemaHeading + Rule + SchemaOf(analysis) + Rule + "\n" + RawHeading + Rule + rawJson;
    var f := FormatOf(analysis);
    AppendAssoc(h, Rule, ValidationSteps);
    AppendAssoc(h, Rule + ValidationSteps, f);
    AppendAssoc(h, Rule + ValidationSteps + f, EmptyFallback);
    AppendAssoc(h, Rule + ValidationSteps + f + EmptyFallback, f);
    AppendAssoc(h, Rule + ValidationSteps + f + EmptyFallback + f, ValidationClosing);
  }
}
