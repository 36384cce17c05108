# Document extraction core, modelled in Dafny

The system takes a scanned document and a list of extraction tasks. Each task has an aim, a schema of fields (name, type, description, mandatory) and a multi-row flag. The system turns the document into markdown text, builds an extraction prompt and a Pydantic model text per task, asks a language model for the data, and collects one result per task. Two pipelines do this.

- **The LangGraph workflow** (`backend/src/lg_workflow.py`, modelled in `workflow.dfy`).
  - Nodes share a state. *prepare_document* validates the tasks and runs OCR. Then *task_dispatcher*, *analyze_schema*, *extract_data* and *validate_data* run once per task. *finalize_graph* assembles the output.
  - `class Workflow.ExtractionGraph` holds the state as fields. Each node is a method proved against a pure node specification.
  - The whole run (`Invoke`) is proved against `RunWithin`, LangGraph's loop under its default limit of 25 super-steps. `RunFrom` is the same run without a limit, and the end-to-end lemmas are stated about it.
  - A run takes 4N+3 super-steps for N queued tasks (`RunSteps`). So the invocation returns the completed run's state iff at most five tasks are queued, and raises `GraphRecursionError` otherwise (`LimitAdmitsFiveTasks`).
- **The helpers it uses** (`backend/src/lg_helpers.py`).
  - `SchemaAnalyzer.run` (`schema_analyzer.dfy`) generates the model text and the prompt.
  - `try_parse_json_like_string` (`tolerant_parser.dfy`) parses the validated reply tolerantly.
  - `_extract_text_from_mistral_response` and the temporary-file extension guess are in `ocr_helpers.dfy`.
- **The prompts** (`backend/src/prompts_lg.py`, `prompts.dfy`) and **the Pydantic models** (`backend/src/models.py`, `models.dfy`). Pydantic's presence checks and defaults are written out as validation functions with a dump/validate round trip.
- **The CrewAI pipeline.**
  - `backend/src/tools.py` (`tools.dfy`) covers the schema-analyzer tool and the data-extractor prompt.
  - `backend/src/crew.py` (`crew.dfy`) covers the `ExtractionCrew` class: document preparation, the per-task extraction loop, parsing of the agent's answer and the Nanonets text extraction.

Everything outside the process appears as a parameter:

- the language model is a function from (call index, prompt) to a reply or an exception text;
- `json.loads` and `ast.literal_eval` are functions to a parse outcome;
- the OCR result is a value or a conversion function.

The modelled code then has no free choices left. `text.dfy` holds the Python string operations the source relies on (`strip`, `startswith`, `in`, `join`, `lower`, quote escaping). `wrappers.dfy` holds `Option` and `Result`.

## Model

| member | source | states |
|---|---|---|
| Models.Get | backend/src/crew.py:111-115 | `dict.get` on an ordered entry list: the last binding of the key wins, and the result is absent exactly when no entry has the key |
| Models.ValidateField | backend/src/models.py:4-9 | a field validates iff `name` and `type` are given strings; `mandatory` defaults to false; a missing description becomes `""`, an explicit null stays null, a given one is kept |
| Models.ValidateFields | backend/src/models.py:15 | a field list validates iff every field does, and then yields one field per input, in order |
| Models.ValidateTask | backend/src/models.py:12-16 | a task validates iff `aim` and `extraction_schema` are present and every field validates; it keeps the aim and, field by field, the validated fields; `multi_row` is true only when given as true |
| Models.ValidateTasks | backend/src/models.py:18-21 | a task list validates iff every task does, and then yields one task per input, in order |
| Models.DumpFields | backend/src/lg_workflow.py:92 | dumping keeps one raw field per field, in order |
| Models.FieldDumpRoundTrip | backend/src/lg_workflow.py:91-92 | validating the dump of a field gives the field back |
| Models.TaskDumpRoundTrip | backend/src/lg_workflow.py:91-92 | validating the `model_dump` of a task gives the task back, so the queue of dumped tasks loses nothing |
| Models.ErrorOutput | backend/src/models.py:32-37 | an error output has status `"error"`, the message, and no results, length or count |
| TolerantParser.LetterRun | backend/src/lg_helpers.py:287 | the `[a-zA-Z]*` run after the fence: the longest prefix of letters |
| TolerantParser.OpeningFenceLength | backend/src/lg_helpers.py:287 | the opening fence match covers at least the three backticks and stays inside the text |
| TolerantParser.CleanText | backend/src/lg_helpers.py:284-287 | the cleaned text is stripped of surrounding whitespace |
| TolerantParser.FindSpanFrom | backend/src/lg_helpers.py:296 | the search from a position finds no span iff no later position opens one, otherwise the first opening position and its greedy close |
| TolerantParser.FindSpan | backend/src/lg_helpers.py:296-298 | `re.search` finds nothing iff no `{` or `[` has a matching closer after it; a match starts at the earliest such position and ends at the last closer |
| TolerantParser.TryParseJsonLike | backend/src/lg_helpers.py:279-313 | a non-string is returned unchanged; a string yields the original, the cleaned text, or what one of the three parse attempts produced |
| TolerantParser.StrictParseFirst | backend/src/lg_helpers.py:290-291 | when `json.loads` accepts the cleaned text, its value is the result |
| TolerantParser.SpanParseSecond | backend/src/lg_helpers.py:292-300 | when the whole text is not JSON, the first bracketed span that parses is the result |
| TolerantParser.LiteralEvalThird | backend/src/lg_helpers.py:304-307 | when both JSON attempts reject the text, a literal parse is the result |
| TolerantParser.CrashReturnsInput | backend/src/lg_helpers.py:312-313 | an unexpected exception in the first attempt that does not reject the text returns the original input |
| TolerantParser.TrimmedTextLast | backend/src/lg_helpers.py:304-311 | when all three attempts fail, the result is the cleaned text |
| TolerantParser.NoBracketNoSpan | backend/src/lg_helpers.py:296-297 | text without `{` or `[` has no span |
| TolerantParser.CleanFencedBlock | backend/src/lg_helpers.py:286-287 | a block of the form fence, language tag, newline, content, newline, fence cleans to its stripped content |
| TolerantParser.CleanTextOfClean | backend/src/lg_helpers.py:284-287 | stripped text without a leading fence is left unchanged by cleaning |
| TolerantParser.FencedBlockParsesAsContent | backend/src/lg_helpers.py:284-311 | a fenced block parses exactly as its content does |
| TolerantParser.FallbackIsStable | backend/src/lg_helpers.py:310-311 | the fallback string result is a fixed point: parsing it again gives the same string |
| TolerantParser.CleanJsonRoundTrip | backend/src/lg_helpers.py:290-291 | clean JSON text parses to what `json.loads` gives |
| TolerantParser.CleanNestedFenceOnce | backend/src/lg_helpers.py:287 | the substitution runs once: a nested fence survives one cleaning |
| TolerantParser.CleanInnerFence | backend/src/lg_helpers.py:287 | a leading fence with a tag and a trailing fence cleans to the empty text |
| TolerantParser.CleaningTwiceDiffers | backend/src/lg_helpers.py:286-287 | fence cleaning is not idempotent |
| TolerantParser.FencedArrayScenario | backend/src/lg_helpers.py:286-291 | a ```` ```json ```` block holding an array parses to that array |
| TolerantParser.PlainTextScenario | backend/src/lg_helpers.py:310-311 | plain text that no parser accepts is returned as that text |
| SchemaAnalyzer.MapType | backend/src/lg_helpers.py:194-202 | the type maps to `str`, `float` or `bool`: `float` iff the lower-cased type is `number`, `bool` iff it is `boolean` |
| SchemaAnalyzer.LowerIdempotent | backend/src/lg_helpers.py:202 | lower-casing twice equals lower-casing once |
| SchemaAnalyzer.MapTypeIgnoresCase | backend/src/lg_helpers.py:202 | the mapping ignores letter case |
| SchemaAnalyzer.FieldError | backend/src/lg_helpers.py:219-221 | a field raises iff its name is missing, its type is not a string, or its description is an explicit null |
| SchemaAnalyzer.FieldLineKeepsDescription | backend/src/lg_helpers.py:221-229 | the line has a `Field(description=...)` part iff the description is non-empty, and unescaping that part gives the description back |
| SchemaAnalyzer.FieldLineAnnotation | backend/src/lg_helpers.py:224-229 | the line declares the name with the mapped type, wrapped in `Optional[...]` unless mandatory |
| SchemaAnalyzer.FirstError | backend/src/lg_helpers.py:218-222 | no error iff every field compiles; otherwise the error of the first bad field |
| SchemaAnalyzer.FirstErrorAt | backend/src/lg_helpers.py:218-222 | the first failing field determines the error |
| SchemaAnalyzer.FieldLines | backend/src/lg_helpers.py:218-229 | one model line per field |
| SchemaAnalyzer.Analyze | backend/src/lg_helpers.py:204-276 | analysis fails iff some field raises, with the `Schema analysis failed: ` prefix; on success it echoes the multi-row flag and names `ExtractionResult` or `ExtractedItem` as the root class |
| SchemaAnalyzer.ModelHasFieldLine | backend/src/lg_helpers.py:218-229 | the model text contains every field's line |
| SchemaAnalyzer.ModelDeclaresItem | backend/src/lg_helpers.py:212 | the model text declares `ExtractedItem` |
| SchemaAnalyzer.ModelEndsWithRoot | backend/src/lg_helpers.py:231-241 | the model lines end with the root-class lines chosen by the flag |
| SchemaAnalyzer.MultiRowModelWrapsList | backend/src/lg_helpers.py:233-235 | a multi-row model declares `ExtractionResult` with a `data: List[ExtractedItem]` field |
| SchemaAnalyzer.SingleRowModelIsItem | backend/src/lg_helpers.py:238-241 | a single-row model makes `ExtractionResult` a subclass of `ExtractedItem` |
| SchemaAnalyzer.EmptySchemaModel | backend/src/lg_helpers.py:215-216 | an empty schema succeeds and the model holds the `pass` marker |
| SchemaAnalyzer.PromptLayout | backend/src/lg_helpers.py:248-262 | the prompt is the heading, one bullet per field in order, then the format and instructions |
| SchemaAnalyzer.PromptStartsWithAim | backend/src/lg_helpers.py:248 | the prompt starts with the aim heading followed by the aim |
| SchemaAnalyzer.PromptContainsAim | backend/src/lg_helpers.py:248 | the prompt contains the aim |
| SchemaAnalyzer.PromptStatesFormat | backend/src/lg_helpers.py:237-256 | the prompt states the output format the flag selects |
| SchemaAnalyzer.AnalysisFailsAtFirstBadField | backend/src/lg_helpers.py:273-276 | the failure text is the prefix plus the first bad field's exception text |
| SchemaAnalyzer.MandatoryStringLine | backend/src/lg_helpers.py:224-229 | a mandatory `string` field without description gives `    invoice_id: str` |
| SchemaAnalyzer.UnquotedDescriptionVerbatim | backend/src/lg_helpers.py:221-227 | a description without quotes appears verbatim |
| SchemaAnalyzer.BuildModel | backend/src/lg_helpers.py:209-245 | the loop builds exactly the joined model lines, or stops at the first bad field |
| SchemaAnalyzer.CompileField | backend/src/lg_helpers.py:218-229 | one pass of the field loop: the field's exception text when it raises, its model line otherwise |
| SchemaAnalyzer.BuildPrompt | backend/src/lg_helpers.py:248-262 | the appending loop builds exactly the specified prompt |
| SchemaAnalyzer.AppendBullets | backend/src/lg_helpers.py:251-254 | the bullet loop appends exactly one bullet per field, in order |
| SchemaAnalyzer.Run | backend/src/lg_helpers.py:204-276 | the method returns exactly the analysis |
| Prompts.AsDict | backend/src/lg_helpers.py:264-269 | the result dictionary carries the prompt, the model text and the flag |
| Prompts.InstructionsOf | backend/src/prompts_lg.py:20 | the analysis prompt, or the default text when it is absent |
| Prompts.ExtractionPromptHasInstructions | backend/src/prompts_lg.py:20-23 | the extraction prompt contains the instructions (the default when absent) |
| Prompts.ExtractionPromptHasDocument | backend/src/prompts_lg.py:25-28 | the extraction prompt contains the document heading and the markdown between rules |
| Prompts.ExtractionPromptDemandsJson | backend/src/prompts_lg.py:30-32 | the extraction prompt asks for JSON only |
| Prompts.ExtractionPromptDeterminesMarkdown | backend/src/prompts_lg.py:22-33 | equal prompts for one analysis mean equal markdown |
| Prompts.ExtractionLayout | backend/src/prompts_lg.py:22-33 | the prompt is the instructions, the document block, then the closing demand |
| Prompts.FormatOf | backend/src/prompts_lg.py:52-53 | the array format iff `is_multi_row` is true, the object format otherwise |
| Prompts.SchemaOf | backend/src/prompts_lg.py:49 | the model text, or `No schema provided.` when it is absent |
| Prompts.ValidationPromptHasSchema | backend/src/prompts_lg.py:59-62 | the validation prompt contains the schema between rules |
| Prompts.ValidationPromptHasRaw | backend/src/prompts_lg.py:64-67 | the validation prompt contains the raw data between rules |
| Prompts.ValidationPromptStatesFormat | backend/src/prompts_lg.py:72-73 | the validation prompt states the output format |
| Prompts.ValidationPromptDeterminesRaw | backend/src/prompts_lg.py:55-75 | equal prompts for one analysis mean equal raw data |
| Prompts.ValidationLayout | backend/src/prompts_lg.py:55-75 | the prompt is the intro and schema, the raw data, then the steps |
| Workflow.Initial | backend/src/lg_workflow.py:48-70 | the run starts at preparation with no queued tasks and no results |
| Workflow.Preparation | backend/src/lg_workflow.py:85-105 | a missing or empty task list fails with the non-empty-list message; on success the tasks validated and the markdown is the mock or OCR text |
| Workflow.SuccessOutput | backend/src/lg_workflow.py:282-287 | status `success`, no error, the markdown length, the result count and the results |
| Workflow.NextNode | backend/src/lg_workflow.py:295-335 | the dispatcher continues to analysis iff a task is current and goes to finalisation otherwise; every other edge is fixed |
| Workflow.PrepareNode | backend/src/lg_workflow.py:85-122 | failure leaves only an error output with the `Preparation failed: ` prefix; success queues the validated tasks and empties the results |
| Workflow.DispatcherNode | backend/src/lg_workflow.py:132-146 | the head is popped into the current task, the queue shrinks by one and the intermediate results clear; an empty queue clears the task |
| Workflow.FailureEndsTask | backend/src/lg_workflow.py:171-182 | a failing analysis or extraction appends one error result for the task and clears it; later nodes then do nothing |
| Workflow.ValidateNode | backend/src/lg_workflow.py:237-274 | validation appends the parsed reply with the raw data, or the `LLM validation failed: ` error with the raw data |
| Workflow.FinalizeNode | backend/src/lg_workflow.py:282-290 | finalisation reports success with the markdown length (0 without markdown), the count and the results |
| Workflow.StepDecreasesRank | backend/src/lg_workflow.py:319-335 | every step strictly decreases a measure, so a run without a step limit reaches its end |
| Workflow.RunFrom | backend/src/lg_workflow.py:302-337 | a run from any state, with no step limit, ends at `END` |
| Workflow.StepCount | backend/src/lg_workflow.py:316-335 | the number of super-steps to `END`: zero exactly at `END` |
| Workflow.RunWithin | backend/src/lg_workflow.py:302-337 | the run under a budget of super-steps stops at `END` or when the budget is spent |
| Workflow.RunWithinCompletes | backend/src/lg_workflow.py:302-337 | the budgeted run reaches `END` iff the run needs no more super-steps than the budget, and then it ends where the unbounded run does |
| Workflow.StepLowersRankByOne | backend/src/lg_workflow.py:319-335 | after preparation, each edge moves one super-step closer to `END` and never back to preparation |
| Workflow.StepCountIsRank | backend/src/lg_workflow.py:319-335 | after preparation, the super-steps left are four per queued task plus those of the current pass |
| Workflow.RunSteps | backend/src/lg_workflow.py:316-335 | a run takes 4N+3 super-steps for N queued tasks (3 when preparation fails) |
| Workflow.LimitAdmitsFiveTasks | backend/src/lg_workflow.py:302-337 | under LangGraph's default limit of 25 super-steps, the invocation returns iff preparation fails or at most five tasks are queued, and then returns the completed run's state |
| Workflow.TaskOutcome | backend/src/lg_workflow.py:148-274 | one pass over a task yields a result for its aim; an error result has no data; a successful one sent both prompts and kept the raw reply |
| Workflow.RunTasks | backend/src/lg_workflow.py:124-146 | one result per queued task |
| Workflow.RunTasksAt | backend/src/lg_workflow.py:124-146 | the k-th result is the k-th task's outcome |
| Workflow.TaskResultAt | backend/src/lg_workflow.py:124-274 | the k-th result belongs to the k-th task's aim |
| Workflow.TaskCycle | backend/src/lg_workflow.py:124-274 | one dispatcher-to-dispatcher pass consumes the head task and appends its result and prompts |
| Workflow.ExtractionCycle | backend/src/lg_workflow.py:184-274 | from extraction with an analysed task, the run returns to the dispatcher having appended that task's result and prompts |
| Workflow.RunFromDispatcher | backend/src/lg_workflow.py:295-335 | from the dispatcher the run, with no step limit, appends one result per queued task and finalises with them |
| Workflow.ExtractionSucceeds | backend/src/lg_workflow.py:302-337 | after a successful preparation the completed run's output is success with all task results and the prompts sent |
| Workflow.ResultsFollowTasks | backend/src/lg_workflow.py:282-287 | the completed run's output has one result per input task, in input order, with matching aims |
| Workflow.PreparationFailureIsOverwritten | backend/src/lg_workflow.py:115-122 | a preparation failure ends as a success output with no results |
| Workflow.CompletedRunReportsSuccess | backend/src/lg_workflow.py:282-290 | every completed run ends with status `success` and no error |
| Workflow.SuccessfulTaskPrompts | backend/src/lg_workflow.py:197-248 | a successful task sent the extraction prompt with the markdown, then the validation prompt with the raw reply |
| Workflow.AnalysisFailsOnNullDescription | backend/src/lg_workflow.py:157-182 | analysis fails iff some field's description is null; the error carries the prefix twice and no prompt is sent |
| Workflow.ExtractionGraph.constructor | backend/src/lg_workflow.py:48-70 | the graph starts in the initial state |
| Workflow.ExtractionGraph.PrepareDocumentNode | backend/src/lg_workflow.py:74-122 | the new state is the preparation specification of the old |
| Workflow.ExtractionGraph.TaskDispatcherNode | backend/src/lg_workflow.py:124-146 | the new state is the dispatcher specification of the old |
| Workflow.ExtractionGraph.AnalyzeSchemaNode | backend/src/lg_workflow.py:148-182 | the new state is the analysis specification of the old |
| Workflow.ExtractionGraph.ExtractDataNode | backend/src/lg_workflow.py:184-222 | the new state is the extraction specification of the old |
| Workflow.ExtractionGraph.ValidateDataNode | backend/src/lg_workflow.py:224-274 | the new state is the validation specification of the old |
| Workflow.ExtractionGraph.FinalizeGraphNode | backend/src/lg_workflow.py:276-290 | the new state is the finalisation specification of the old |
| Workflow.ExtractionGraph.Step | backend/src/lg_workflow.py:319-335 | one node runs and the edge is followed |
| Workflow.ExtractionGraph.Invoke | backend/src/lg_workflow.py:302-337 | the loop runs super-steps until `END` or until the limit of 25 is spent, as `RunWithin` specifies, and reports which |
| Workflow.RunExtraction | backend/src/workflow_run.py:52-74 | `app.invoke` returns iff preparation fails or at most five tasks are queued, and then its output is the completed run's, with status `success`; otherwise it raises the recursion error |
| Tools.FieldError | backend/src/tools.py:26-30 | a field raises iff its name is missing or its type is not a string |
| Tools.FirstError | backend/src/tools.py:26-38 | no error iff every field compiles; otherwise the first bad field's error |
| Tools.FirstErrorAt | backend/src/tools.py:26-38 | the first failing field determines the error |
| Tools.FieldLineForm | backend/src/tools.py:27-38 | the line declares the name with the mapped, optionally wrapped type, and carries the description unescaped iff it is non-empty |
| Tools.QuoteIsNotEscaped | backend/src/tools.py:36 | a quote in a description is copied unescaped into the model text |
| Tools.FieldLines | backend/src/tools.py:26-38 | one model line per field |
| Tools.AnalyzeFields | backend/src/tools.py:20-83 | an error report iff some field raises, with the prefix; `is_multi_row` iff some field sets `multi_row`; the result class follows it |
| Tools.Analyze | backend/src/tools.py:17-83 | an unparsable schema text gives the prefixed error; a parsed one is analysed |
| Tools.FailsAtFirstBadField | backend/src/tools.py:82-83 | the error is the prefix plus the first bad field's exception text |
| Tools.ModelHasFieldLine | backend/src/tools.py:26-38 | the model text contains every field's line |
| Tools.MultiRowModelWrapsList | backend/src/tools.py:43-46 | a multi-row model adds the `ExtractionResult` wrapper with a list field |
| Tools.SingleRowModelHasNoWrapper | backend/src/tools.py:47-48 | a single-row model ends with the last field line (or the class line) and names `ExtractedData` |
| Tools.PromptLayout | backend/src/tools.py:53-71 | the prompt is the heading, one bullet per field in order, the format, then the instructions |
| Tools.PromptStatesFormat | backend/src/tools.py:62-65 | the prompt states the array format iff the task is multi-row |
| Tools.PromptStartsWithAim | backend/src/tools.py:53 | the prompt starts with `EXTRACTION TASK: ` and the aim |
| Tools.BuildModel | backend/src/tools.py:23-38 | the loop builds the header plus one line per field, or stops at the first bad field |
| Tools.BuildPrompt | backend/src/tools.py:53-71 | the appending loop builds exactly the specified prompt |
| Tools.Run | backend/src/tools.py:17-83 | the method returns exactly the analysis |
| Tools.ExtractorPrompt | backend/src/tools.py:107-122 | the prompt starts with the extraction prompt, ends with the closing demand and adds only the headings |
| Tools.ExtractorPromptOrder | backend/src/tools.py:112-121 | the prompt, markdown and model each sit at their own position, in that order |
| Text.LastIndexOf | backend/src/lg_helpers.py:150-152 | the last occurrence of a character, or -1: no later position holds it (also where the greedy `.*` of lg_helpers.py:296 stops) |
| OcrHelpers.SplitExt | backend/src/lg_helpers.py:152 | `os.path.splitext` gives `""` or a dot-led suffix of the path without `/` |
| OcrHelpers.Subtype | backend/src/lg_helpers.py:150 | the last `/`-separated part of the MIME type |
| OcrHelpers.GuessedExtension | backend/src/lg_helpers.py:145-152 | a non-image type gives `.pdf`, an image type gives `.` plus the subtype; without a type, a dotted name gives its extension and anything else `.pdf` |
| OcrHelpers.PngExtension | backend/src/lg_helpers.py:150 | `image/png` gives `.png` |
| OcrHelpers.FileNameExtension | backend/src/lg_helpers.py:151-152 | `scan.v2.jpeg` without a type gives `.jpeg` |
| OcrHelpers.HiddenFileHasNoExtension | backend/src/lg_helpers.py:151-152 | `.env` without a type gives no extension |
| OcrHelpers.BlockTexts | backend/src/lg_helpers.py:175-181 | the kept texts are truthy and no more than the blocks |
| OcrHelpers.MistralText | backend/src/lg_helpers.py:169-187 | a non-dict response gives the empty text |
| OcrHelpers.StringBlockTexts | backend/src/lg_helpers.py:175-181 | on well-formed blocks, the non-empty texts of the `string` blocks |
| OcrHelpers.BlockTextsOfWellFormed | backend/src/lg_helpers.py:175-181 | on well-formed blocks the filter keeps exactly those texts |
| OcrHelpers.MistralJoinsStringBlocks | backend/src/lg_helpers.py:173-183 | the response text is the `string` block texts joined by blank lines |
| OcrHelpers.NonStringTextGivesEmpty | backend/src/lg_helpers.py:182-187 | a qualifying block with a non-string text makes `join` raise, giving `""` |
| Crew.RemoveMarker | backend/src/crew.py:284-285 | the substitution never lengthens the text |
| Crew.RemoveMarkerAbsent | backend/src/crew.py:284-285 | text without the marker's first character is unchanged |
| Crew.FenceFreeStart | backend/src/crew.py:285 | after fence removal the text starts with a fence prefix only if it did before |
| Crew.NoFenceLeft | backend/src/crew.py:285 | no fence survives the second substitution |
| Crew.StripFences | backend/src/crew.py:284-285 | the cleaned answer holds no fence |
| Crew.ParseExtractionResult | backend/src/crew.py:277-296 | the first bracketed span (or the whole text when there is none) is parsed when it parses; otherwise the answer is wrapped as `raw_output` |
| Crew.FenceSurvivesJsonPass | backend/src/crew.py:284 | a bare fence is untouched by the `json` pass |
| Crew.JsonPassOfFencedBody | backend/src/crew.py:284 | the `json` pass removes the opening fence and the newline after it |
| Crew.FencePassOfBody | backend/src/crew.py:285 | the second pass removes the closing fence |
| Crew.SpanOfObjectBody | backend/src/crew.py:288 | an object body is its own span |
| Crew.FencedObjectScenario | backend/src/crew.py:277-296 | a fenced object answer parses to the object, or is kept as `raw_output` |
| Crew.KeptValues | backend/src/crew.py:114-117 | the kept page texts are truthy and no more than the pages |
| Crew.NanonetsText | backend/src/crew.py:107-122 | a response whose page list cannot be read gives the error text |
| Crew.NonEmptyTexts | backend/src/crew.py:114-117 | on well-formed pages, the non-empty raw texts |
| Crew.KeptValuesOfWellFormed | backend/src/crew.py:114-117 | on well-formed pages the filter keeps exactly those texts |
| Crew.NanonetsJoinsPageTexts | backend/src/crew.py:111-119 | the text is the non-empty page texts joined by blank lines |
| Crew.NanonetsKeepsEveryText | backend/src/crew.py:114-119 | every non-empty page text is in the result |
| Crew.MissingResultGivesEmptyText | backend/src/crew.py:111 | without a `result` key the default page has no page data, giving `""` |
| Crew.EmptyResultListGivesError | backend/src/crew.py:111-122 | an empty `result` list makes the index raise, giving the error text |
| Crew.ExtractTextFromNanonets | backend/src/crew.py:107-122 | the loop computes exactly the specified text |
| Crew.NormalizeTask | backend/src/crew.py:45-47 | corrected: a task converts iff its aim and schema are present and every field validates, giving the aim and those fields |
| Crew.NormalizeTasks | backend/src/crew.py:45-52 | corrected: the list converts iff every task does, one task per input, in order |
| Crew.AsWrittenRejectsEveryTask | backend/src/crew.py:47 | as written, every non-empty task list fails validation, while the corrected conversion accepts the same input |
| Crew.NormalizeTaskMatchesValidation | backend/src/crew.py:47 | the corrected conversion agrees with `ExtractionTask` validation |
| Crew.CrewPrompt | backend/src/crew.py:214-220 | the prompt starts with the tool's prompt and holds the markdown after the heading |
| Crew.DumpedFieldsCompile | backend/src/crew.py:198-207 | the tool never fails on a dumped, validated schema |
| Crew.ExtractTask | backend/src/crew.py:196-259 | corrected: the record carries the 1-based task number and the aim |
| Crew.TaskFailsOnlyWhenAgentFails | backend/src/crew.py:196-259 | the corrected task fails iff the agent raises, with its text; otherwise the data is the parsed answer |
| Crew.ExtractTaskAsWritten | backend/src/crew.py:198-259 | as written, every task fails |
| Crew.AsWrittenFailsAnsweredTask | backend/src/crew.py:198 | a task that succeeds when corrected fails as written with `'method' object is not iterable` |
| Crew.Extraction | backend/src/crew.py:183-275 | corrected: without prepared tasks the result is an error; otherwise success |
| Crew.ResultsFollowTasks | backend/src/crew.py:193-268 | corrected: one record per task, numbered from 1 in order with matching aims, plus the markdown length and task count |
| Crew.TaskIsolation | backend/src/crew.py:192-259 | corrected: a task's record depends only on that task and its position |
| Crew.RunTask | backend/src/crew.py:196-259 | corrected: one pass of the task loop yields exactly the specified record: the tool's or agent's error text, or the parsed answer |
| Crew.ExtractionCrew.constructor | backend/src/crew.py:15-18 | empty markdown and no extraction input |
| Crew.ExtractionCrew.PrepareDocument | backend/src/crew.py:21-64 | corrected: no file data fails and changes nothing; otherwise the markdown is converted and the normalised tasks are stored, or the error is returned |
| Crew.ExtractionCrew.Extract | backend/src/crew.py:183-275 | corrected: the loop computes exactly the specified output |
| Crew.NormalizeTasksFailsAt | backend/src/crew.py:45-47 | the first failing task determines the error |

## Left out

- I/O is left out: file reading, base64 decoding, temporary files, HTTP calls (Mistral, Nanonets), logging and printing. The OCR text, `_convert_to_markdown` with its mock fallback, and `get_mock_markdown` enter as parameters.
- The language model, CrewAI's `kickoff`, `json.loads`, `ast.literal_eval` and the tool's `json.loads` are parameters. What they do with their input is not modelled.
- `json.dumps` of the tool result and the JSON round trip of `schema_json` in `crew.py` are taken as the identity on the values involved.
- The `messages` trace of the graph is left out. The list of prompts sent stands in for it.
- LangGraph's plumbing (merging of partial updates, `compile`, the runtime loop) is written out as the pure step function, the edge function and a loop bounded by the default `recursion_limit` of 25 super-steps. The graph is invoked without a config, so that default applies. The exception's message, and the state the graph stands in when the limit is hit, are not modelled.
- Node updates that return an `"error"` key are dropped, as LangGraph drops keys that are not part of the state.
- `USE_MOCK_OCR` is a parameter, not a constant.
- Numbers are modelled as reals, not floats.
- Lower-casing is ASCII only.
- Pydantic's error wording is not modelled. Every validation error carries one fixed message.
- Models.ValidateTasks: task elements that are not dicts, and a `tasks` value that is not a list, are not modelled separately. A non-list `tasks` is modelled as absent, which the source also rejects.
- Workflow.Preparation: a legacy `schema` key is not accepted. Pydantic ignores it and then reports `extraction_schema` as missing, as the code does.
- An empty model reply is not a failure. It is parsed like any other reply.
- Tools.FieldError: only a string type, an explicit null type and a missing type are modelled. A type of another JSON kind would raise an `AttributeError` text that is not modelled.
- Crew.ExtractionCrew.PrepareDocument: an absent or null `tasks` value is treated as the empty list. In the source, a missing key gives `[]`, while a null value raises a `TypeError` that is re-raised.
- Crew.ExtractionCrew.Extract: CrewAI's agent and crew objects are folded into one `kickoff` parameter indexed by the 1-based task number.
- `crew.py` after line 296 is left out. It repeats fragments of the methods above, starting in the middle of a block, and is not valid Python: line 298 is indented where no block is open, so the module as it stands does not import (`IndentationError`). Everything modelled from `crew.py` is the file without that tail.
- The `crew.py` members marked "corrected" follow the corrections under "## Findings" (`extraction_schema=` at line 47 and `task.extraction_schema` at line 198). As written, `prepare_document` raises for every non-empty task list, and `extract` fails every task.
- `self.results` in `crew.py` is never read, so it is not modelled.

## Findings

| source | as written | input that shows it | evidently intended | confidence | as-written member | corrected member |
|---|---|---|---|---|---|---|
| backend/src/crew.py:47 | `ExtractionTask(aim=..., schema=...)`: `schema` is not a field, Pydantic ignores it, and the required `extraction_schema` is missing | tasks `[{"aim": "a", "schema": []}]` raise a validation error | `extraction_schema=schema_fields` | not executed | Crew.AsWrittenRejectsEveryTask | Crew.NormalizeTasks |
| backend/src/crew.py:198 | iterates `task.schema`, which is the model class's `schema` method, so every task fails with `'method' object is not iterable` | the task `ExtractionTask("a", [])` with an agent that answers `{}` | iterate `task.extraction_schema` | not executed | Crew.AsWrittenFailsAnsweredTask | Crew.TaskFailsOnlyWhenAgentFails |
