/** The LangGraph extraction workflow (backend/src/lg_workflow.py). A shared state
    passes through six nodes: prepare the document, then loop — dispatch a task, analyse
    its schema, extract with the LLM, validate with the LLM — and finally assemble the
    output. The OCR result, the LLM and the JSON parsers are inputs (`Env`); everything
    the nodes do with them is modelled. */
module Workflow {
  import opened Wrappers
  import opened Text
  import opened Models
  import SchemaAnalyzer
  import Prompts
  import TolerantParser

  /** The graph's nodes; `End` is LangGraph's `END`. */
  datatype Node =
    | PrepareDocument
    | TaskDispatcher
    | AnalyzeSchema
    | ExtractData
    | ValidateData
    | FinalizeGraph
    | End

  /** One `llm.invoke`: the reply's content, or the text of the exception it raised. */
  datatype LlmReply = Content(text: string) | Raised(message: string)

  /** What the graph reads from outside.
      `tasks` is the `tasks` input, `None` when the key is absent or its value is not a list.
      `ocr` is what `perform_mistral_ocr` returns or the text of what it raises.
      `llm(k, prompt)` is the reply to the k-th call of the run (counted from 0). */
  datatype Env = Env(
    tasks: Option<seq<RawTask>>,
    useMockOcr: bool,
    mockMarkdown: string,
    ocr: Result<string, string>,
    llm: (nat, string) -> LlmReply,
    parsers: TolerantParser.Parsers)

  /** `ExtractionGraphState`. A queued task is held as the `ExtractionTask` whose
      `model_dump` the source queues (`Models.TaskDumpRoundTrip`: nothing is lost). An
      absent key reads as its `state.get` default: no markdown, empty lists. `prompts`
      lists the prompts sent to the LLM, in order; `node` is where the run stands. */
  datatype GraphState = GraphState(
    markdownContent: Option<string>,
    tasksToProcess: seq<ExtractionTask>,
    currentTask: Option<ExtractionTask>,
    completedResults: seq<TaskResult>,
    currentAnalysisResult: Option<SchemaAnalyzer.AnalysisResult>,
    currentRawJson: Option<string>,
    finalOutput: Option<FinalExtractionOutput>,
    prompts: seq<string>,
    node: Node)

  /** The state the graph is invoked with. */
  function Initial(): (s: GraphState)
    ensures s.node == PrepareDocument && s.tasksToProcess == [] && s.completedResults == []
  {
    GraphState(None, [], None, [], None, None, None, [], PrepareDocument)
  }

  const PreparationFailed := "Preparation failed: "
  const NonEmptyTasks := "Input 'tasks' must be a non-empty list."
  const ExtractionFailed := "LLM extraction failed: "
  const ValidationFailed := "LLM validation failed: "

  // ---------------------------------------------------------------- node specifications

  /** What `prepare_document_node` computes: the markdown and the validated task queue,
      or the text of the exception it catches. */
  function Preparation(env: Env): (r: Result<(string, seq<ExtractionTask>), string>)
    ensures (env.tasks.None? || |env.tasks.value| == 0) ==> r == Err(NonEmptyTasks)
    ensures r.Ok? ==> (env.tasks.Some? && 0 < |env.tasks.value|
      && ValidateTasks(env.tasks.value) == Ok(r.value.1))
    ensures r.Ok? ==> !env.useMockOcr ==> env.ocr == Ok(r.value.0)
    ensures r.Ok? ==> env.useMockOcr ==> r.value.0 == env.mockMarkdown
  {
    if env.tasks.None? || |env.tasks.value| == 0 then Err(NonEmptyTasks)
    else match ValidateTasks(env.tasks.value)
      case Err(e) => Err(e)
      case Ok(q) =>
        if env.useMockOcr then Ok((env.mockMarkdown, q))
        else match env.ocr
          case Err(e) => Err(e)
          case Ok(m) => Ok((m, q))
  }

  /** `prepare_document_node`: on success the markdown, the queue and an empty result
      list; on failure only an error output. */
  function PrepareSpec(s: GraphState, env: Env): GraphState
  {
    match Preparation(env)
    case Err(e) => s.(finalOutput := Some(ErrorOutput(PreparationFailed + e)))
    case Ok((m, q)) => s.(markdownContent := Some(m), tasksToProcess := q, completedResults := [])
  }

  /** `task_dispatcher_node`: pops the head of the queue into `current_task` and clears
      the previous task's intermediate results; with an empty queue it only clears the task. */
  function DispatchSpec(s: GraphState): GraphState
  {
    if |s.tasksToProcess| == 0 then s.(currentTask := None)
    else s.(tasksToProcess := s.tasksToProcess[1..], currentTask := Some(s.tasksToProcess[0]),
            currentAnalysisResult := None, currentRawJson := None)
  }

  /** The analysis the source runs for a queued task: its dumped fields go through the
      schema analyser. */
  function AnalyzeTask(t: ExtractionTask): Result<SchemaAnalyzer.AnalysisResult, string>
  {
    SchemaAnalyzer.Analyze(t.aim, DumpFields(t.extractionSchema), t.multiRow)
  }

  /** `analyze_schema_node`. A failed analysis is recorded as the task's result and ends
      the task. Without a task the node's `{"error": ...}` update names no state key, so
      nothing changes. */
  function AnalyzeSpec(s: GraphState): GraphState
  {
    if s.currentTask.None? then s
    else
      var t := s.currentTask.value;
      match AnalyzeTask(t)
      case Err(e) =>
        s.(completedResults := s.completedResults + [TaskResult(t.aim, error := Some(SchemaAnalyzer.FailurePrefix + e))],
           currentTask := None)
      case Ok(a) => s.(currentAnalysisResult := Some(a))
  }

  /** `extract_data_node`: one LLM call with the extraction prompt. A raised call is
      recorded as the task's result and ends the task. */
  function ExtractSpec(s: GraphState, env: Env): GraphState
  {
    if s.currentTask.None? || s.currentAnalysisResult.None? || s.markdownContent.None? then s
    else
      var t := s.currentTask.value;
      var prompt := Prompts.ExtractionPrompt(s.markdownContent.value, Prompts.AsDict(s.currentAnalysisResult.value));
      var sent := s.prompts + [prompt];
      match env.llm(|s.prompts|, prompt)
      case Raised(m) =>
        s.(completedResults := s.completedResults + [TaskResult(t.aim, error := Some(ExtractionFailed + m))],
           currentTask := None, prompts := sent)
      case Content(raw) => s.(currentRawJson := Some(raw), prompts := sent)
  }

  /** `validate_data_node`: one LLM call with the validation prompt; the reply is parsed
      leniently and recorded with the raw extraction. A raised call is recorded as an
      error result that keeps the raw extraction. */
  function ValidateSpec(s: GraphState, env: Env): GraphState
  {
    if s.currentTask.None? || s.currentAnalysisResult.None? || s.currentRawJson.None? then s
    else
      var t := s.currentTask.value;
      var raw := s.currentRawJson.value;
      var prompt := Prompts.ValidationPrompt(raw, Prompts.AsDict(s.currentAnalysisResult.value));
      var sent := s.prompts + [prompt];
      match env.llm(|s.prompts|, prompt)
      case Raised(m) =>
        s.(completedResults := s.completedResults + [TaskResult(t.aim, Null, Some(raw), Some(ValidationFailed + m))],
           prompts := sent)
      case Content(text) =>
        var data := TolerantParser.TryParseJsonLike(Str(text), env.parsers);
        s.(completedResults := s.completedResults + [TaskResult(t.aim, data, Some(raw))], prompts := sent)
  }

  /** The output `finalize_graph_node` assembles from a markdown text and the results. */
  function SuccessOutput(markdown: string, results: seq<TaskResult>): (r: FinalExtractionOutput)
    ensures r.status == "success" && r.error.None?
    ensures r.markdownLength == Some(|markdown|) && r.tasksProcessed == Some(|results|)
    ensures r.results == Some(results)
  {
    FinalExtractionOutput("success", Some(|markdown|), Some(|results|), Some(results))
  }

  /** `finalize_graph_node`: a missing markdown counts as "". */
  function FinalizeSpec(s: GraphState): GraphState
  {
    var markdown := if s.markdownContent.Some? then s.markdownContent.value else "";
    s.(finalOutput := Some(SuccessOutput(markdown, s.completedResults)))
  }

  /** The node update of the node the state stands at. */
  function NodeSpec(s: GraphState, env: Env): GraphState
  {
    match s.node
    case PrepareDocument => PrepareSpec(s, env)
    case TaskDispatcher => DispatchSpec(s)
    case AnalyzeSchema => AnalyzeSpec(s)
    case ExtractData => ExtractSpec(s, env)
    case ValidateData => ValidateSpec(s, env)
    case FinalizeGraph => FinalizeSpec(s)
    case End => s
  }

  /** The graph's edges; after the dispatcher, `should_continue_loop` reads the updated
      state. */
  function NextNode(n: Node, s: GraphState): (r: Node)
    ensures n == TaskDispatcher ==> (r == AnalyzeSchema <==> s.currentTask.Some?)
    ensures n == TaskDispatcher ==> (r == FinalizeGraph <==> s.currentTask.None?)
    ensures n == PrepareDocument ==> r == TaskDispatcher
    ensures n == AnalyzeSchema ==> r == ExtractData
    ensures n == ExtractData ==> r == ValidateData
    ensures n == ValidateData ==> r == TaskDispatcher
    ensures n == FinalizeGraph ==> r == End
  {
    match n
    case PrepareDocument => TaskDispatcher
    case TaskDispatcher => if s.currentTask.Some? then AnalyzeSchema else FinalizeGraph
    case AnalyzeSchema => ExtractData
    case ExtractData => ValidateData
    case ValidateData => TaskDispatcher
    case FinalizeGraph => End
    case End => End
  }

  /** One super-step: run the current node, then follow its edge. */
  function StepSpec(s: GraphState, env: Env): GraphState
  {
    var t := NodeSpec(s, env);
    t.(node := NextNode(s.node, t))
  }

  // ---------------------------------------------------------------- node properties

  /** Preparation either fails, leaving only an error output whose text starts with
      "Preparation failed: " (a missing, non-list or empty `tasks` input fails this way),
      or queues the validated tasks in input order with an empty result list. */
  lemma PrepareNode(s: GraphState, env: Env)
    ensures env.tasks.None? || env.tasks == Some([]) ==>
      PrepareSpec(s, env) == s.(finalOutput := Some(ErrorOutput(PreparationFailed + NonEmptyTasks)))
    ensures Preparation(env).Err? ==>
      var r := PrepareSpec(s, env);
      r == s.(finalOutput := r.finalOutput) && r.finalOutput.Some?
      && r.finalOutput.value.status == "error" && r.finalOutput.value.results.None?
      && r.finalOutput.value.error.Some? && StartsWith(r.finalOutput.value.error.value, PreparationFailed)
    ensures Preparation(env).Ok? ==>
      var r := PrepareSpec(s, env);
      env.tasks.Some? && ValidateTasks(env.tasks.value) == Ok(r.tasksToProcess)
      && |r.tasksToProcess| == |env.tasks.value| && r.completedResults == []
      && r.markdownContent == Some(Preparation(env).value.0) && r.finalOutput == s.finalOutput
      && r == s.(markdownContent := r.markdownContent, tasksToProcess := r.tasksToProcess, completedResults := [])
  {
    hide SchemaAnalyzer.Analyze, Prompts.ExtractionPrompt, Prompts.ValidationPrompt, TolerantParser.TryParseJsonLike;
    if Preparation(env).Err? {
      var e := Preparation(env).error;
      assert (PreparationFailed + e)[..|PreparationFailed|] == PreparationFailed;
    }
  }

  /** The dispatcher pops the head of a non-empty queue into the current task, shrinking
      the queue by exactly one and clearing the previous task's analysis and raw reply;
      with an empty queue it clears the current task. Nothing else changes. */
  lemma DispatcherNode(s: GraphState)
    ensures |s.tasksToProcess| == 0 ==> DispatchSpec(s) == s.(currentTask := None)
    ensures |s.tasksToProcess| > 0 ==>
      var r := DispatchSpec(s);
      [s.tasksToProcess[0]] + r.tasksToProcess == s.tasksToProcess
      && |r.tasksToProcess| == |s.tasksToProcess| - 1
      && r.currentTask == Some(s.tasksToProcess[0])
      && r == s.(tasksToProcess := r.tasksToProcess, currentTask := r.currentTask,
                 currentAnalysisResult := None, currentRawJson := None)
  {
    if |s.tasksToProcess| > 0 {
      assert [s.tasksToProcess[0]] + s.tasksToProcess[1..] == s.tasksToProcess;
    }
  }

  /** A failing analysis or extraction appends one error result for the current task and
      clears it; the nodes after it in the cycle then write nothing. */
  lemma FailureEndsTask(s: GraphState, env: Env)
    requires s.currentTask.Some?
    ensures AnalyzeTask(s.currentTask.value).Err? ==>
      var e := SchemaAnalyzer.FailurePrefix + AnalyzeTask(s.currentTask.value).error;
      var r := AnalyzeSpec(s);
      r == s.(completedResults := s.completedResults + [TaskResult(s.currentTask.value.aim, error := Some(e))],
              currentTask := None)
      && ExtractSpec(r, env) == r && ValidateSpec(r, env) == r
    ensures s.currentAnalysisResult.Some? && s.markdownContent.Some? ==>
      var prompt := Prompts.ExtractionPrompt(s.markdownContent.value, Prompts.AsDict(s.currentAnalysisResult.value));
      env.llm(|s.prompts|, prompt).Raised? ==>
      var e := ExtractionFailed + env.llm(|s.prompts|, prompt).message;
      var r := ExtractSpec(s, env);
      r == s.(completedResults := s.completedResults + [TaskResult(s.currentTask.value.aim, error := Some(e))],
              currentTask := None, prompts := s.prompts + [prompt])
      && ValidateSpec(r, env) == r
  {
    hide SchemaAnalyzer.Analyze, Prompts.ExtractionPrompt, Prompts.ValidationPrompt, TolerantParser.TryParseJsonLike;
  }

  /** Validation records the parsed reply with the raw extraction and no error, or, when
      the call raises, an error starting "LLM validation failed: " with no data and the
      raw extraction kept. Either way it appends exactly one result. */
  lemma ValidateNode(s: GraphState, env: Env)
    requires s.currentTask.Some? && s.currentAnalysisResult.Some? && s.currentRawJson.Some?
    ensures var raw := s.currentRawJson.value;
      var reply := env.llm(|s.prompts|, Prompts.ValidationPrompt(raw, Prompts.AsDict(s.currentAnalysisResult.value)));
      var r := ValidateSpec(s, env);
      var aim := s.currentTask.value.aim;
      |r.prompts| == |s.prompts| + 1
      && (reply.Content? ==>
            r.completedResults == s.completedResults
              + [TaskResult(aim, TolerantParser.TryParseJsonLike(Str(reply.text), env.parsers), Some(raw), None)])
      && (reply.Raised? ==>
            r.completedResults == s.completedResults
              + [TaskResult(aim, Null, Some(raw), Some(ValidationFailed + reply.message))])
      && (reply.Raised? ==> StartsWith(r.completedResults[|s.completedResults|].error.value, ValidationFailed))
  {
    hide SchemaAnalyzer.Analyze, Prompts.ExtractionPrompt, Prompts.ValidationPrompt, TolerantParser.TryParseJsonLike;
    var raw := s.currentRawJson.value;
    var reply := env.llm(|s.prompts|, Prompts.ValidationPrompt(raw, Prompts.AsDict(s.currentAnalysisResult.value)));
    if reply.Raised? {
      assert (ValidationFailed + reply.message)[..|ValidationFailed|] == ValidationFailed;
    }
  }

  /** Finalisation reports success with the markdown length (0 without markdown), the
      number of completed results and the results themselves. */
  lemma FinalizeNode(s: GraphState)
    ensures var out := FinalizeSpec(s).finalOutput;
      out.Some? && out.value.status == "success" && out.value.error.None?
      && out.value.markdownLength == Some(if s.markdownContent.Some? then |s.markdownContent.value| else 0)
      && out.value.tasksProcessed == Some(|s.completedResults|)
      && out.value.results == Some(s.completedResults)
  {
  }

  /** A measure that every step decreases: each pass of the loop costs four steps of a
      task taken off the queue. */
  function Rank(s: GraphState, env: Env): nat
  {
    var q := |s.tasksToProcess|;
    match s.node
    case PrepareDocument => 4 * (q + (if env.tasks.Some? then |env.tasks.value| else 0)) + 3
    case TaskDispatcher => 4 * q + 2
    case AnalyzeSchema => 4 * q + 5
    case ExtractData => 4 * q + 4
    case ValidateData => 4 * q + 3
    case FinalizeGraph => 1
    case End => 0
  }

  lemma StepDecreasesRank(s: GraphState, env: Env)
    requires s.node != End
    ensures Rank(StepSpec(s, env), env) < Rank(s, env)
  {
    hide SchemaAnalyzer.Analyze, Prompts.ExtractionPrompt, Prompts.ValidationPrompt, TolerantParser.TryParseJsonLike;
    if s.node == PrepareDocument && Preparation(env).Ok? {
      assert |Preparation(env).value.1| == |env.tasks.value|;
    }
  }

  /** The state a run reaches from `s`: steps until `END`. */
  function RunFrom(s: GraphState, env: Env): (r: GraphState)
    ensures r.node == End
    decreases Rank(s, env)
  {
    if s.node == End then s
    else
      StepDecreasesRank(s, env);
      RunFrom(StepSpec(s, env), env)
  }

  /** The final state of a run on the inputs `env` when no step limit stops it. */
  function Extraction(env: Env): GraphState
  {
    RunFrom(Initial(), env)
  }

  // ---------------------------------------------------------------- LangGraph's step limit

  /** LangGraph's default `recursion_limit`. The graph is invoked without a config, so a
      run may take at most this many super-steps. */
  const RecursionLimit := 25

  /** The number of super-steps a run from `s` takes to reach `END`. */
  function StepCount(s: GraphState, env: Env): (n: nat)
    ensures n == 0 <==> s.node == End
    decreases Rank(s, env)
  {
    if s.node == End then 0
    else
      StepDecreasesRank(s, env);
      1 + StepCount(StepSpec(s, env), env)
  }

  /** Where a run under a budget of super-steps stands once it reaches `END` or spends the
      budget, and whether it reached `END`. */
  datatype Bounded = Bounded(last: GraphState, reachedEnd: bool)

  /** LangGraph's loop: a super-step only while the budget lasts. */
  function RunWithin(s: GraphState, env: Env, budget: nat): (r: Bounded)
    ensures r.reachedEnd <==> r.last.node == End
    decreases budget
  {
    if s.node == End then Bounded(s, true)
    else if budget == 0 then Bounded(s, false)
    else RunWithin(StepSpec(s, env), env, budget - 1)
  }

  /** The budgeted run reaches `END` iff the run needs no more super-steps than the
      budget, and then it stops where the unbounded run does. */
  lemma {:induction false} RunWithinCompletes(s: GraphState, env: Env, budget: nat)
    ensures RunWithin(s, env, budget).reachedEnd <==> StepCount(s, env) <= budget
    ensures RunWithin(s, env, budget).reachedEnd ==> RunWithin(s, env, budget).last == RunFrom(s, env)
    decreases budget
  {
    hide SchemaAnalyzer.Analyze, Prompts.ExtractionPrompt, Prompts.ValidationPrompt, TolerantParser.TryParseJsonLike;
    if s.node != End && budget > 0 {
      RunWithinCompletes(StepSpec(s, env), env, budget - 1);
      RunStep(s, env);
    }
  }

  /** Away from preparation, every super-step lowers the measure by exactly one and never
      returns to preparation. */
  lemma StepLowersRankByOne(s: GraphState, env: Env)
    requires s.node != End && s.node != PrepareDocument
    ensures StepSpec(s, env).node != PrepareDocument
    ensures Rank(StepSpec(s, env), env) == Rank(s, env) - 1
  {
    hide SchemaAnalyzer.Analyze, Prompts.ExtractionPrompt, Prompts.ValidationPrompt, TolerantParser.TryParseJsonLike;
  }

  /** Away from preparation, the measure is exactly the number of super-steps left. */
  lemma {:induction false} StepCountIsRank(s: GraphState, env: Env)
    requires s.node != PrepareDocument
    ensures StepCount(s, env) == Rank(s, env)
    decreases Rank(s, env)
  {
    hide SchemaAnalyzer.Analyze, Prompts.ExtractionPrompt, Prompts.ValidationPrompt, TolerantParser.TryParseJsonLike;
    if s.node != End {
      StepLowersRankByOne(s, env);
      StepCountIsRank(StepSpec(s, env), env);
    }
  }

  /** A run takes four super-steps per queued task, plus preparation, the last dispatch
      and finalisation. A failed preparation queues nothing. */
  lemma RunSteps(env: Env)
    ensures StepCount(Initial(), env) == 4 * (if Preparation(env).Ok? then |env.tasks.value| else 0) + 3
  {
    hide SchemaAnalyzer.Analyze, Prompts.ExtractionPrompt, Prompts.ValidationPrompt, TolerantParser.TryParseJsonLike;
    var s1 := StepSpec(Initial(), env);
    assert s1.node == TaskDispatcher;
    assert |s1.tasksToProcess| == (if Preparation(env).Ok? then |env.tasks.value| else 0);
    StepCountIsRank(s1, env);
  }

  /** `graph.invoke` under the default limit: the run as far as 25 super-steps take it. */
  function Invocation(env: Env): Bounded
  {
    RunWithin(Initial(), env, RecursionLimit)
  }

  /** The invocation returns iff preparation fails or at most five tasks are queued
      (4 * 5 + 3 = 23 super-steps). Six or more tasks take 27 or more super-steps, and
      LangGraph raises `GraphRecursionError`. When it returns, it returns the final state
      of the run. */
  lemma LimitAdmitsFiveTasks(env: Env)
    ensures Invocation(env).reachedEnd <==> (Preparation(env).Err? || |env.tasks.value| <= 5)
    ensures Invocation(env).reachedEnd ==> Invocation(env).last == Extraction(env)
  {
    hide SchemaAnalyzer.Analyze, Prompts.ExtractionPrompt, Prompts.ValidationPrompt, TolerantParser.TryParseJsonLike;
    RunWithinCompletes(Initial(), env, RecursionLimit);
    RunSteps(env);
  }

  // ---------------------------------------------------------------- one task, directly

  /** A task's result and the prompts its processing sent. */
  datatype Attempt = Attempt(result: TaskResult, sent: seq<string>)

  /** What one pass of the loop does to a task, written as one computation instead of
      three nodes that hand over through the state: analyse, extract (call `calls`),
      validate (call `calls + 1`), stopping at the first failure. */
  function TaskOutcome(t: ExtractionTask, markdown: string, calls: nat, env: Env): (r: Attempt)
    ensures r.result.taskAim == t.aim
    ensures |r.sent| <= 2
    ensures r.result.error.Some? ==> r.result.extractedData == Null
    ensures r.result.error.None? ==> |r.sent| == 2 && r.result.rawExtractedJson.Some?
    ensures r.result.rawExtractedJson.Some? <==> |r.sent| == 2
  {
    match AnalyzeTask(t)
    case Err(e) => Attempt(TaskResult(t.aim, error := Some(SchemaAnalyzer.FailurePrefix + e)), [])
    case Ok(a) =>
      var extraction := Prompts.ExtractionPrompt(markdown, Prompts.AsDict(a));
      match env.llm(calls, extraction)
      case Raised(m) => Attempt(TaskResult(t.aim, error := Some(ExtractionFailed + m)), [extraction])
      case Content(raw) =>
        var validation := Prompts.ValidationPrompt(raw, Prompts.AsDict(a));
        match env.llm(calls + 1, validation)
        case Raised(m) =>
          Attempt(TaskResult(t.aim, Null, Some(raw), Some(ValidationFailed + m)), [extraction, validation])
        case Content(text) =>
          Attempt(TaskResult(t.aim, TolerantParser.TryParseJsonLike(Str(text), env.parsers), Some(raw)),
            [extraction, validation])
  }

  /** The results and prompts of a queue processed in order. */
  datatype Batch = Batch(results: seq<TaskResult>, sent: seq<string>)

  /** Processing a queue front to back with a per-task step, each task starting at the
      LLM call index where the previous one stopped: one result per task, in queue order. */
  function RunTasks(q: seq<ExtractionTask>, calls: nat, step: (ExtractionTask, nat) -> Attempt): (r: Batch)
    ensures |r.results| == |q|
    decreases |q|
  {
    if |q| == 0 then Batch([], [])
    else
      var first := step(q[0], calls);
      var rest := RunTasks(q[1..], calls + |first.sent|, step);
      Batch([first.result] + rest.results, first.sent + rest.sent)
  }

  /** The loop's step over a document: `TaskOutcome`. */
  function TaskStep(markdown: string, env: Env): (ExtractionTask, nat) -> Attempt
  {
    (t: ExtractionTask, calls: nat) => TaskOutcome(t, markdown, calls, env)
  }

  /** `RunTasks` on a non-empty queue: the head's attempt, then the rest from the next
      call index. */
  lemma RunTasksUnfold(q: seq<ExtractionTask>, calls: nat, step: (ExtractionTask, nat) -> Attempt)
    requires |q| > 0
    ensures
      var first := step(q[0], calls);
      var rest := RunTasks(q[1..], calls + |first.sent|, step);
      RunTasks(q, calls, step) == Batch([first.result] + rest.results, first.sent + rest.sent)
  {
    hide SchemaAnalyzer.Analyze, Prompts.ExtractionPrompt, Prompts.ValidationPrompt, TolerantParser.TryParseJsonLike;
  }

  /** Task isolation: the k-th result is the step applied to the k-th task alone. Earlier
      tasks, failed or not, only shift the index of its LLM calls. */
  lemma {:induction false} RunTasksAt(q: seq<ExtractionTask>, calls: nat, step: (ExtractionTask, nat) -> Attempt, k: nat)
    requires k < |q|
    ensures RunTasks(q, calls, step).results[k] == step(q[k], calls + |RunTasks(q[..k], calls, step).sent|).result
    decreases k
  {
    hide SchemaAnalyzer.Analyze, Prompts.ExtractionPrompt, Prompts.ValidationPrompt, TolerantParser.TryParseJsonLike;
    RunTasksUnfold(q, calls, step);
    if k == 0 {
      assert q[..0] == [];
    } else {
      var c1 := calls + |step(q[0], calls).sent|;
      RunTasksAt(q[1..], c1, step, k - 1);
      var prefix := q[..k];
      assert prefix[0] == q[0] && prefix[1..] == q[1..][..k - 1];
      RunTasksUnfold(prefix, calls, step);
      assert q[1..][k - 1] == q[k];
    }
  }

  /** In a run, the k-th result is the k-th task's `TaskOutcome` and carries its aim. */
  lemma TaskResultAt(q: seq<ExtractionTask>, markdown: string, calls: nat, env: Env, k: nat)
    requires k < |q|
    ensures
      var c := calls + |RunTasks(q[..k], calls, TaskStep(markdown, env)).sent|;
      RunTasks(q, calls, TaskStep(markdown, env)).results[k] == TaskOutcome(q[k], markdown, c, env).result
      && RunTasks(q, calls, TaskStep(markdown, env)).results[k].taskAim == q[k].aim
  {
    hide SchemaAnalyzer.Analyze, Prompts.ExtractionPrompt, Prompts.ValidationPrompt, TolerantParser.TryParseJsonLike, TaskOutcome, AnalyzeTask;
    RunTasksAt(q, calls, TaskStep(markdown, env), k);
  }

  // ---------------------------------------------------------------- the graph against the direct form

  /** Running from a state that is not at `END` is running from its successor. */
  lemma RunStep(s: GraphState, env: Env)
    requires s.node != End
    ensures RunFrom(s, env) == RunFrom(StepSpec(s, env), env)
  {
    hide SchemaAnalyzer.Analyze, Prompts.ExtractionPrompt, Prompts.ValidationPrompt, TolerantParser.TryParseJsonLike;
  }

  /** The extraction and validation steps of one pass, from a task whose analysis
      succeeded: the run reaches the dispatcher with the task processed as `TaskOutcome`
      says. */
  lemma ExtractionCycle(s: GraphState, env: Env) returns (next: GraphState)
    requires s.node == ExtractData && s.currentTask.Some? && s.markdownContent.Some?
    requires s.currentAnalysisResult.Some? && AnalyzeTask(s.currentTask.value) == Ok(s.currentAnalysisResult.value)
    ensures RunFrom(next, env) == RunFrom(s, env)
    ensures
      var a := TaskOutcome(s.currentTask.value, s.markdownContent.value, |s.prompts|, env);
      next.node == TaskDispatcher && next.tasksToProcess == s.tasksToProcess
      && next.markdownContent == s.markdownContent
      && next.completedResults == s.completedResults + [a.result]
      && next.prompts == s.prompts + a.sent
  {
    hide SchemaAnalyzer.Analyze, Prompts.ExtractionPrompt, Prompts.ValidationPrompt, TolerantParser.TryParseJsonLike;
    var t := s.currentTask.value;
    var an := s.currentAnalysisResult.value;
    var m := s.markdownContent.value;
    var s3 := StepSpec(s, env);
    RunStep(s, env);
    next := StepSpec(s3, env);
    RunStep(s3, env);
    var a := TaskOutcome(t, m, |s.prompts|, env);
    var extraction := Prompts.ExtractionPrompt(m, Prompts.AsDict(an));
    match env.llm(|s.prompts|, extraction)
    case Raised(msg) =>
      assert s3 == s.(completedResults := s.completedResults + [a.result], currentTask := None,
        prompts := s.prompts + [extraction], node := ValidateData);
      assert next == s3.(node := TaskDispatcher);
    case Content(raw) =>
      assert s3 == s.(currentRawJson := Some(raw), prompts := s.prompts + [extraction], node := ValidateData);
      var validation := Prompts.ValidationPrompt(raw, Prompts.AsDict(an));
      assert a.sent == [extraction, validation];
      AppendAssoc(s.prompts, [extraction], [validation]);
      assert [extraction] + [validation] == a.sent;
      var v := ValidateSpec(s3, env);
      assert next == v.(node := TaskDispatcher);
      match env.llm(|s.prompts| + 1, validation)
      case Raised(msg) =>
        assert a.result == TaskResult(t.aim, Null, Some(raw), Some(ValidationFailed + msg));
        assert v == s3.(completedResults := s.completedResults + [a.result], prompts := s3.prompts + [validation]);
      case Content(text) =>
        assert a.result == TaskResult(t.aim, TolerantParser.TryParseJsonLike(Str(text), env.parsers), Some(raw));
        assert v == s3.(completedResults := s.completedResults + [a.result], prompts := s3.prompts + [validation]);
  }

  /** One pass of the loop, from the dispatcher with a non-empty queue: the run reaches
      the dispatcher again with the head task processed exactly as `TaskOutcome` says. */
  lemma TaskCycle(s: GraphState, env: Env) returns (next: GraphState)
    requires s.node == TaskDispatcher && |s.tasksToProcess| > 0 && s.markdownContent.Some?
    ensures RunFrom(next, env) == RunFrom(s, env)
    ensures
      var a := TaskOutcome(s.tasksToProcess[0], s.markdownContent.value, |s.prompts|, env);
      next.node == TaskDispatcher && next.tasksToProcess == s.tasksToProcess[1..]
      && next.markdownContent == s.markdownContent
      && next.completedResults == s.completedResults + [a.result]
      && next.prompts == s.prompts + a.sent
  {
    hide SchemaAnalyzer.Analyze, Prompts.ExtractionPrompt, Prompts.ValidationPrompt, TolerantParser.TryParseJsonLike;
    var t := s.tasksToProcess[0];
    var s1 := StepSpec(s, env);
    RunStep(s, env);
    assert s1 == s.(tasksToProcess := s.tasksToProcess[1..], currentTask := Some(t),
      currentAnalysisResult := None, currentRawJson := None, node := AnalyzeSchema);
    var s2 := StepSpec(s1, env);
    RunStep(s1, env);
    var a := TaskOutcome(t, s.markdownContent.value, |s.prompts|, env);
    match AnalyzeTask(t)
    case Err(e) =>
      assert s2 == s1.(completedResults := s.completedResults + [a.result], currentTask := None, node := ExtractData);
      var s3 := StepSpec(s2, env);
      RunStep(s2, env);
      assert s3 == s2.(node := ValidateData);
      next := StepSpec(s3, env);
      RunStep(s3, env);
      assert next == s3.(node := TaskDispatcher);
    case Ok(an) =>
      assert s2 == s1.(currentAnalysisResult := Some(an), node := ExtractData);
      next := ExtractionCycle(s2, env);
  }

  /** A run from the dispatcher processes the whole queue as `RunTasks` says and ends
      with the success output over all results. */
  lemma {:induction false} RunFromDispatcher(s: GraphState, env: Env)
    requires s.node == TaskDispatcher && s.markdownContent.Some?
    ensures
      var b := RunTasks(s.tasksToProcess, |s.prompts|, TaskStep(s.markdownContent.value, env));
      var r := RunFrom(s, env);
      r.completedResults == s.completedResults + b.results
      && r.prompts == s.prompts + b.sent
      && r.finalOutput == Some(SuccessOutput(s.markdownContent.value, s.completedResults + b.results))
    decreases |s.tasksToProcess|
  {
    hide SchemaAnalyzer.Analyze, Prompts.ExtractionPrompt, Prompts.ValidationPrompt, TolerantParser.TryParseJsonLike, TaskOutcome, AnalyzeTask, AnalyzeSpec, ExtractSpec, ValidateSpec, PrepareSpec;
    var q := s.tasksToProcess;
    var m := s.markdownContent.value;
    if |q| == 0 {
      var s1 := StepSpec(s, env);
      RunStep(s, env);
      assert s1 == s.(currentTask := None, node := FinalizeGraph);
      var s2 := StepSpec(s1, env);
      RunStep(s1, env);
      assert RunFrom(s2, env) == s2;
    } else {
      var next := TaskCycle(s, env);
      RunFromDispatcher(next, env);
      hide RunFrom, StepSpec;
      var a := TaskOutcome(q[0], m, |s.prompts|, env);
      assert TaskStep(m, env)(q[0], |s.prompts|) == a;
      RunTasksUnfold(q, |s.prompts|, TaskStep(m, env));
      var rest := RunTasks(q[1..], |s.prompts| + |a.sent|, TaskStep(m, env));
      assert next.tasksToProcess == q[1..] && next.markdownContent.value == m;
      assert |next.prompts| == |s.prompts| + |a.sent|;
      assert RunTasks(next.tasksToProcess, |next.prompts|, TaskStep(m, env)) == rest;
      var b := RunTasks(q, |s.prompts|, TaskStep(m, env));
      assert b.results == [a.result] + rest.results && b.sent == a.sent + rest.sent;
      assert RunFrom(s, env).completedResults == next.completedResults + rest.results;
      AppendAssoc(s.completedResults, [a.result], rest.results);
      assert RunFrom(s, env).prompts == next.prompts + rest.sent;
      AppendAssoc(s.prompts, a.sent, rest.sent);
    }
  }

  /** A run whose preparation succeeds ends with one result per input task, in input
      order, computed by `RunTasks`, and reports the markdown's length. */
  lemma ExtractionSucceeds(env: Env)
    requires Preparation(env).Ok?
    ensures
      var (m, q) := Preparation(env).value;
      var b := RunTasks(q, 0, TaskStep(m, env));
      Extraction(env).finalOutput == Some(SuccessOutput(m, b.results))
      && Extraction(env).prompts == b.sent
  {
    hide SchemaAnalyzer.Analyze, Prompts.ExtractionPrompt, Prompts.ValidationPrompt, TolerantParser.TryParseJsonLike;
    var (m, q) := Preparation(env).value;
    var s1 := StepSpec(Initial(), env);
    RunStep(Initial(), env);
    assert s1 == Initial().(markdownContent := Some(m), tasksToProcess := q, node := TaskDispatcher);
    RunFromDispatcher(s1, env);
    var b := RunTasks(q, 0, TaskStep(m, env));
    assert [] + b.results == b.results && [] + b.sent == b.sent;
  }

  /** The results of a run follow the input tasks one for one: as many results as
      tasks, each carrying its task's aim. */
  lemma ResultsFollowTasks(env: Env)
    requires Preparation(env).Ok?
    ensures Extraction(env).finalOutput.Some?
    ensures var out := Extraction(env).finalOutput.value;
      out.results.Some? && out.tasksProcessed.Some?
      && |out.results.value| == |env.tasks.value| == out.tasksProcessed.value
      && forall k :: 0 <= k < |env.tasks.value| ==>
           env.tasks.value[k].aim == Some(out.results.value[k].taskAim)
  {
    hide SchemaAnalyzer.Analyze, Prompts.ExtractionPrompt, Prompts.ValidationPrompt, TolerantParser.TryParseJsonLike;
    ExtractionSucceeds(env);
    var (m, q) := Preparation(env).value;
    var raws := env.tasks.value;
    var results := RunTasks(q, 0, TaskStep(m, env)).results;
    forall k | 0 <= k < |raws|
      ensures raws[k].aim == Some(results[k].taskAim)
    {
      assert ValidateTask(raws[k]) == Ok(q[k]);
      TaskResultAt(q, m, 0, env, k);
    }
  }

  /** A failed preparation is not what the run reports: its error output is replaced by
      finalize's success output with no markdown and no results. */
  lemma PreparationFailureIsOverwritten(env: Env)
    requires Preparation(env).Err?
    ensures Extraction(env).finalOutput == Some(SuccessOutput("", []))
  {
    hide SchemaAnalyzer.Analyze, Prompts.ExtractionPrompt, Prompts.ValidationPrompt, TolerantParser.TryParseJsonLike;
    var s1 := StepSpec(Initial(), env);
    RunStep(Initial(), env);
    assert s1 == Initial().(finalOutput := Some(ErrorOutput(PreparationFailed + Preparation(env).error)),
      node := TaskDispatcher);
    var s2 := StepSpec(s1, env);
    RunStep(s1, env);
    assert s2 == s1.(node := FinalizeGraph);
    var s3 := StepSpec(s2, env);
    RunStep(s2, env);
    assert RunFrom(s3, env) == s3;
  }

  /** A run that completes, whatever its inputs, reports status "success" and no
      top-level error. */
  lemma CompletedRunReportsSuccess(env: Env)
    ensures Extraction(env).finalOutput.Some?
    ensures Extraction(env).finalOutput.value.status == "success"
    ensures Extraction(env).finalOutput.value.error.None?
  {
    hide SchemaAnalyzer.Analyze, Prompts.ExtractionPrompt, Prompts.ValidationPrompt, TolerantParser.TryParseJsonLike;
    if Preparation(env).Ok? {
      ExtractionSucceeds(env);
    } else {
      PreparationFailureIsOverwritten(env);
    }
  }

  /** A task that succeeds made exactly two LLM calls: the extraction prompt over the
      document and the validation prompt over the raw reply, both built from the task's
      analysis. The document sits between rules in the first, the raw reply under its
      heading in the second. */
  lemma SuccessfulTaskPrompts(t: ExtractionTask, markdown: string, calls: nat, env: Env)
    requires TaskOutcome(t, markdown, calls, env).result.error.None?
    ensures AnalyzeTask(t).Ok?
    ensures
      var a := TaskOutcome(t, markdown, calls, env);
      var d := Prompts.AsDict(AnalyzeTask(t).value);
      a.sent == [Prompts.ExtractionPrompt(markdown, d), Prompts.ValidationPrompt(a.result.rawExtractedJson.value, d)]
      && Contains(a.sent[0], Prompts.Rule + markdown + Prompts.Rule)
      && Contains(a.sent[1], Prompts.RawHeading + Prompts.Rule + a.result.rawExtractedJson.value + Prompts.Rule)
  {
    hide SchemaAnalyzer.Analyze, Prompts.ExtractionPrompt, Prompts.ValidationPrompt, TolerantParser.TryParseJsonLike;
    var a := TaskOutcome(t, markdown, calls, env);
    assert AnalyzeTask(t).Ok?;
    var d := Prompts.AsDict(AnalyzeTask(t).value);
    var extraction := Prompts.ExtractionPrompt(markdown, d);
    assert env.llm(calls, extraction).Content?;
    var raw := env.llm(calls, extraction).text;
    var validation := Prompts.ValidationPrompt(raw, d);
    assert a.sent == [extraction, validation] && a.result.rawExtractedJson == Some(raw);
    Prompts.ExtractionPromptHasDocument(markdown, d);
    Prompts.ValidationPromptHasRaw(raw, d);
  }

  /** A queued task fails its analysis exactly when one of its fields has a `None`
      description, and the error then carries the analyser's prefix twice. */
  lemma AnalysisFailsOnNullDescription(t: ExtractionTask, markdown: string, calls: nat, env: Env)
    ensures AnalyzeTask(t).Err? <==> exists i :: 0 <= i < |t.extractionSchema| && t.extractionSchema[i].description.None?
    ensures AnalyzeTask(t).Err? ==>
      var r := TaskOutcome(t, markdown, calls, env).result;
      r.error.Some?
      && StartsWith(r.error.value, SchemaAnalyzer.FailurePrefix + SchemaAnalyzer.FailurePrefix)
      && TaskOutcome(t, markdown, calls, env).sent == []
  {
    hide SchemaAnalyzer.Analyze, Prompts.ExtractionPrompt, Prompts.ValidationPrompt, TolerantParser.TryParseJsonLike;
    var fields := DumpFields(t.extractionSchema);
    if AnalyzeTask(t).Err? {
      var e := AnalyzeTask(t).error;
      var i :| 0 <= i < |fields| && SchemaAnalyzer.FieldError(fields[i]).Some?;
      assert t.extractionSchema[i].description.None?;
      var rest := e[|SchemaAnalyzer.FailurePrefix|..];
      assert e == SchemaAnalyzer.FailurePrefix + rest;
      AppendAssoc(SchemaAnalyzer.FailurePrefix, SchemaAnalyzer.FailurePrefix, rest);
      var full := SchemaAnalyzer.FailurePrefix + SchemaAnalyzer.FailurePrefix + rest;
      assert full[..|SchemaAnalyzer.FailurePrefix + SchemaAnalyzer.FailurePrefix|]
        == SchemaAnalyzer.FailurePrefix + SchemaAnalyzer.FailurePrefix;
    } else {
      forall i | 0 <= i < |t.extractionSchema|
        ensures t.extractionSchema[i].description.Some?
      {
        assert SchemaAnalyzer.FieldError(fields[i]).None?;
      }
    }
  }

  // ---------------------------------------------------------------- the compiled graph

  /** The compiled graph during one `invoke`: the state's keys are its fields, each node
      a method that updates them in place. */
  class ExtractionGraph {
    var markdownContent: Option<string>
    var tasksToProcess: seq<ExtractionTask>
    var currentTask: Option<ExtractionTask>
    var completedResults: seq<TaskResult>
    var currentAnalysisResult: Option<SchemaAnalyzer.AnalysisResult>
    var currentRawJson: Option<string>
    var finalOutput: Option<FinalExtractionOutput>
    var prompts: seq<string>
    var node: Node
    const env: Env

    function State(): GraphState
      reads this
    {
      GraphState(markdownContent, tasksToProcess, currentTask, completedResults,
        currentAnalysisResult, currentRawJson, finalOutput, prompts, node)
    }

    /** `graph.invoke` starting at the entry point. */
    constructor(env: Env)
      ensures State() == Initial() && this.env == env
    {
      hide SchemaAnalyzer.Analyze, Prompts.ExtractionPrompt, Prompts.ValidationPrompt, TolerantParser.TryParseJsonLike;
      markdownContent := None;
      tasksToProcess := [];
      currentTask := None;
      completedResults := [];
      currentAnalysisResult := None;
      currentRawJson := None;
      finalOutput := None;
      prompts := [];
      node := PrepareDocument;
      this.env := env;
    }

    method PrepareDocumentNode()
      modifies this
      ensures State() == PrepareSpec(old(State()), env)
    {
      hide SchemaAnalyzer.Analyze, Prompts.ExtractionPrompt, Prompts.ValidationPrompt, TolerantParser.TryParseJsonLike;
      if env.tasks.None? || |env.tasks.value| == 0 {
        finalOutput := Some(ErrorOutput(PreparationFailed + NonEmptyTasks));
        return;
      }
      var validTasks := ValidateTasks(env.tasks.value);
      if validTasks.Err? {
        finalOutput := Some(ErrorOutput(PreparationFailed + validTasks.error));
        return;
      }
      var markdown;
      if env.useMockOcr {
        markdown := env.mockMarkdown;
      } else if env.ocr.Err? {
        finalOutput := Some(ErrorOutput(PreparationFailed + env.ocr.error));
        return;
      } else {
        markdown := env.ocr.value;
      }
      markdownContent := Some(markdown);
      tasksToProcess := validTasks.value;
      completedResults := [];
    }

    method TaskDispatcherNode()
      modifies this
      ensures State() == DispatchSpec(old(State()))
    {
      hide SchemaAnalyzer.Analyze, Prompts.ExtractionPrompt, Prompts.ValidationPrompt, TolerantParser.TryParseJsonLike;
      if |tasksToProcess| == 0 {
        currentTask := None;
        return;
      }
      currentTask := Some(tasksToProcess[0]);
      tasksToProcess := tasksToProcess[1..];
      currentAnalysisResult := None;
      currentRawJson := None;
    }

    method AnalyzeSchemaNode()
      modifies this
      ensures State() == AnalyzeSpec(old(State()))
    {
      hide SchemaAnalyzer.Analyze, Prompts.ExtractionPrompt, Prompts.ValidationPrompt, TolerantParser.TryParseJsonLike;
      if currentTask.None? {
        return;
      }
      var task := currentTask.value;
      var analysis := SchemaAnalyzer.Run(task.aim, DumpFields(task.extractionSchema), task.multiRow);
      if analysis.Err? {
        completedResults := completedResults + [TaskResult(task.aim, error := Some(SchemaAnalyzer.FailurePrefix + analysis.error))];
        currentTask := None;
      } else {
        currentAnalysisResult := Some(analysis.value);
      }
    }

    method ExtractDataNode()
      modifies this
      ensures State() == ExtractSpec(old(State()), env)
    {
      hide SchemaAnalyzer.Analyze, Prompts.ExtractionPrompt, Prompts.ValidationPrompt, TolerantParser.TryParseJsonLike;
      if currentTask.None? || currentAnalysisResult.None? || markdownContent.None? {
        return;
      }
      var prompt := Prompts.ExtractionPrompt(markdownContent.value, Prompts.AsDict(currentAnalysisResult.value));
      var reply := env.llm(|prompts|, prompt);
      prompts := prompts + [prompt];
      match reply
      case Raised(m) =>
        completedResults := completedResults + [TaskResult(currentTask.value.aim, error := Some(ExtractionFailed + m))];
        currentTask := None;
      case Content(raw) =>
        currentRawJson := Some(raw);
    }

    method ValidateDataNode()
      modifies this
      ensures State() == ValidateSpec(old(State()), env)
    {
      hide SchemaAnalyzer.Analyze, Prompts.ExtractionPrompt, Prompts.ValidationPrompt, TolerantParser.TryParseJsonLike;
      if currentTask.None? || currentAnalysisResult.None? || currentRawJson.None? {
        return;
      }
      var taskAim := currentTask.value.aim;
      var raw := currentRawJson.value;
      var prompt := Prompts.ValidationPrompt(raw, Prompts.AsDict(currentAnalysisResult.value));
      var reply := env.llm(|prompts|, prompt);
      prompts := prompts + [prompt];
      match reply
      case Raised(m) =>
        completedResults := completedResults + [TaskResult(taskAim, Null, Some(raw), Some(ValidationFailed + m))];
      case Content(text) =>
        var parsed := TolerantParser.TryParseJsonLike(Str(text), env.parsers);
        completedResults := completedResults + [TaskResult(taskAim, parsed, Some(raw))];
    }

    method FinalizeGraphNode()
      modifies this
      ensures State() == FinalizeSpec(old(State()))
    {
      hide SchemaAnalyzer.Analyze, Prompts.ExtractionPrompt, Prompts.ValidationPrompt, TolerantParser.TryParseJsonLike;
      var markdown := if markdownContent.Some? then markdownContent.value else "";
      finalOutput := Some(SuccessOutput(markdown, completedResults));
    }

    /** One super-step: the current node, then its edge. */
    method Step()
      requires node != End
      modifies this
      ensures State() == StepSpec(old(State()), env)
    {
      hide SchemaAnalyzer.Analyze, Prompts.ExtractionPrompt, Prompts.ValidationPrompt, TolerantParser.TryParseJsonLike;
      var at := node;
      match at {
        case PrepareDocument => PrepareDocumentNode();
        case TaskDispatcher => TaskDispatcherNode();
        case AnalyzeSchema => AnalyzeSchemaNode();
        case ExtractData => ExtractDataNode();
        case ValidateData => ValidateDataNode();
        case FinalizeGraph => FinalizeGraphNode();
      }
      node := NextNode(at, State());
    }

    /** The loop of `invoke`: super-steps until `END`, or until the step limit is spent,
        where LangGraph raises instead of returning. */
    method Invoke() returns (completed: bool)
      modifies this
      ensures State() == RunWithin(old(State()), env, RecursionLimit).last
      ensures completed == RunWithin(old(State()), env, RecursionLimit).reachedEnd
    {
      hide StepSpec, SchemaAnalyzer.Analyze, Prompts.ExtractionPrompt, Prompts.ValidationPrompt, TolerantParser.TryParseJsonLike;
      var steps := 0;
      while node != End
        invariant steps <= RecursionLimit
        invariant RunWithin(State(), env, RecursionLimit - steps) == RunWithin(old(State()), env, RecursionLimit)
        decreases RecursionLimit - steps
      {
        if steps == RecursionLimit {
          return false;
        }
        Step();
        steps := steps + 1;
      }
      completed := true;
    }
  }

  /** What `app.invoke` gives its caller: the final output, or `GraphRecursionError`. */
  datatype InvokeResult = Returned(output: Option<FinalExtractionOutput>) | RecursionLimitReached

  /** Compiles the graph, invokes it without a config and returns its final output, or
      the recursion error that six or more tasks raise. */
  method RunExtraction(env: Env) returns (r: InvokeResult)
    ensures r.Returned? <==> (Preparation(env).Err? || |env.tasks.value| <= 5)
    ensures r.Returned? ==> r.output == Extraction(env).finalOutput
    ensures r.Returned? ==> r.output.Some? && r.output.value.status == "success"
  {
    hide SchemaAnalyzer.Analyze, Prompts.ExtractionPrompt, Prompts.ValidationPrompt, TolerantParser.TryParseJsonLike;
    var graph := new ExtractionGraph(env);
    var completed := graph.Invoke();
    LimitAdmitsFiveTasks(env);
    CompletedRunReportsSuccess(env);
    if completed {
      r := Returned(graph.finalOutput);
    } else {
      r := RecursionLimitReached;
    }
  }
}
