/**
 The agent graph: its nodes as functions of the state and of what the outside world answers, the
 routing between them, and one step of a run.
 */
module AgentGraph {
  import opened Common
  import opened ToolCache
  import opened ToolExecutor
  import Text

  datatype Node =
    | ContentFilter
    | Planner
    | ToolSelector
    | ToolExecutor
    | ErrorHandler
    | RetryHandler
    | ResponseGenerator
    | Validator

  datatype Target = To(node: Node) | END

  datatype AgentState = AgentState(
    needsTool: bool,
    selectedTool: Option<ToolCall>,
    toolResult: Option<ToolResult>,
    draft: string,
    validationErrors: seq<string>,
    retryCount: int,
    validationLoopCount: int,
    error: Option<string>,
    nodePath: seq<Node>,
    promptTokens: int,
    completionTokens: int)

  const INITIAL := AgentState(false, None, None, "", [], 0, 0, None, [], 0, 0)

  datatype Settings = Settings(maxRetries: int, maxLoops: int, tools: set<string>)

  // ---------------------------------------------------------------------------
  // What the outside world answers
  // ---------------------------------------------------------------------------

  datatype LlmReply =
    | LlmFailed(exn: Exn)
    | Reply(content: string, calls: seq<ToolCall>, promptTokens: int, completionTokens: int)

  /** A Python value in the planner's JSON. */
  datatype PyValue = PyNone | PyBool(b: bool) | PyStr(s: string) | PyNumber(r: real) | PyOther

  /** What the lenient extractor makes of the planner's reply. */
  datatype Parsed = NotJson | NotDict | ParsedDict(fields: map<string, PyValue>)

  /** Everything a node might ask for; each node looks only at its own part. */
  datatype Input = Input(flagged: bool, parsed: Parsed, llm: LlmReply, tool: Outcome<ToolResult>)

  /** A node returns the updated state or raises. */
  datatype NodeResult = Update(s: AgentState) | Raise(exn: Exn)

  // ---------------------------------------------------------------------------
  // Nodes
  // ---------------------------------------------------------------------------

  const REFUSAL := "I'm sorry, but I can't process that request. Please rephrase your message and try again."
  const FILTERED := "content_filter_triggered"
  const RETRYABLE := "retryable"
  const UNRECOVERABLE := "unrecoverable"
  const APOLOGY := "I ran into a problem completing that request and can't retry it further. "
                   + "Could you rephrase, or try again in a moment?"

  function RunContentFilter(s: AgentState, i: Input): NodeResult {
    Update(if i.flagged then s.(draft := REFUSAL, error := Some(FILTERED)) else s)
  }

  /** The planner's repairs of common mistakes in the model's JSON. */
  function FixUp(d: map<string, PyValue>): map<string, PyValue> {
    var d1 := if "needs_tool" in d && d["needs_tool"].PyStr?
              then d["needs_tool" := PyBool(Text.Lower(d["needs_tool"].s) == "true")] else d;
    var d2 := if "reasoning" in d1 then d1 else d1["reasoning" := PyStr("No reasoning provided.")];
    if "tool_name" in d2 && d2["tool_name"].PyStr? && d2["tool_name"].s in {"none", "null", "None", "Null", ""}
    then d2["tool_name" := PyNone] else d2
  }

  datatype Decision = Invalid | Decision(needsTool: bool, toolName: Option<string>)

  /** Validation of the repaired dictionary against the planner's output schema. */
  function Validate(d: map<string, PyValue>): Decision {
    if "needs_tool" !in d || "reasoning" !in d || !d["reasoning"].PyStr? then Invalid else
    var name := if "tool_name" in d then d["tool_name"] else PyNone;
    if !name.PyNone? && !name.PyStr? then Invalid else
    var toolName := if name.PyStr? then Some(name.s) else None;
    match d["needs_tool"]
    case PyBool(b) => Decision(b, toolName)
    case PyNumber(r) => if r == 0.0 || r == 1.0 then Decision(r == 1.0, toolName) else Invalid
    case _ => Invalid
  }

  function Decide(tools: set<string>, parsed: Parsed): Decision {
    if !parsed.ParsedDict? then Invalid else
    var d := Validate(FixUp(parsed.fields));
    if d.Decision? && d.needsTool && !(d.toolName.Some? && d.toolName.value in tools)
    then Decision(false, None) else d
  }

  function RunPlanner(cfg: Settings, s: AgentState, i: Input): NodeResult {
    if i.llm.LlmFailed? then Raise(i.llm.exn) else
    match Decide(cfg.tools, i.parsed)
    case Invalid => Raise(OtherError("planner output invalid"))
    case Decision(needsTool, toolName) =>
      var base := s.(promptTokens := s.promptTokens + i.llm.promptTokens,
                     completionTokens := s.completionTokens + i.llm.completionTokens);
      Update(
        if needsTool && toolName.Some? && toolName.value != ""
        then base.(needsTool := true, selectedTool := Some(ToolCall(toolName.value, map[])))
        else base.(needsTool := false))
  }

  /** Without a tool call in the reply the earlier selection stays in place. */
  function RunToolSelector(s: AgentState, i: Input): NodeResult {
    match i.llm
    case LlmFailed(exn) => Raise(exn)
    case Reply(content, calls, _, _) =>
      Update(if calls == [] then s.(needsTool := false, draft := content) else s.(selectedTool := Some(calls[0])))
  }

  function RunToolExecutor(s: AgentState, i: Input): NodeResult {
    if s.selectedTool.None? then Raise(OtherError("AssertionError")) else
    match i.tool
    case Raised(exn) => Raise(exn)
    case Returned(r) => Update(s.(toolResult := Some(r)))
  }

  function RunErrorHandler(s: AgentState): NodeResult {
    Update(
      if s.toolResult.Some? && !s.toolResult.value.success
      then s.(error := Some(RETRYABLE))
      else s.(error := Some(UNRECOVERABLE), draft := APOLOGY))
  }

  function RunRetryHandler(s: AgentState): NodeResult {
    Update(s.(retryCount := s.retryCount + 1))
  }

  /** A draft that is already there is passed through, even if it is only white space. */
  function RunResponseGenerator(s: AgentState, i: Input): NodeResult {
    if s.draft != "" then Update(s) else
    match i.llm
    case LlmFailed(exn) => Raise(exn)
    case Reply(content, _, promptTokens, completionTokens) =>
      Update(s.(draft := content,
                promptTokens := s.promptTokens + promptTokens,
                completionTokens := s.completionTokens + completionTokens))
  }

  predicate Blank(draft: string) {
    Text.Strip(draft) == ""
  }

  /** Counts no loops: `validation_loop_count` is read by the routing and written nowhere. */
  function RunValidator(s: AgentState): NodeResult {
    var e1 := if Blank(s.draft) then ["draft_response is empty"] else [];
    var e2 := if s.toolResult.Some? && !s.toolResult.value.success && s.draft == ""
              then ["tool failed and no fallback response was generated"] else [];
    Update(s.(validationErrors := e1 + e2))
  }

  /** A node wrapped by `traced_node`: on success its name is appended to the path. */
  function RunNode(cfg: Settings, n: Node, s: AgentState, i: Input): NodeResult {
    var r :=
      match n
      case ContentFilter => RunContentFilter(s, i)
      case Planner => RunPlanner(cfg, s, i)
      case ToolSelector => RunToolSelector(s, i)
      case ToolExecutor => RunToolExecutor(s, i)
      case ErrorHandler => RunErrorHandler(s)
      case RetryHandler => RunRetryHandler(s)
      case ResponseGenerator => RunResponseGenerator(s, i)
      case Validator => RunValidator(s);
    if r.Update? then Update(r.s.(nodePath := s.nodePath + [n])) else r
  }

  // ---------------------------------------------------------------------------
  // Routing
  // ---------------------------------------------------------------------------

  function RouteAfterExecutor(s: AgentState): Target {
    if s.toolResult.Some? && s.toolResult.value.success then To(ResponseGenerator) else To(ErrorHandler)
  }

  function Route(cfg: Settings, n: Node, s: AgentState): Target {
    match n
    case ContentFilter => if s.error == Some(FILTERED) then END else To(Planner)
    case Planner => if s.needsTool then To(ToolSelector) else To(ResponseGenerator)
    case ToolSelector => if s.selectedTool.Some? then To(ToolExecutor) else To(ResponseGenerator)
    case ToolExecutor => RouteAfterExecutor(s)
    case ErrorHandler =>
      if s.error == Some(RETRYABLE) && s.retryCount < cfg.maxRetries then To(RetryHandler) else To(ResponseGenerator)
    case RetryHandler => To(ToolExecutor)
    case ResponseGenerator => To(Validator)
    case Validator =>
      if s.validationErrors != [] && s.validationLoopCount < cfg.maxLoops then To(ToolSelector) else END
  }

  /** The edges declared when the graph is built. */
  const EDGES: set<(Node, Target)> := {
    (ContentFilter, To(Planner)), (ContentFilter, END),
    (Planner, To(ToolSelector)), (Planner, To(ResponseGenerator)),
    (ToolSelector, To(ToolExecutor)), (ToolSelector, To(ResponseGenerator)),
    (ToolExecutor, To(ResponseGenerator)), (ToolExecutor, To(ErrorHandler)),
    (ErrorHandler, To(RetryHandler)), (ErrorHandler, To(ResponseGenerator)),
    (RetryHandler, To(ToolExecutor)),
    (ResponseGenerator, To(Validator)),
    (Validator, To(ToolSelector)), (Validator, END)
  }

  // ---------------------------------------------------------------------------
  // Runs
  // ---------------------------------------------------------------------------

  /** Seconds the retry handler sleeps, given the retries already made. */
  function Backoff(retryCount: nat): real {
    var b := Pow2(retryCount) as real * 0.25;
    if b < 4.0 then b else 4.0
  }

  function Pow2(n: nat): (p: nat)
    ensures p >= 1
  {
    if n == 0 then 1 else 2 * Pow2(n - 1)
  }

  datatype Status = At(node: Node) | Ended | Aborted(node: Node, exn: Exn)

  /** A run so far: where it stands, the state, the nodes that completed, the seconds slept. */
  datatype Run = Run(status: Status, s: AgentState, visited: seq<Node>, slept: real)

  const START := Run(At(ContentFilter), INITIAL, [], 0.0)

  function Step(cfg: Settings, r: Run, i: Input): Run {
    if !r.status.At? then r else
    var n := r.status.node;
    match RunNode(cfg, n, r.s, i)
    case Raise(exn) => r.(status := Aborted(n, exn))
    case Update(s) =>
      var next := Route(cfg, n, s);
      Run(if next == END then Ended else At(next.node), s, r.visited + [n],
          r.slept + if n == RetryHandler && r.s.retryCount >= 0 then Backoff(r.s.retryCount) else 0.0)
  }

  function Steps(cfg: Settings, r: Run, inputs: seq<Input>): Run {
    if inputs == [] then r else Step(cfg, Steps(cfg, r, inputs[..|inputs| - 1]), inputs[|inputs| - 1])
  }
}
