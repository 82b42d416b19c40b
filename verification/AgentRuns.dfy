/**
 What every run of the agent graph keeps, how long it can be, what holds when it ends, and when it
 does not end.
 */
module AgentRuns {
  import opened Common
  import opened ToolCache
  import opened ToolExecutor
  import opened AgentGraph
  import opened Text
  import ToolPipeline

  function Count(n: Node, p: seq<Node>): nat {
    if p == [] then 0 else Count(n, p[..|p| - 1]) + if p[|p| - 1] == n then 1 else 0
  }

  lemma CountSnoc(n: Node, p: seq<Node>, m: Node)
    ensures Count(n, p + [m]) == Count(n, p) + if m == n then 1 else 0
  {
    assert (p + [m])[..|p|] == p;
  }

  // ---------------------------------------------------------------------------
  // Walks
  // ---------------------------------------------------------------------------

  /** A path through the graph from its entry point. */
  ghost predicate Walk(p: seq<Node>) {
    && p != [] && p[0] == ContentFilter
    && forall i, j :: 0 <= i && j == i + 1 < |p| ==> (p[i], To(p[j])) in EDGES
  }

  /** How far into a round between two validator visits a node comes, retries aside. */
  function Position(n: Node): int {
    match n
    case ContentFilter => -2
    case Planner => -1
    case ToolSelector => 0
    case ToolExecutor => 1
    case ErrorHandler => 2
    case RetryHandler => 3
    case ResponseGenerator => 3
    case Validator => 4
  }

  lemma WalkInit(p: seq<Node>)
    requires Walk(p) && |p| > 1
    ensures Walk(p[..|p| - 1])
    ensures (p[|p| - 2], To(p[|p| - 1])) in EDGES
  {
    var done := p[..|p| - 1];
    assert forall i :: 0 <= i < |done| ==> done[i] == p[i];
  }

  function One(b: bool): int {
    if b then 1 else 0
  }

  lemma EdgeAdvances(a: Node, b: Node)
    requires (a, To(b)) in EDGES
    ensures Position(a) + 1 <= 5 * One(a == Validator) + 3 * One(a == RetryHandler) + Position(b)
  {
  }

  /** Arriving at the last node of a walk takes two steps, five per validator visit, three per retry,
      and the position within the current round. */
  lemma {:induction false} WalkLength(p: seq<Node>)
    requires Walk(p)
    ensures var done := p[..|p| - 1];
            |done| <= 2 + 5 * Count(Validator, done) + 3 * Count(RetryHandler, done) + Position(p[|p| - 1])
    decreases |p|
  {
    if |p| > 1 {
      var done := p[..|p| - 1];
      WalkInit(p);
      WalkLength(done);
      assert done[|done| - 1] == p[|p| - 2];
      EdgeAdvances(p[|p| - 2], p[|p| - 1]);
    }
  }

  /** The same for a walk whose last node, a validator, has completed as well. */
  lemma FinishedWalkLength(p: seq<Node>)
    requires Walk(p) && p[|p| - 1] == Validator
    ensures |p| <= 2 + 5 * Count(Validator, p) + 3 * Count(RetryHandler, p)
  {
    WalkLength(p);
  }

  /** Steps of the walk from `a` straight to `b`. */
  function Moves(a: Node, b: Node, p: seq<Node>): nat {
    if |p| < 2 then 0
    else Moves(a, b, p[..|p| - 1]) + if p[|p| - 2] == a && p[|p| - 1] == b then 1 else 0
  }

  /** The executor is entered once for each selector that routes to it and once for each retry. */
  lemma {:induction false} ExecutorEntries(p: seq<Node>)
    requires Walk(p)
    ensures Count(ToolExecutor, p) == Moves(ToolSelector, ToolExecutor, p) + Count(RetryHandler, p[..|p| - 1])
    decreases |p|
  {
    if |p| > 1 {
      var done := p[..|p| - 1];
      WalkInit(p);
      ExecutorEntries(done);
      assert done[|done| - 1] == p[|p| - 2];
    } else {
      assert p == [ContentFilter] && p[..0] == [];
    }
  }

  // ---------------------------------------------------------------------------
  // The invariant of a run
  // ---------------------------------------------------------------------------

  /** The completed nodes and, unless the run has ended, the one it stands at or was aborted in. */
  function Entered(r: Run): seq<Node> {
    r.visited + if r.status.Ended? then [] else [r.status.node]
  }

  predicate FailedResult(s: AgentState) {
    s.toolResult.Some? && !s.toolResult.value.success
  }

  function TotalBackoff(retries: nat): real {
    if retries == 0 then 0.0 else TotalBackoff(retries - 1) + Backoff(retries - 1)
  }

  function Max0(n: int): nat {
    if n < 0 then 0 else n
  }

  /** The nodes rely on these when they are entered. */
  predicate Guarded(cfg: Settings, n: Node, s: AgentState) {
    match n
    case ContentFilter => s == INITIAL
    case ToolExecutor => s.selectedTool.Some?
    case ErrorHandler => s.selectedTool.Some? && FailedResult(s)
    case RetryHandler => s.selectedTool.Some? && FailedResult(s) && s.retryCount < cfg.maxRetries
    case _ => true
  }

  predicate Outcome(cfg: Settings, r: Run) {
    || (r.visited == [ContentFilter] && r.s.error == Some(FILTERED) && r.s.draft == REFUSAL)
    || (r.visited != [] && r.visited[|r.visited| - 1] == Validator && (cfg.maxLoops > 0 ==> !Blank(r.s.draft)))
  }

  /** What a run keeps whatever the loop counter says. */
  ghost predicate Core(cfg: Settings, r: Run) {
    && r.s.nodePath == r.visited
    && Walk(Entered(r))
    && 0 <= r.s.retryCount == Count(RetryHandler, r.visited) <= Max0(cfg.maxRetries)
    && r.slept == TotalBackoff(r.s.retryCount)
    && (r.status.At? ==> Guarded(cfg, r.status.node, r.s))
    && (r.status.At? && r.status.node == ContentFilter ==> r.visited == [])
    && (r.status.Ended? ==> r.visited == [ContentFilter] || r.visited[|r.visited| - 1] == Validator)
  }

  ghost predicate Inv(cfg: Settings, r: Run) {
    && Core(cfg, r)
    && r.s.validationLoopCount == 0
    && (r.status.Ended? ==> Outcome(cfg, r))
  }

  lemma RouteIsEdge(cfg: Settings, n: Node, s: AgentState)
    ensures (n, Route(cfg, n, s)) in EDGES
  {
  }

  lemma WalkSnoc(p: seq<Node>, n: Node)
    requires Walk(p) && (p[|p| - 1], To(n)) in EDGES
    ensures Walk(p + [n])
  {
  }

  lemma NodeKeeps(cfg: Settings, n: Node, s: AgentState, i: Input)
    requires Guarded(cfg, n, s) && RunNode(cfg, n, s, i).Update?
    ensures var s' := RunNode(cfg, n, s, i).s;
            && s'.nodePath == s.nodePath + [n]
            && s'.retryCount == s.retryCount + One(n == RetryHandler)
            && s'.validationLoopCount == s.validationLoopCount
            && (Route(cfg, n, s').To? ==>
                  Guarded(cfg, Route(cfg, n, s').node, s') && Route(cfg, n, s').node != ContentFilter)
  {
  }

  lemma NodeEnds(cfg: Settings, n: Node, s: AgentState, i: Input)
    requires Guarded(cfg, n, s)
    requires RunNode(cfg, n, s, i).Update? && Route(cfg, n, RunNode(cfg, n, s, i).s) == END
    ensures var s' := RunNode(cfg, n, s, i).s;
            || (n == ContentFilter && s'.error == Some(FILTERED) && s'.draft == REFUSAL)
            || (n == Validator && (s.validationLoopCount < cfg.maxLoops ==> !Blank(s'.draft)))
  {
  }

  /** All that one step of a run does as far as the invariant is concerned. */
  ghost predicate Follows(cfg: Settings, r: Run, r': Run)
    requires r.status.At? && r.s.retryCount >= 0
  {
    var n := r.status.node;
    if r'.status.Aborted? then n != Validator && r' == r.(status := Aborted(n, r'.status.exn)) else
    && r'.visited == r.visited + [n]
    && r'.s.nodePath == r.s.nodePath + [n]
    && r'.s.retryCount == r.s.retryCount + One(n == RetryHandler)
    && r'.slept == r.slept + (if n == RetryHandler then Backoff(r.s.retryCount) else 0.0)
    && r'.s.validationLoopCount == r.s.validationLoopCount
    && match r'.status
       case At(next) =>
         && (n, To(next)) in EDGES && next != ContentFilter
         && Guarded(cfg, next, r'.s)
         && (n == Validator ==> r.s.validationLoopCount < cfg.maxLoops)
       case _ =>
         || (n == ContentFilter && r'.s.error == Some(FILTERED) && r'.s.draft == REFUSAL)
         || (n == Validator && (r.s.validationLoopCount < cfg.maxLoops ==> !Blank(r'.s.draft)))
  }

  lemma StepFollows(cfg: Settings, r: Run, i: Input)
    requires r.status.At? && r.s.retryCount >= 0 && Guarded(cfg, r.status.node, r.s)
    ensures Follows(cfg, r, Step(cfg, r, i))
  {
    var n := r.status.node;
    if RunNode(cfg, n, r.s, i).Update? {
      var s' := RunNode(cfg, n, r.s, i).s;
      NodeKeeps(cfg, n, r.s, i);
      RouteIsEdge(cfg, n, s');
      if Route(cfg, n, s') == END {
        NodeEnds(cfg, n, r.s, i);
      }
    }
  }

  lemma WalkFollows(cfg: Settings, r: Run, r': Run)
    requires r.status.At? && r.s.retryCount >= 0 && Follows(cfg, r, r') && Walk(Entered(r))
    ensures Walk(Entered(r'))
  {
    match r'.status
    case At(next) => WalkSnoc(Entered(r), next);
    case Ended => assert Entered(r') == Entered(r);
    case Aborted(_, _) => assert Entered(r') == Entered(r);
  }

  lemma RetriesFollow(cfg: Settings, r: Run, r': Run)
    requires r.status.At? && r.s.retryCount >= 0 && Guarded(cfg, r.status.node, r.s) && Follows(cfg, r, r')
    requires r.s.retryCount == Count(RetryHandler, r.visited) <= Max0(cfg.maxRetries)
    requires r.slept == TotalBackoff(r.s.retryCount)
    ensures 0 <= r'.s.retryCount == Count(RetryHandler, r'.visited) <= Max0(cfg.maxRetries)
    ensures r'.slept == TotalBackoff(r'.s.retryCount)
  {
    CountSnoc(RetryHandler, r.visited, r.status.node);
  }

  lemma CoreFollows(cfg: Settings, r: Run, r': Run)
    requires Core(cfg, r) && r.status.At? && Follows(cfg, r, r')
    ensures Core(cfg, r')
  {
    assert Walk(Entered(r')) by {
      WalkFollows(cfg, r, r');
    }
    RetriesFollow(cfg, r, r');
    if r'.status.Ended? {
      assert r'.visited == r.visited + [r.status.node];
    }
  }

  lemma InvStep(cfg: Settings, r: Run, i: Input)
    requires Inv(cfg, r)
    ensures Inv(cfg, Step(cfg, r, i))
  {
    if r.status.At? {
      StepFollows(cfg, r, i);
      CoreFollows(cfg, r, Step(cfg, r, i));
    }
  }

  /** From the entry point, under any answers: `node_path` is the sequence of completed nodes and a
      walk through the graph, `retry_count` counts the retry handler and never passes `max_retries`
      however many validation loops there are, every node finds what it relies on, the loop counter
      stays zero, and a run that ends was refused at once or, if loops are allowed at all, has a
      draft that is not blank. */
  lemma {:induction false} RunInvariant(cfg: Settings, inputs: seq<Input>)
    ensures Inv(cfg, Steps(cfg, START, inputs))
  {
    if inputs == [] {
      assert Entered(START) == [ContentFilter];
    } else {
      RunInvariant(cfg, inputs[..|inputs| - 1]);
      InvStep(cfg, Steps(cfg, START, inputs[..|inputs| - 1]), inputs[|inputs| - 1]);
    }
  }

  /** In a run the executor's assertion never fires, and the unrecoverable branch of the error handler
      is never taken: the executor raises only what the tool raises, and the error handler always
      reports `retryable` and leaves the draft alone. */
  lemma DeadBranches(cfg: Settings, inputs: seq<Input>, i: Input)
    ensures var r := Steps(cfg, START, inputs);
            && (r.status == At(ToolExecutor) ==> (RunToolExecutor(r.s, i).Raise? <==> i.tool.Raised?))
            && (r.status == At(ErrorHandler) ==>
                  RunErrorHandler(r.s).s.error == Some(RETRYABLE) && RunErrorHandler(r.s).s.draft == r.s.draft)
  {
    RunInvariant(cfg, inputs);
  }

  // ---------------------------------------------------------------------------
  // Length
  // ---------------------------------------------------------------------------

  /** A run that is not over has made a validator visit at least every 5 steps, retries aside; one that
      ended after V validator visits took at most 2 + 5 V + 3 max_retries steps. */
  lemma RunLength(cfg: Settings, inputs: seq<Input>)
    ensures var r := Steps(cfg, START, inputs);
            var visits := Count(Validator, r.visited);
            && |r.visited| <= 6 + 5 * visits + 3 * Max0(cfg.maxRetries)
            && (r.status.Ended? ==> |r.visited| <= 2 + 5 * visits + 3 * Max0(cfg.maxRetries))
            && (r.status.At? ==> |r.visited| == |inputs|)
  {
    StepsCompleted(cfg, inputs);
    RunInvariant(cfg, inputs);
    var r := Steps(cfg, START, inputs);
    if r.status.Ended? {
      EndedLength(cfg, r);
    } else {
      UnfinishedLength(cfg, r);
    }
  }

  lemma UnfinishedLength(cfg: Settings, r: Run)
    requires Core(cfg, r) && !r.status.Ended?
    ensures |r.visited| <= 6 + 5 * Count(Validator, r.visited) + 3 * Max0(cfg.maxRetries)
  {
    var p := Entered(r);
    assert p[..|p| - 1] == r.visited;
    WalkLength(p);
    assert Position(p[|p| - 1]) <= 4;
  }

  lemma EndedLength(cfg: Settings, r: Run)
    requires Core(cfg, r) && r.status.Ended?
    ensures |r.visited| <= 2 + 5 * Count(Validator, r.visited) + 3 * Max0(cfg.maxRetries)
  {
    assert Entered(r) == r.visited;
    if r.visited != [ContentFilter] {
      FinishedWalkLength(r.visited);
    }
  }

  lemma {:induction false} StepsCompleted(cfg: Settings, inputs: seq<Input>)
    ensures var r := Steps(cfg, START, inputs);
            |r.visited| <= |inputs| && (r.status.At? ==> |r.visited| == |inputs|)
  {
    if inputs != [] {
      StepsCompleted(cfg, inputs[..|inputs| - 1]);
    }
  }

  /** In every run the tool executor is entered once for each selector step that routes to it and once
      for each retry counted. */
  lemma ExecutorEntriesOfRun(cfg: Settings, inputs: seq<Input>)
    ensures var r := Steps(cfg, START, inputs);
            Count(ToolExecutor, Entered(r)) == Moves(ToolSelector, ToolExecutor, Entered(r)) + r.s.retryCount
  {
    var r := Steps(cfg, START, inputs);
    RunInvariant(cfg, inputs);
    var p := Entered(r);
    ExecutorEntries(p);
    if r.status.Ended? {
      var done := p[..|p| - 1];
      assert p == r.visited == done + [p[|p| - 1]];
      CountSnoc(RetryHandler, done, p[|p| - 1]);
    } else {
      assert p[..|p| - 1] == r.visited;
    }
  }

  // ---------------------------------------------------------------------------
  // Ledger
  // ---------------------------------------------------------------------------

  /** The tokens a step adds: those of a planner reply the planner accepts, and of a response generator
      reply asked for because there was no draft. Selector replies are not counted. */
  function Charged(cfg: Settings, r: Run, i: Input): (int, int) {
    if r.status.At? && i.llm.Reply?
       && ((r.status.node == Planner && Decide(cfg.tools, i.parsed).Decision?)
           || (r.status.node == ResponseGenerator && r.s.draft == ""))
    then (i.llm.promptTokens, i.llm.completionTokens) else (0, 0)
  }

  function Ledger(cfg: Settings, inputs: seq<Input>): (int, int) {
    if inputs == [] then (0, 0) else
    var past := inputs[..|inputs| - 1];
    var (p, c) := Ledger(cfg, past);
    var (dp, dc) := Charged(cfg, Steps(cfg, START, past), inputs[|inputs| - 1]);
    (p + dp, c + dc)
  }

  lemma TokensStep(cfg: Settings, r: Run, i: Input)
    ensures var s' := Step(cfg, r, i).s;
            && s'.promptTokens == r.s.promptTokens + Charged(cfg, r, i).0
            && s'.completionTokens == r.s.completionTokens + Charged(cfg, r, i).1
  {
    if r.status.At? {
      match r.status.node
      case Planner =>
      case ResponseGenerator =>
      case _ =>
    }
  }

  /** Final token counts are the sum over exactly those replies. */
  lemma {:induction false} TokensBalance(cfg: Settings, inputs: seq<Input>)
    ensures var s := Steps(cfg, START, inputs).s;
            s.promptTokens == Ledger(cfg, inputs).0 && s.completionTokens == Ledger(cfg, inputs).1
  {
    if inputs != [] {
      TokensBalance(cfg, inputs[..|inputs| - 1]);
      TokensStep(cfg, Steps(cfg, START, inputs[..|inputs| - 1]), inputs[|inputs| - 1]);
    }
  }

  /** The total back-off of `k` retries, in closed form. */
  lemma {:induction false} BackoffTotal(k: nat)
    ensures TotalBackoff(k) == if k <= 5 then (Pow2(k) - 1) as real / 4.0 else 31.0 / 4.0 + 4.0 * (k - 5) as real
  {
    if k > 0 {
      BackoffTotal(k - 1);
      if k <= 5 {
        assert Pow2(k) == 2 * Pow2(k - 1);
        SmallPowers();
      } else {
        SmallPowers();
        Pow2AtLeast16(k - 1);
      }
    }
  }

  lemma SmallPowers()
    ensures Pow2(0) == 1 && Pow2(1) == 2 && Pow2(2) == 4 && Pow2(3) == 8 && Pow2(4) == 16 && Pow2(5) == 32
  {
    assert Pow2(2) == 2 * Pow2(1);
    assert Pow2(3) == 2 * Pow2(2);
    assert Pow2(4) == 2 * Pow2(3);
    assert Pow2(5) == 2 * Pow2(4);
  }

  lemma {:induction false} Pow2AtLeast16(n: nat)
    requires n >= 4
    ensures Pow2(n) >= 16
  {
    if n == 4 {
      SmallPowers();
    } else {
      Pow2AtLeast16(n - 1);
    }
  }

  /** A run sleeps for exactly the back-off of its retries. */
  lemma RunBackoff(cfg: Settings, inputs: seq<Input>)
    ensures var r := Steps(cfg, START, inputs);
            var k := r.s.retryCount;
            r.slept == if k <= 5 then (Pow2(Max0(k)) - 1) as real / 4.0 else 31.0 / 4.0 + 4.0 * (k - 5) as real
  {
    RunInvariant(cfg, inputs);
    BackoffTotal(Steps(cfg, START, inputs).s.retryCount);
  }

  // ---------------------------------------------------------------------------
  // Runs that do not end
  // ---------------------------------------------------------------------------

  /** A round between validator visits with a draft that is white space but not empty. */
  predicate Stuck(r: Run) {
    r.status.At? ==>
      && r.status.node != ContentFilter && r.status.node != Planner
      && r.s.draft != "" && Blank(r.s.draft)
      && r.s.validationLoopCount == 0
      && (r.status.node == ErrorHandler ==> FailedResult(r.s))
  }

  /** Every reply that carries anything carries a tool call. */
  ghost predicate AlwaysCalls(inputs: seq<Input>) {
    forall i <- inputs :: i.llm.Reply? ==> i.llm.calls != []
  }

  lemma StuckStep(cfg: Settings, r: Run, i: Input)
    requires cfg.maxLoops > 0 && !r.status.Ended? && Stuck(r) && (i.llm.Reply? ==> i.llm.calls != [])
    ensures !Step(cfg, r, i).status.Ended? && Stuck(Step(cfg, r, i))
  {
  }

  /** Such a draft is passed through and fails validation again, so as long as the selector keeps
      calling tools the run never ends (a tool that raises can still abort it). */
  lemma {:induction false} StuckNeverEnds(cfg: Settings, r: Run, inputs: seq<Input>)
    requires cfg.maxLoops > 0 && r.status.At? && Stuck(r) && AlwaysCalls(inputs)
    ensures !Steps(cfg, r, inputs).status.Ended? && Stuck(Steps(cfg, r, inputs))
  {
    if inputs != [] {
      StuckNeverEnds(cfg, r, inputs[..|inputs| - 1]);
      assert inputs[|inputs| - 1] in inputs;
      StuckStep(cfg, Steps(cfg, r, inputs[..|inputs| - 1]), inputs[|inputs| - 1]);
    }
  }

  /** One selector call, a tool that succeeds, the draft passed through, and validation again. */
  function Round(): Input {
    Input(false, NotJson, Reply(" ", [ToolCall("t", map[])], 0, 0),
          Returned(ToolResult("t", true, None, None)))
  }

  /** At the selector after a failed validation, with a draft of one space. */
  predicate Circling(r: Run) {
    r.status == At(ToolSelector) && r.s.draft == " " && r.s.validationLoopCount == 0
  }

  lemma StepsSnoc(cfg: Settings, r: Run, inputs: seq<Input>, i: Input)
    ensures Steps(cfg, r, inputs + [i]) == Step(cfg, Steps(cfg, r, inputs), i)
  {
    assert (inputs + [i])[..|inputs|] == inputs;
  }

  function Four(cfg: Settings, r: Run, a: Input, b: Input, c: Input, d: Input): Run {
    Step(cfg, Step(cfg, Step(cfg, Step(cfg, r, a), b), c), d)
  }

  lemma FourSteps(cfg: Settings, inputs: seq<Input>, a: Input, b: Input, c: Input, d: Input)
    ensures Steps(cfg, START, inputs + [a] + [b] + [c] + [d]) == Four(cfg, Steps(cfg, START, inputs), a, b, c, d)
  {
    StepsSnoc(cfg, START, inputs, a);
    StepsSnoc(cfg, START, inputs + [a], b);
    StepsSnoc(cfg, START, inputs + [a] + [b], c);
    StepsSnoc(cfg, START, inputs + [a] + [b] + [c], d);
  }

  lemma RoundTrip(cfg: Settings, r: Run)
    requires cfg.maxLoops > 0 && Circling(r)
    ensures var i := Round();
            var r' := Four(cfg, r, i, i, i, i);
            Circling(r') && Count(Validator, r'.visited) == Count(Validator, r.visited) + 1
  {
    var i := Round();
    var v := r.visited;
    var r1 := Step(cfg, r, i);
    assert r1.status == At(ToolExecutor) && r1.s.draft == " " && r1.s.validationLoopCount == 0;
    var r2 := Step(cfg, r1, i);
    assert r2.status == At(ResponseGenerator) && r2.s.draft == " " && r2.s.validationLoopCount == 0;
    var r3 := Step(cfg, r2, i);
    assert r3.status == At(Validator) && r3.s.draft == " " && r3.s.validationLoopCount == 0;
    assert Circling(Step(cfg, r3, i));
    assert Four(cfg, r, i, i, i, i).visited == v + [ToolSelector] + [ToolExecutor] + [ResponseGenerator] + [Validator];
    CountSnoc(Validator, v, ToolSelector);
    CountSnoc(Validator, v + [ToolSelector], ToolExecutor);
    CountSnoc(Validator, v + [ToolSelector] + [ToolExecutor], ResponseGenerator);
    CountSnoc(Validator, v + [ToolSelector] + [ToolExecutor] + [ResponseGenerator], Validator);
  }

  /** The planner wants no tool and the answer is a single space. */
  lemma FirstRound(cfg: Settings) returns (inputs: seq<Input>)
    requires cfg.maxLoops > 0
    ensures Circling(Steps(cfg, START, inputs))
  {
    var i := Round();
    var plan := Input(false, ParsedDict(map["needs_tool" := PyBool(false)]), i.llm, i.tool);
    FourSteps(cfg, [], i, plan, i, i);
    inputs := [] + [i] + [plan] + [i] + [i];
    OneSpace(cfg, i, plan);
  }

  lemma OneSpace(cfg: Settings, i: Input, plan: Input)
    requires cfg.maxLoops > 0 && i == Round()
    requires plan == Input(false, ParsedDict(map["needs_tool" := PyBool(false)]), i.llm, i.tool)
    ensures Circling(Four(cfg, START, i, plan, i, i))
  {
    var r1 := Step(cfg, START, i);
    assert r1.status == At(Planner) && r1.s.draft == "" && r1.s.validationLoopCount == 0;
    assert Decide(cfg.tools, plan.parsed) == Decision(false, None);
    var r2 := Step(cfg, r1, plan);
    assert r2.status == At(ResponseGenerator) && r2.s.draft == "" && r2.s.validationLoopCount == 0;
    var r3 := Step(cfg, r2, i);
    assert r3.status == At(Validator) && r3.s.draft == " " && r3.s.validationLoopCount == 0;
  }

  /** Rounds can go on for any number of validator visits. */
  lemma {:induction false} Diverges(cfg: Settings, visits: nat) returns (inputs: seq<Input>)
    requires cfg.maxLoops > 0
    ensures Circling(Steps(cfg, START, inputs))
    ensures Count(Validator, Steps(cfg, START, inputs).visited) >= visits
  {
    if visits == 0 {
      inputs := FirstRound(cfg);
    } else {
      var i := Round();
      var before := Diverges(cfg, visits - 1);
      RoundTrip(cfg, Steps(cfg, START, before));
      FourSteps(cfg, before, i, i, i, i);
      inputs := before + [i] + [i] + [i] + [i];
    }
  }

  /** No run visits the validator more than `bound` times. */
  ghost predicate VisitsBounded(cfg: Settings, bound: nat) {
    forall inputs :: Count(Validator, Steps(cfg, START, inputs).visited) <= bound
  }

  /** The validator is not visited before the run is over. */
  predicate VisitsOnce(r: Run) {
    && r.s.validationLoopCount == 0
    && Count(Validator, r.visited) <= if r.status.At? then 0 else 1
  }

  lemma OneVisitStep(cfg: Settings, r: Run, i: Input)
    requires cfg.maxLoops <= 0 && VisitsOnce(r)
    ensures VisitsOnce(Step(cfg, r, i))
  {
    if r.status.At? {
      CountSnoc(Validator, r.visited, r.status.node);
    }
  }

  lemma {:induction false} OneVisit(cfg: Settings, inputs: seq<Input>)
    requires cfg.maxLoops <= 0
    ensures VisitsOnce(Steps(cfg, START, inputs))
  {
    if inputs != [] {
      OneVisit(cfg, inputs[..|inputs| - 1]);
      OneVisitStep(cfg, Steps(cfg, START, inputs[..|inputs| - 1]), inputs[|inputs| - 1]);
    }
  }

  /** Since nothing increments the loop counter, `max_validation_loops` bounds the validation loops of
      every run exactly when it forbids them altogether. */
  lemma LoopsBoundedIffForbidden(cfg: Settings)
    ensures (exists bound: nat :: VisitsBounded(cfg, bound)) <==> cfg.maxLoops <= 0
  {
    if cfg.maxLoops <= 0 {
      forall inputs
        ensures Count(Validator, Steps(cfg, START, inputs).visited) <= 1
      {
        OneVisit(cfg, inputs);
      }
      assert VisitsBounded(cfg, 1);
    } else {
      forall bound: nat
        ensures !VisitsBounded(cfg, bound)
      {
        var inputs := Diverges(cfg, bound + 1);
        assert Count(Validator, Steps(cfg, START, inputs).visited) > bound;
      }
    }
  }

  // ---------------------------------------------------------------------------
  // If the validator counted its loops
  // ---------------------------------------------------------------------------

  function LoopCounted(r: Run): Run {
    r.(s := r.s.(validationLoopCount := r.s.validationLoopCount + One(r.status == At(Validator))))
  }

  /** The step of a graph whose validator adds one to the loop counter. */
  function CountingStep(cfg: Settings, r: Run, i: Input): Run {
    Step(cfg, LoopCounted(r), i)
  }

  function CountingSteps(cfg: Settings, inputs: seq<Input>): Run {
    if inputs == [] then START
    else CountingStep(cfg, CountingSteps(cfg, inputs[..|inputs| - 1]), inputs[|inputs| - 1])
  }

  function MaxVisits(cfg: Settings): nat {
    if cfg.maxLoops < 1 then 1 else cfg.maxLoops
  }

  ghost predicate CountingInv(cfg: Settings, r: Run) {
    && Core(cfg, r)
    && r.s.validationLoopCount == Count(Validator, r.visited) <= MaxVisits(cfg)
    && (!r.status.Ended? ==> r.s.validationLoopCount < MaxVisits(cfg))
  }

  lemma CountingFollows(cfg: Settings, r: Run, r': Run)
    requires Core(cfg, r) && r.status.At? && Follows(cfg, r, r')
    requires r.s.validationLoopCount == Count(Validator, r.visited) + One(r.status.node == Validator) <= MaxVisits(cfg)
    requires r.status.node != Validator ==> r.s.validationLoopCount < MaxVisits(cfg)
    ensures CountingInv(cfg, r')
  {
    CoreFollows(cfg, r, r');
    CountSnoc(Validator, r.visited, r.status.node);
  }

  lemma LoopCountedKeepsCore(cfg: Settings, r: Run)
    requires Core(cfg, r)
    ensures Core(cfg, LoopCounted(r))
  {
    assert Entered(LoopCounted(r)) == Entered(r);
  }

  lemma CountingInvStep(cfg: Settings, r: Run, i: Input)
    requires CountingInv(cfg, r)
    ensures CountingInv(cfg, CountingStep(cfg, r, i))
    ensures CountingStep(cfg, r, i).status.At? ==> r.status.At? && |CountingStep(cfg, r, i).visited| == |r.visited| + 1
  {
    if r.status.At? {
      var from := LoopCounted(r);
      LoopCountedKeepsCore(cfg, r);
      StepFollows(cfg, from, i);
      CountingFollows(cfg, from, Step(cfg, from, i));
    }
  }

  lemma {:induction false} CountingInvariant(cfg: Settings, inputs: seq<Input>)
    ensures CountingInv(cfg, CountingSteps(cfg, inputs))
    ensures CountingSteps(cfg, inputs).status.At? ==> |CountingSteps(cfg, inputs).visited| == |inputs|
  {
    if inputs == [] {
      assert Entered(START) == [ContentFilter];
    } else {
      CountingInvariant(cfg, inputs[..|inputs| - 1]);
      CountingInvStep(cfg, CountingSteps(cfg, inputs[..|inputs| - 1]), inputs[|inputs| - 1]);
    }
  }

  /** That is all that is missing: with the counter written, every run visits the validator at most
      max(1, max_validation_loops) times and is over after a fixed number of steps. */
  lemma CountingWouldBound(cfg: Settings, inputs: seq<Input>)
    ensures var r := CountingSteps(cfg, inputs);
            var longest := 2 + 5 * MaxVisits(cfg) + 3 * Max0(cfg.maxRetries);
            && Count(Validator, r.visited) <= MaxVisits(cfg)
            && |r.visited| <= longest
            && (|inputs| > longest ==> !r.status.At?)
  {
    CountingInvariant(cfg, inputs);
    var r := CountingSteps(cfg, inputs);
    if r.status.Ended? {
      EndedLength(cfg, r);
    } else {
      UnfinishedLength(cfg, r);
    }
  }

  // ---------------------------------------------------------------------------
  // The planner's choice
  // ---------------------------------------------------------------------------

  ghost predicate SpellsTrue(s: string) {
    |s| == 4 && forall m :: 0 <= m < 4 ==> SameLetter(s[m], "true"[m])
  }

  lemma TrueMeaning(s: string)
    ensures SpellsTrue(s) <==> Lower(s) == "true"
  {
    if |s| == 4 {
      forall m | 0 <= m < 4
        ensures Lower(s)[m] == "true"[m] <==> SameLetter(s[m], "true"[m])
      {
        LowerMeaning(s, m, "true"[m]);
      }
    }
  }

  /** What the planner's JSON says of needing a tool: a truth value, the number one or zero, or a text, which
      stands for true if it spells "true" in any case and for false otherwise. */
  ghost function Wish(f: map<string, PyValue>): Option<bool> {
    if "needs_tool" !in f then None else
    match f["needs_tool"]
    case PyBool(b) => Some(b)
    case PyNumber(r) => if r == 1.0 then Some(true) else if r == 0.0 then Some(false) else None
    case PyStr(s) => Some(SpellsTrue(s))
    case _ => None
  }

  /** The tool it names: none, or a text other than five that stand for none. */
  ghost function NamedTool(f: map<string, PyValue>): Option<string> {
    if "tool_name" in f && f["tool_name"].PyStr? && f["tool_name"].s !in ["none", "null", "None", "Null", ""]
    then Some(f["tool_name"].s) else None
  }

  ghost predicate Readable(f: map<string, PyValue>) {
    && Wish(f).Some?
    && ("tool_name" in f ==> f["tool_name"].PyStr? || f["tool_name"].PyNone?)
    && ("reasoning" in f ==> f["reasoning"].PyStr?)
  }

  /** The JSON asks for a tool and names one of these. */
  ghost predicate AsksFor(tools: set<string>, f: map<string, PyValue>, tool: string) {
    Readable(f) && Wish(f) == Some(true) && NamedTool(f) == Some(tool) && tool in tools
  }

  lemma DecisionByFields(tools: set<string>, f: map<string, PyValue>)
    ensures Decide(tools, ParsedDict(f)).Decision? <==> Readable(f)
    ensures Readable(f) && Wish(f) == Some(true) ==>
              Decide(tools, ParsedDict(f)) == (if NamedTool(f).Some? && NamedTool(f).value in tools
                                               then Decision(true, NamedTool(f)) else Decision(false, None))
    ensures Readable(f) && Wish(f) == Some(false) ==> Decide(tools, ParsedDict(f)) == Decision(false, NamedTool(f))
  {
    if "needs_tool" in f && f["needs_tool"].PyStr? {
      TrueMeaning(f["needs_tool"].s);
    }
  }

  /** The planner goes on exactly if it can read the JSON. It asks for a tool exactly when the JSON does and names a
      registered one, and then selects that tool without arguments; otherwise the selection stays. */
  lemma PlannerSelectsRegistered(cfg: Settings, s: AgentState, i: Input)
    requires i.llm.Reply? && i.parsed.ParsedDict?
    ensures RunPlanner(cfg, s, i).Update? <==> Readable(i.parsed.fields)
    ensures RunPlanner(cfg, s, i).Update? ==>
              var s', f := RunPlanner(cfg, s, i).s, i.parsed.fields;
              && (s'.needsTool <==> exists tool :: AsksFor(cfg.tools, f, tool))
              && (s'.needsTool ==> NamedTool(f).Some? && AsksFor(cfg.tools, f, NamedTool(f).value)
                                   && s'.selectedTool == Some(ToolCall(NamedTool(f).value, map[])))
              && (!s'.needsTool ==> s'.selectedTool == s.selectedTool)
  {
    var f := i.parsed.fields;
    DecisionByFields(cfg.tools, f);
    if Readable(f) && RunPlanner(cfg, s, i).s.needsTool {
      assert AsksFor(cfg.tools, f, NamedTool(f).value);
    }
  }

  /** Once the planner has chosen a tool the selector cannot decline: if its reply carries no call, the
      run still goes to the executor, with the planner's tool and no arguments at all. */
  lemma DeclinedCallStillRuns(cfg: Settings, i0: Input, i1: Input, i2: Input)
    requires Step(cfg, Step(cfg, START, i0), i1).status == At(ToolSelector)
    requires i2.llm.Reply? && i2.llm.calls == []
    ensures var r := Step(cfg, Step(cfg, Step(cfg, START, i0), i1), i2);
            && r.status == At(ToolExecutor)
            && r.s.selectedTool.Some?
            && r.s.selectedTool.value.tool in cfg.tools
            && r.s.selectedTool.value.arguments == map[]
  {
    var r1 := Step(cfg, START, i0);
    assert r1.status == At(Planner) && RunPlanner(cfg, r1.s, i1).Update?;
    assert i1.llm.Reply? && i1.parsed.ParsedDict?;
    PlannerSelectsRegistered(cfg, r1.s, i1);
  }

  // ---------------------------------------------------------------------------
  // Cache hits
  // ---------------------------------------------------------------------------

  /** Whatever a cache hit of the shared pipeline returns is routed straight to the response generator. */
  lemma HitGoesToResponse(cfg: ToolExecutor.Config, actions: seq<ToolPipeline.Action>, i: nat, s: AgentState)
    requires var p := ToolPipeline.Run(cfg, actions); ToolPipeline.At(p, i) && p.executions[i].stage.Hit?
    ensures RouteAfterExecutor(s.(toolResult := Some(ToolPipeline.Run(cfg, actions).executions[i].stage.result)))
            == To(ResponseGenerator)
  {
    ToolPipeline.CacheStaysSound(cfg, actions, i);
  }
}
