/**
 How whole runs of the agent graph end, from the message to the answer, for the main courses they take.
 */
module AgentOutcomes {
  import opened Common
  import opened ToolCache
  import opened ToolExecutor
  import opened AgentGraph
  import opened AgentRuns
  import opened Text

  // ---------------------------------------------------------------------------
  // Runs in pieces
  // ---------------------------------------------------------------------------

  lemma {:induction false} StepsAppend(cfg: Settings, r: Run, a: seq<Input>, b: seq<Input>)
    ensures Steps(cfg, r, a + b) == Steps(cfg, Steps(cfg, r, a), b)
  {
    if b == [] {
      assert a + b == a;
    } else {
      assert (a + b)[..|a + b| - 1] == a + b[..|b| - 1];
      StepsAppend(cfg, r, a, b[..|b| - 1]);
    }
  }

  lemma Two(cfg: Settings, r: Run, a: Input, b: Input)
    ensures Steps(cfg, r, [a, b]) == Step(cfg, Step(cfg, r, a), b)
  {
    assert [a, b][..1] == [a] && [a][..0] == [];
    assert Steps(cfg, r, [a]) == Step(cfg, r, a);
  }

  lemma Three(cfg: Settings, r: Run, a: Input, b: Input, c: Input)
    ensures Steps(cfg, r, [a, b, c]) == Step(cfg, Step(cfg, Step(cfg, r, a), b), c)
  {
    assert [a, b, c][..2] == [a, b];
    Two(cfg, r, a, b);
  }

  // ---------------------------------------------------------------------------
  // The validator
  // ---------------------------------------------------------------------------

  /** The text holds a character that is not white space. */
  ghost predicate Says(text: string) {
    exists p :: 0 <= p < |text| && !IsSpace(text[p])
  }

  lemma SaysMeaning(text: string)
    ensures Says(text) <==> !Blank(text)
  {
    StripToNothing(text);
  }

  /** At the validator a run ends exactly if the draft says something or the loops are used up; otherwise it
      goes back to the selector. The draft is left alone either way. */
  lemma ValidatorEnds(cfg: Settings, r: Run, i: Input)
    requires r.status == At(Validator)
    ensures var r' := Step(cfg, r, i);
            && r'.status == (if Says(r.s.draft) || r.s.validationLoopCount >= cfg.maxLoops then Ended
                             else At(ToolSelector))
            && r'.s.draft == r.s.draft && r'.s.selectedTool == r.s.selectedTool
            && r'.s.toolResult == r.s.toolResult && r'.s.retryCount == r.s.retryCount
            && r'.s.validationLoopCount == r.s.validationLoopCount
            && r'.visited == r.visited + [Validator]
            && r'.s.validationErrors
               == (if Says(r.s.draft) then [] else ["draft_response is empty"])
                  + (if r.s.draft == "" && FailedResult(r.s)
                     then ["tool failed and no fallback response was generated"] else [])
            && r'.s.error == r.s.error
  {
    SaysMeaning(r.s.draft);
    if r.s.draft == "" {
      assert !Says(r.s.draft);
    }
  }

  // ---------------------------------------------------------------------------
  // Pieces of a run
  // ---------------------------------------------------------------------------

  /** The message passes the filter and the planner reads its JSON. */
  predicate Plans(i0: Input, i1: Input) {
    !i0.flagged && i1.llm.Reply? && i1.parsed.ParsedDict?
  }

  lemma Planned(cfg: Settings, i0: Input, i1: Input)
    requires Plans(i0, i1) && Readable(i1.parsed.fields)
    ensures var r, f := Steps(cfg, START, [i0, i1]), i1.parsed.fields;
            var asks := exists tool :: AsksFor(cfg.tools, f, tool);
            && r.status == At(if asks then ToolSelector else ResponseGenerator)
            && r.visited == [ContentFilter, Planner]
            && r.s.draft == "" && r.s.toolResult == None && r.s.retryCount == 0 && r.s.validationLoopCount == 0
            && (asks ==> NamedTool(f).Some? && r.s.selectedTool == Some(ToolCall(NamedTool(f).value, map[])))
            && (!asks ==> r.s.selectedTool == None)
            && r.s.error == None && r.s.needsTool == asks
  {
    Two(cfg, START, i0, i1);
    var r1 := Step(cfg, START, i0);
    assert r1.status == At(Planner) && r1.visited == [ContentFilter];
    PlannerSelectsRegistered(cfg, r1.s, i1);
  }

  /** The response generator and the validator. */
  lemma Responds(cfg: Settings, r: Run, i: Input, j: Input)
    requires r.status == At(ResponseGenerator) && (r.s.draft == "" ==> i.llm.Reply?)
    ensures var r', draft := Steps(cfg, r, [i, j]), if r.s.draft == "" then i.llm.content else r.s.draft;
            && r'.status == (if Says(draft) || r.s.validationLoopCount >= cfg.maxLoops then Ended else At(ToolSelector))
            && r'.visited == r.visited + [ResponseGenerator, Validator]
            && r'.s.draft == draft && r'.s.toolResult == r.s.toolResult && r'.s.selectedTool == r.s.selectedTool
            && r'.s.retryCount == r.s.retryCount && r'.s.validationLoopCount == r.s.validationLoopCount
            && r'.s.error == r.s.error && (Says(draft) ==> r'.s.validationErrors == [])
  {
    Two(cfg, r, i, j);
    ValidatorEnds(cfg, Step(cfg, r, i), j);
  }

  /** The selector: its first call, if it makes one. */
  lemma Selects(cfg: Settings, r: Run, i: Input)
    requires r.status == At(ToolSelector) && i.llm.Reply?
    ensures var r' := Step(cfg, r, i);
            && r'.visited == r.visited + [ToolSelector]
            && r'.s.toolResult == r.s.toolResult && r'.s.retryCount == r.s.retryCount
            && r'.s.validationLoopCount == r.s.validationLoopCount && r'.s.error == r.s.error
            && r'.s.needsTool == (r.s.needsTool && i.llm.calls != [])
            && (i.llm.calls != [] ==> r'.s.selectedTool == Some(i.llm.calls[0]) && r'.s.draft == r.s.draft)
            && (i.llm.calls == [] ==> r'.s.selectedTool == r.s.selectedTool && r'.s.draft == i.llm.content)
            && r'.status == At(if r'.s.selectedTool.Some? then ToolExecutor else ResponseGenerator)
  {
  }

  /** One execution that returns: a success goes to the response generator, a failure to the error handler, which
      leaves the draft alone. */
  lemma Executes(cfg: Settings, r: Run, i: Input)
    requires r.status == At(ToolExecutor) && r.s.selectedTool.Some? && i.tool.Returned?
    ensures var r' := Step(cfg, r, i);
            && r'.status == At(if i.tool.value.success then ResponseGenerator else ErrorHandler)
            && r'.visited == r.visited + [ToolExecutor] && r'.s.toolResult == Some(i.tool.value)
            && r'.s.draft == r.s.draft && r'.s.selectedTool == r.s.selectedTool && r'.s.retryCount == r.s.retryCount
            && r'.s.validationLoopCount == r.s.validationLoopCount
  {
  }

  /** A tool whose payload reports a failure leaves the cache as it was and takes its run to the error handler; one
      that reports success takes it to the response generator. */
  lemma PayloadDecides(cfg: Settings, r: Run, i: Input, config: ToolExecutor.Config, s: Stores, call: ToolCall,
                       coro: Outcome<Payload>, c: Clocks, m: nat)
    requires r.status == At(ToolExecutor) && r.s.selectedTool == Some(call) && coro.Returned?
    requires ExecuteEffect(config, s, call, coro, c, m).2 && i.tool == ExecuteEffect(config, s, call, coro, c, m).1
    ensures Step(cfg, r, i).status == At(if coro.value.success then ResponseGenerator else ErrorHandler)
    ensures !coro.value.success ==> ExecuteEffect(config, s, call, coro, c, m).0.entries == s.entries
  {
    ResultByFields(config, s, call, coro, c, m);
    StoredByFields(config, s, call, coro, c, m);
  }

  // ---------------------------------------------------------------------------
  // Whole runs
  // ---------------------------------------------------------------------------

  /** A flagged message ends the run at once with the refusal. */
  lemma FlaggedIsRefused(cfg: Settings, i0: Input)
    requires i0.flagged
    ensures var r := Steps(cfg, START, [i0]);
            && r.status == Ended && r.visited == [ContentFilter] && r.s.draft == REFUSAL
            && r.s.error == Some("content_filter_triggered")
  {
    assert [i0][..0] == [];
  }

  /** A message that needs no tool: four nodes, and the generator's reply is the answer. */
  lemma AnswerWithoutTool(cfg: Settings, i0: Input, i1: Input, i2: Input, i3: Input)
    requires Plans(i0, i1) && Readable(i1.parsed.fields) && !exists tool :: AsksFor(cfg.tools, i1.parsed.fields, tool)
    requires i2.llm.Reply? && Says(i2.llm.content)
    ensures var r := Steps(cfg, START, [i0, i1] + [i2, i3]);
            && r.status == Ended && r.s.draft == i2.llm.content && r.s.error == None && r.s.validationErrors == []
            && r.visited == [ContentFilter, Planner, ResponseGenerator, Validator]
  {
    StepsAppend(cfg, START, [i0, i1], [i2, i3]);
    Planned(cfg, i0, i1);
    Responds(cfg, Steps(cfg, START, [i0, i1]), i2, i3);
  }

  /** A message that needs a tool, up to its first execution: the selector's first call, or the planner's tool
      without arguments if it makes none. */
  lemma ToolChosen(cfg: Settings, i0: Input, i1: Input, i2: Input)
    requires Plans(i0, i1) && (exists tool :: AsksFor(cfg.tools, i1.parsed.fields, tool)) && i2.llm.Reply?
    ensures var r, f := Steps(cfg, START, [i0, i1, i2]), i1.parsed.fields;
            && r.status == At(ToolExecutor) && r.visited == [ContentFilter, Planner, ToolSelector]
            && NamedTool(f).Some?
            && r.s.selectedTool == Some(if i2.llm.calls != [] then i2.llm.calls[0]
                                        else ToolCall(NamedTool(f).value, map[]))
            && r.s.draft == (if i2.llm.calls != [] then "" else i2.llm.content)
            && r.s.retryCount == 0 && r.s.validationLoopCount == 0
  {
    assert [i0, i1, i2] == [i0, i1] + [i2];
    StepsAppend(cfg, START, [i0, i1], [i2]);
    Planned(cfg, i0, i1);
    assert [i2][..0] == [];
    Selects(cfg, Steps(cfg, START, [i0, i1]), i2);
  }

  /** The tool succeeds: six nodes. The generator's reply is the answer, unless the selector had answered in
      words. */
  lemma AnswerWithTool(cfg: Settings, i0: Input, i1: Input, i2: Input, i3: Input, i4: Input, i5: Input)
    requires Plans(i0, i1) && (exists tool :: AsksFor(cfg.tools, i1.parsed.fields, tool)) && i2.llm.Reply?
    requires i3.tool.Returned? && i3.tool.value.success && i4.llm.Reply?
    requires Says(if i2.llm.calls == [] && i2.llm.content != "" then i2.llm.content else i4.llm.content)
    ensures var r := Steps(cfg, START, [i0, i1, i2] + ([i3] + [i4, i5]));
            && r.status == Ended && r.s.toolResult == Some(i3.tool.value)
            && r.s.draft == (if i2.llm.calls == [] && i2.llm.content != "" then i2.llm.content else i4.llm.content)
            && r.visited == [ContentFilter, Planner, ToolSelector, ToolExecutor, ResponseGenerator, Validator]
  {
    StepsAppend(cfg, START, [i0, i1, i2], [i3] + [i4, i5]);
    ToolChosen(cfg, i0, i1, i2);
    var r := Steps(cfg, START, [i0, i1, i2]);
    StepsAppend(cfg, r, [i3], [i4, i5]);
    assert [i3][..0] == [];
    Executes(cfg, r, i3);
    Responds(cfg, Step(cfg, r, i3), i4, i5);
  }

  /** The nodes of an execution that fails and is retried `n` times. */
  function RetryPath(n: nat): seq<Node> {
    if n == 0 then [ToolExecutor, ErrorHandler]
    else [ToolExecutor, ErrorHandler, RetryHandler] + RetryPath(n - 1)
  }

  /** `r'` follows `r` after a failing execution retried `n` times. */
  predicate Exhausts(r: Run, r': Run, n: nat) {
    && r'.status == At(ResponseGenerator) && r'.visited == r.visited + RetryPath(n)
    && r'.s.retryCount == r.s.retryCount + n && r'.s.draft == r.s.draft
    && r'.s.validationLoopCount == r.s.validationLoopCount && FailedResult(r'.s)
  }

  /** Inputs for an execution that fails and is retried `n` times. */
  predicate Failures(inputs: seq<Input>, n: nat) {
    && |inputs| == 3 * n + 2
    && forall i :: 0 <= i < |inputs| ==> inputs[i].tool.Returned? && !inputs[i].tool.value.success
  }

  /** A tool that keeps returning failures is retried exactly until the retries are used up. */
  lemma {:induction false} RetriedToTheEnd(cfg: Settings, r: Run, inputs: seq<Input>, n: nat)
    requires r.status == At(ToolExecutor) && r.s.selectedTool.Some?
    requires n == Max0(cfg.maxRetries - r.s.retryCount) && Failures(inputs, n)
    ensures Exhausts(r, Steps(cfg, r, inputs), n)
    decreases n, 1
  {
    if n == 0 {
      NoRetry(cfg, r, inputs[0], inputs[1]);
      assert inputs == [inputs[0], inputs[1]];
    } else {
      MoreRetries(cfg, r, inputs[0], inputs[1], inputs[2], inputs[3..], n);
      assert inputs == [inputs[0], inputs[1], inputs[2]] + inputs[3..];
    }
  }

  lemma {:induction false} MoreRetries(cfg: Settings, r: Run, a: Input, b: Input, c: Input, rest: seq<Input>, n: nat)
    requires r.status == At(ToolExecutor) && r.s.selectedTool.Some? && a.tool.Returned? && !a.tool.value.success
    requires n > 0 && n == cfg.maxRetries - r.s.retryCount && Failures(rest, n - 1)
    ensures Exhausts(r, Steps(cfg, r, [a, b, c] + rest), n)
    decreases n, 0
  {
    RetriesOnce(cfg, r, a, b, c);
    RetriedToTheEnd(cfg, Steps(cfg, r, [a, b, c]), rest, n - 1);
    OneRound(cfg, r, a, b, c, rest, n);
  }

  lemma NoRetry(cfg: Settings, r: Run, a: Input, b: Input)
    requires r.status == At(ToolExecutor) && r.s.selectedTool.Some? && a.tool.Returned? && !a.tool.value.success
    requires cfg.maxRetries <= r.s.retryCount
    ensures Exhausts(r, Steps(cfg, r, [a, b]), 0)
  {
    FailsOnce(cfg, r, a, b);
  }

  lemma OneRound(cfg: Settings, r: Run, a: Input, b: Input, c: Input, rest: seq<Input>, n: nat)
    requires r.status == At(ToolExecutor) && r.s.selectedTool.Some? && a.tool.Returned? && !a.tool.value.success
    requires r.s.retryCount < cfg.maxRetries && n > 0
    requires Exhausts(Steps(cfg, r, [a, b, c]), Steps(cfg, Steps(cfg, r, [a, b, c]), rest), n - 1)
    ensures Exhausts(r, Steps(cfg, r, [a, b, c] + rest), n)
  {
    var r3 := Steps(cfg, r, [a, b, c]);
    RetriesOnce(cfg, r, a, b, c);
    StepsAppend(cfg, r, [a, b, c], rest);
    ExhaustsStep(r, r3, Steps(cfg, r3, rest), n);
  }

  lemma ExhaustsStep(r: Run, r3: Run, r': Run, n: nat)
    requires n > 0 && Exhausts(r3, r', n - 1)
    requires r3.visited == r.visited + [ToolExecutor, ErrorHandler, RetryHandler]
    requires r3.s.retryCount == r.s.retryCount + 1 && r3.s.draft == r.s.draft
    requires r3.s.validationLoopCount == r.s.validationLoopCount
    ensures Exhausts(r, r', n)
  {
    assert r.visited + RetryPath(n) == r3.visited + RetryPath(n - 1);
  }

  lemma FailsOnce(cfg: Settings, r: Run, a: Input, b: Input)
    requires r.status == At(ToolExecutor) && r.s.selectedTool.Some? && a.tool.Returned? && !a.tool.value.success
    ensures var r' := Steps(cfg, r, [a, b]);
            && r'.status == At(if r.s.retryCount < cfg.maxRetries then RetryHandler else ResponseGenerator)
            && r'.visited == r.visited + [ToolExecutor, ErrorHandler] && FailedResult(r'.s)
            && r'.s.retryCount == r.s.retryCount && r'.s.draft == r.s.draft && r'.s.selectedTool == r.s.selectedTool
            && r'.s.validationLoopCount == r.s.validationLoopCount && r'.s.error == Some("retryable")
  {
    Two(cfg, r, a, b);
    Executes(cfg, r, a);
  }

  lemma RetriesOnce(cfg: Settings, r: Run, a: Input, b: Input, c: Input)
    requires r.status == At(ToolExecutor) && r.s.selectedTool.Some? && a.tool.Returned? && !a.tool.value.success
    requires r.s.retryCount < cfg.maxRetries
    ensures var r' := Steps(cfg, r, [a, b, c]);
            && r'.status == At(ToolExecutor) && r'.visited == r.visited + [ToolExecutor, ErrorHandler, RetryHandler]
            && r'.s.retryCount == r.s.retryCount + 1 && r'.s.draft == r.s.draft
            && r'.s.selectedTool == r.s.selectedTool && r'.s.validationLoopCount == r.s.validationLoopCount
  {
    FailsOnce(cfg, r, a, b);
    assert [a, b, c] == [a, b] + [c];
    StepsAppend(cfg, r, [a, b], [c]);
    assert [c][..0] == [];
  }

  /** A whole run with such a tool: `max_retries` retries, and then the generator's reply is the answer. */
  lemma AnswerAfterFailures(cfg: Settings, i0: Input, i1: Input, i2: Input, fails: seq<Input>, i4: Input, i5: Input)
    requires Plans(i0, i1) && (exists tool :: AsksFor(cfg.tools, i1.parsed.fields, tool))
    requires i2.llm.Reply? && i2.llm.calls != []
    requires Failures(fails, Max0(cfg.maxRetries)) && i4.llm.Reply? && Says(i4.llm.content)
    ensures var r, n := Steps(cfg, START, [i0, i1, i2] + (fails + [i4, i5])), Max0(cfg.maxRetries);
            && r.status == Ended && r.s.draft == i4.llm.content && r.s.retryCount == n && FailedResult(r.s)
            && r.visited == [ContentFilter, Planner, ToolSelector] + RetryPath(n) + [ResponseGenerator, Validator]
  {
    StepsAppend(cfg, START, [i0, i1, i2], fails + [i4, i5]);
    ToolChosen(cfg, i0, i1, i2);
    var r := Steps(cfg, START, [i0, i1, i2]);
    StepsAppend(cfg, r, fails, [i4, i5]);
    RetriedToTheEnd(cfg, r, fails, Max0(cfg.maxRetries));
    Responds(cfg, Steps(cfg, r, fails), i4, i5);
  }

  /** If no tool was needed and the reply says nothing, the selector is asked although no tool is selected; if it
      answers in words, those are the answer. */
  lemma SecondChance(cfg: Settings, i0: Input, i1: Input, i2: Input, i3: Input, i4: Input, i5: Input, i6: Input)
    requires Plans(i0, i1) && Readable(i1.parsed.fields) && !exists tool :: AsksFor(cfg.tools, i1.parsed.fields, tool)
    requires cfg.maxLoops > 0 && i2.llm.Reply? && !Says(i2.llm.content)
    requires i4.llm.Reply? && i4.llm.calls == [] && Says(i4.llm.content)
    ensures var r := Steps(cfg, START, [i0, i1] + ([i2, i3] + ([i4] + [i5, i6])));
            && r.status == Ended && r.s.draft == i4.llm.content
            && r.visited == [ContentFilter, Planner, ResponseGenerator, Validator]
                            + [ToolSelector, ResponseGenerator, Validator]
  {
    var r := Steps(cfg, START, [i0, i1] + [i2, i3]);
    SaysNothing(cfg, i0, i1, i2, i3);
    AnswersInWords(cfg, r, i4, i5, i6);
    assert [i0, i1] + ([i2, i3] + ([i4] + [i5, i6])) == ([i0, i1] + [i2, i3]) + ([i4] + [i5, i6]);
    StepsAppend(cfg, START, [i0, i1] + [i2, i3], [i4] + [i5, i6]);
  }

  lemma SaysNothing(cfg: Settings, i0: Input, i1: Input, i2: Input, i3: Input)
    requires Plans(i0, i1) && Readable(i1.parsed.fields) && !exists tool :: AsksFor(cfg.tools, i1.parsed.fields, tool)
    requires cfg.maxLoops > 0 && i2.llm.Reply? && !Says(i2.llm.content)
    ensures var r := Steps(cfg, START, [i0, i1] + [i2, i3]);
            && r.status == At(ToolSelector) && r.s.selectedTool == None
            && r.visited == [ContentFilter, Planner, ResponseGenerator, Validator]
  {
    StepsAppend(cfg, START, [i0, i1], [i2, i3]);
    Planned(cfg, i0, i1);
    Responds(cfg, Steps(cfg, START, [i0, i1]), i2, i3);
  }

  lemma AnswersInWords(cfg: Settings, r: Run, i4: Input, i5: Input, i6: Input)
    requires r.status == At(ToolSelector) && r.s.selectedTool.None?
    requires i4.llm.Reply? && i4.llm.calls == [] && Says(i4.llm.content)
    ensures var r' := Steps(cfg, r, [i4] + [i5, i6]);
            && r'.status == Ended && r'.s.draft == i4.llm.content
            && r'.visited == r.visited + [ToolSelector, ResponseGenerator, Validator]
  {
    StepsAppend(cfg, r, [i4], [i5, i6]);
    assert [i4][..0] == [];
    Selects(cfg, r, i4);
    Responds(cfg, Step(cfg, r, i4), i5, i6);
  }

  /** A tool that raises, a model that fails and JSON that cannot be read abort the run where it stands. */
  lemma FailuresAbort(cfg: Settings, r: Run, i: Input)
    requires r.status.At?
    ensures r.status.node == ToolExecutor && r.s.selectedTool.Some? && i.tool.Raised? ==>
              Step(cfg, r, i) == r.(status := Aborted(ToolExecutor, i.tool.exn))
    ensures r.status.node in [Planner, ToolSelector] && i.llm.LlmFailed? ==>
              Step(cfg, r, i) == r.(status := Aborted(r.status.node, i.llm.exn))
    ensures r.status.node == ResponseGenerator && r.s.draft == "" && i.llm.LlmFailed? ==>
              Step(cfg, r, i) == r.(status := Aborted(ResponseGenerator, i.llm.exn))
    ensures r.status.node == Planner && i.llm.Reply? && !(i.parsed.ParsedDict? && Readable(i.parsed.fields)) ==>
              Step(cfg, r, i).status.Aborted? && Step(cfg, r, i).s == r.s
  {
    if i.parsed.ParsedDict? {
      DecisionByFields(cfg.tools, i.parsed.fields);
    }
  }
}
