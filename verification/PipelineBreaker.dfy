/**
 The breaker of each tool inside the shared pipeline: seen from one tool, every run of the pipeline
 is a run of the breaker's single commands, so everything proved there holds here.
 */
module PipelineBreaker {
  import opened Common
  import opened ToolCache
  import opened ToolExecutor
  import opened ToolPipeline
  import Breaker
  import Commands = BreakerCommands

  type Calls = multiset<Commands.Pc>

  /** Where an execution of the tool is in its breaker call, if it has come that far. */
  function PcOf(e: Execution, tool: string): Calls {
    if e.request.tool != tool then multiset{} else
    match e.stage
    case Calling(pc) => multiset{pc}
    case Stored(_) => multiset{Commands.Done(true)}
    case _ => multiset{}
  }

  function CallsOf(es: seq<Execution>, tool: string): Calls {
    if es == [] then multiset{} else CallsOf(es[..|es| - 1], tool) + PcOf(es[|es| - 1], tool)
  }

  /** The pipeline as the breaker of one tool sees it. */
  function Seen(s: System, tool: string): Commands.System {
    Commands.System(Keys(s, tool), CallsOf(s.executions, tool))
  }

  lemma SwapOut(rest: Calls, x: Calls, y: Calls, last: Calls)
    requires x <= rest
    ensures x <= rest + last
    ensures rest - x + y + last == rest + last - x + y
  {
  }

  lemma {:induction false} CallsUpdate(es: seq<Execution>, i: nat, e: Execution, tool: string)
    requires i < |es|
    ensures PcOf(es[i], tool) <= CallsOf(es, tool)
    ensures CallsOf(es[i := e], tool) == CallsOf(es, tool) - PcOf(es[i], tool) + PcOf(e, tool)
  {
    var n := |es| - 1;
    var es' := es[i := e];
    var x, y, last := PcOf(es[i], tool), PcOf(e, tool), PcOf(es[n], tool);
    if i < n {
      CallsUpdate(es[..n], i, e, tool);
      assert es'[..n] == es[..n][i := e];
      assert CallsOf(es', tool) == CallsOf(es[..n], tool) - x + y + last;
      SwapOut(CallsOf(es[..n], tool), x, y, last);
    } else {
      assert es'[..n] == es[..n];
      assert CallsOf(es', tool) == CallsOf(es[..n], tool) + y;
    }
  }

  lemma PutBack(all: Calls, x: Calls)
    requires x <= all
    ensures all - x + x == all
  {
  }

  lemma SamePc(es: seq<Execution>, i: nat, e: Execution, tool: string)
    requires i < |es| && PcOf(e, tool) == PcOf(es[i], tool)
    ensures CallsOf(es[i := e], tool) == CallsOf(es, tool)
  {
    CallsUpdate(es, i, e, tool);
    PutBack(CallsOf(es, tool), PcOf(e, tool));
  }

  /** What an action of the pipeline is to the breaker of one tool, if anything. */
  function Projected(s: System, a: Action, tool: string): seq<Commands.Action> {
    match a
    case LookUp(i, now) =>
      if At(s, i) && s.executions[i].stage.Admitted? && s.executions[i].request.tool == tool
         && LookedUp(s, s.executions[i], now).Calling?
      then [Commands.Arrive] else []
    case Command(i, coro, now) =>
      if At(s, i) && CanCommand(s.executions[i]) && s.executions[i].request.tool == tool
      then [Commands.Next(s.executions[i].stage.pc, Commands.Input(now, Breaker.VerdictOf(coro)))] else []
    case _ => []
  }

  lemma CheckProjects(cfg: Config, s: System, request: string, arguments: Arguments, now: Time, exec: Time,
                      tool: string)
    ensures Seen(CheckStep(cfg, s, request, arguments, now, exec), tool) == Seen(s, tool)
  {
    var s' := CheckStep(cfg, s, request, arguments, now, exec);
    assert s'.executions[..|s.executions|] == s.executions;
  }

  lemma LookUpProjects(s: System, i: nat, now: Time, tool: string)
    requires At(s, i) && s.executions[i].stage.Admitted?
    ensures var s', e := LookUpStep(s, i, now), s.executions[i];
            Seen(s', tool).keys == Seen(s, tool).keys
            && Seen(s', tool).calls == if e.request.tool == tool && LookedUp(s, e, now).Calling?
                                       then Seen(s, tool).calls + multiset{Commands.GetState} else Seen(s, tool).calls
  {
    var e := s.executions[i];
    CallsUpdate(s.executions, i, e.(stage := LookedUp(s, e, now)), tool);
  }

  lemma CommandCalls(cfg: Config, s: System, i: nat, coro: Outcome<Payload>, now: Time, tool: string)
    requires At(s, i) && CanCommand(s.executions[i])
    ensures var s', e := CommandStep(cfg, s, i, coro, now), s.executions[i];
            && (e.request.tool == tool ==> e.stage.pc in Seen(s, tool).calls)
            && Seen(s', tool).calls ==
               if e.request.tool == tool
               then Seen(s, tool).calls - multiset{e.stage.pc} + multiset{Issued(cfg, s, e, coro, now).1}
               else Seen(s, tool).calls
  {
    var e := s.executions[i];
    CallsUpdate(s.executions, i, Moved(e, Issued(cfg, s, e, coro, now).1, coro, now), tool);
  }

  lemma CommandProjects(cfg: Config, s: System, i: nat, coro: Outcome<Payload>, now: Time, tool: string)
    requires At(s, i) && CanCommand(s.executions[i])
    ensures var e := s.executions[i];
            var input := Commands.Input(now, Breaker.VerdictOf(coro));
            Seen(CommandStep(cfg, s, i, coro, now), tool)
            == if e.request.tool == tool
               then Commands.Step(cfg.breaker, Seen(s, tool), Commands.Next(e.stage.pc, input)) else Seen(s, tool)
  {
    CommandCalls(cfg, s, i, coro, now, tool);
  }

  lemma WriteProjects(cfg: Config, s: System, i: nat, now: Time, tool: string)
    requires At(s, i) && CanWrite(s.executions[i])
    ensures Seen(WriteStep(cfg, s, i, now), tool) == Seen(s, tool)
  {
    var e' := s.executions[i].(stage := Stored(now));
    SamePc(s.executions, i, e', tool);
  }

  lemma OneAction(cfg: Breaker.Config, b: Commands.System, a: Commands.Action)
    ensures Commands.Run(cfg, b, [a]) == Commands.Step(cfg, b, a)
  {
    assert [a][..0] == [];
  }

  lemma StepProjects(cfg: Config, s: System, a: Action, tool: string)
    ensures Seen(Step(cfg, s, a), tool) == Commands.Run(cfg.breaker, Seen(s, tool), Projected(s, a, tool))
  {
    var done := Projected(s, a, tool);
    match a {
      case Check(request, arguments, now, exec) => CheckProjects(cfg, s, request, arguments, now, exec, tool);
      case LookUp(i, now) =>
        if At(s, i) && s.executions[i].stage.Admitted? { LookUpProjects(s, i, now, tool); }
      case Command(i, coro, now) =>
        if At(s, i) && CanCommand(s.executions[i]) { CommandProjects(cfg, s, i, coro, now, tool); }
      case Write(i, now) =>
        if At(s, i) && CanWrite(s.executions[i]) { WriteProjects(cfg, s, i, now, tool); }
    }
    if done != [] {
      OneAction(cfg.breaker, Seen(s, tool), done[0]);
      assert done == [done[0]];
    }
  }

  function BreakerActions(cfg: Config, actions: seq<Action>, tool: string): seq<Commands.Action> {
    if actions == [] then [] else
    var past := actions[..|actions| - 1];
    BreakerActions(cfg, past, tool) + Projected(ToolPipeline.Run(cfg, past), actions[|actions| - 1], tool)
  }

  /** Seen from one tool, the pipeline runs the commands of the breaker from its start. */
  lemma {:induction false} RunProjects(cfg: Config, actions: seq<Action>, tool: string)
    ensures Seen(ToolPipeline.Run(cfg, actions), tool)
            == Commands.Run(cfg.breaker, Commands.EMPTY, BreakerActions(cfg, actions, tool))
  {
    if actions != [] {
      var past := actions[..|actions| - 1];
      var last := Projected(ToolPipeline.Run(cfg, past), actions[|actions| - 1], tool);
      RunProjects(cfg, past, tool);
      StepProjects(cfg, ToolPipeline.Run(cfg, past), actions[|actions| - 1], tool);
      Commands.RunAppend(cfg.breaker, Commands.EMPTY, BreakerActions(cfg, past, tool), last);
    }
  }

  /** Hence in every run of the pipeline the counters of every tool are below their thresholds whenever no
      call of the tool is under way, and an open circuit can be left, and a coroutine started, before its
      timeout exactly under the conditions found for the commands alone. */
  lemma PipelineBreakers(cfg: Config, actions: seq<Action>, tool: string, from: Time)
    requires cfg.breaker.failureThreshold > 0 && cfg.breaker.successThreshold > 0 && cfg.breaker.recoveryTimeout > 0.0
    ensures var b := Seen(ToolPipeline.Run(cfg, actions), tool);
            && Commands.Accounted(cfg.breaker, b)
            && (Commands.Quiet(b) ==> 0 <= b.keys.failures < cfg.breaker.failureThreshold
                                      && 0 <= b.keys.successes < cfg.breaker.successThreshold)
            && (b.keys.state == Breaker.OPEN ==>
                  && (Commands.CanLeaveEarly(cfg.breaker, b, from) <==> !Commands.Sealed(cfg.breaker, b, from))
                  && (Commands.CanStartEarly(cfg.breaker, b, from)
                      <==> !Commands.Sealed(cfg.breaker, b, from) || Commands.ZeroSuccesses in b.calls))
  {
    RunProjects(cfg, actions, tool);
    Commands.CountersAccounted(cfg.breaker, Commands.EMPTY, BreakerActions(cfg, actions, tool));
    var b := Seen(ToolPipeline.Run(cfg, actions), tool);
    if b.keys.state == Breaker.OPEN {
      Commands.EarlyExitExactly(cfg.breaker, b, from);
      Commands.EarlyStartExactly(cfg.breaker, b, from);
    }
  }

  // ---------------------------------------------------------------------------
  // No tool runs while its circuit is sealed
  // ---------------------------------------------------------------------------

  /** Execution `i` is one of the tool's and its `execute` has been started. */
  predicate RanAt(s: System, tool: string, i: nat) {
    At(s, i) && s.executions[i].request.tool == tool && Ran(s.executions[i])
  }

  /** The commands of the breaker in these actions read the clock in `[from, to)`. */
  ghost predicate Within(actions: seq<Action>, from: Time, to: Time) {
    forall i :: 0 <= i < |actions| && actions[i].Command? ==> from <= actions[i].now < to
  }

  /** Sealed, and no probe about to start. */
  ghost predicate Barred(cfg: Config, s: System, tool: string, from: Time) {
    && Commands.Sealed(cfg.breaker, Seen(s, tool), from)
    && Commands.ZeroSuccesses !in Seen(s, tool).calls
  }

  lemma BarredStep(cfg: Config, s: System, a: Action, tool: string, from: Time)
    requires cfg.breaker.successThreshold > 0 && Barred(cfg, s, tool, from)
    requires a.Command? ==> from <= a.now < from + cfg.breaker.recoveryTimeout
    ensures Barred(cfg, Step(cfg, s, a), tool, from)
    ensures forall b <- Projected(s, a, tool) :: !Commands.Starts(cfg.breaker, Seen(s, tool), b)
  {
    StepProjects(cfg, s, a, tool);
    var done := Projected(s, a, tool);
    if done != [] {
      OneAction(cfg.breaker, Seen(s, tool), done[0]);
      assert done == [done[0]];
      Commands.SealedStep(cfg.breaker, Seen(s, tool), from, done[0]);
    }
  }

  lemma StartIsAwait(cfg: Config, s: System, e: Execution, coro: Outcome<Payload>, now: Time)
    requires Staged(e) && CanCommand(e) && !Ran(e)
    requires Ran(Moved(e, Issued(cfg, s, e, coro, now).1, coro, now))
    ensures !e.stage.pc.Awaiting? && Issued(cfg, s, e, coro, now).1.Awaiting?
  {
  }

  /** A step that starts an execution of the tool is a command of its breaker that starts a coroutine. */
  lemma StartProjects(cfg: Config, s: System, a: Action, tool: string, i: nat)
    requires AllStaged(s) && RanAt(Step(cfg, s, a), tool, i) && !RanAt(s, tool, i)
    ensures exists b :: b in Projected(s, a, tool) && Commands.Starts(cfg.breaker, Seen(s, tool), b)
  {
    assert At(s, i) && a.Command? && a.i == i && CanCommand(s.executions[i]);
    StartIsAwait(cfg, s, s.executions[i], a.coro, a.now);
    CommandCalls(cfg, s, i, a.coro, a.now, tool);
    var b := Commands.Next(s.executions[i].stage.pc, Commands.Input(a.now, Breaker.VerdictOf(a.coro)));
    assert Projected(s, a, tool) == [b];
    assert b in Projected(s, a, tool);
  }

  lemma NoRunStep(cfg: Config, past: seq<Action>, a: Action, tool: string, from: Time, i: nat)
    requires cfg.breaker.successThreshold > 0 && Barred(cfg, ToolPipeline.Run(cfg, past), tool, from)
    requires a.Command? ==> from <= a.now < from + cfg.breaker.recoveryTimeout
    ensures Barred(cfg, ToolPipeline.Run(cfg, past + [a]), tool, from)
    ensures RanAt(ToolPipeline.Run(cfg, past + [a]), tool, i) ==> RanAt(ToolPipeline.Run(cfg, past), tool, i)
  {
    assert (past + [a])[..|past|] == past;
    var s := ToolPipeline.Run(cfg, past);
    BarredStep(cfg, s, a, tool, from);
    RunStaged(cfg, past);
    if RanAt(Step(cfg, s, a), tool, i) && !RanAt(s, tool, i) {
      StartProjects(cfg, s, a, tool, i);
    }
  }

  /** While the timeout of a circuit runs that is sealed and has no probe about to clear the success counter,
      whatever all the agent runs do: the circuit stays like that and no execution of the tool is started. */
  lemma {:induction false} NoRunWhileSealed(cfg: Config, actions: seq<Action>, more: seq<Action>, tool: string,
                                            from: Time, i: nat)
    requires cfg.breaker.successThreshold > 0 && Barred(cfg, ToolPipeline.Run(cfg, actions), tool, from)
    requires Within(more, from, from + cfg.breaker.recoveryTimeout)
    ensures Barred(cfg, ToolPipeline.Run(cfg, actions + more), tool, from)
    ensures RanAt(ToolPipeline.Run(cfg, actions + more), tool, i) ==> RanAt(ToolPipeline.Run(cfg, actions), tool, i)
    decreases |more|
  {
    if more == [] {
      assert actions + more == actions;
    } else {
      var n := |more| - 1;
      var past := actions + more[..n];
      assert actions + more == past + [more[n]];
      NoRunWhileSealed(cfg, actions, more[..n], tool, from, i);
      NoRunStep(cfg, past, more[n], tool, from, i);
    }
  }
}
