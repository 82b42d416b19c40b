/**
 All executions of all agent runs together. Executions share the limiter, the cache and the
 breakers, and interleave freely between any two Redis commands: the limiter's pipeline, the cache
 look-up, every single command of the breaker, and the cache write.
 */
module ToolPipeline {
  import opened Common
  import opened ToolCache
  import opened ToolExecutor
  import opened RateLimiterHistory
  import Breaker
  import Commands = BreakerCommands
  import RateLimiter

  /** How far an execution has come. */
  datatype Stage =
    | Refused
    | Admitted
    | Unkeyed
    | Hit(result: ToolResult, at: Time)
    | Calling(pc: Commands.Pc)
    | Stored(at: Time)

  /** How and when the tool's coroutine ended. */
  datatype Ending = Ending(coro: Outcome<Payload>, at: Time)

  datatype Execution = Execution(request: Request, arguments: Arguments, stage: Stage, ending: Option<Ending>)

  /** The tool's `execute` has been started. */
  predicate Ran(e: Execution) {
    e.ending.Some? || (e.stage.Calling? && e.stage.pc.Awaiting?)
  }

  datatype System = System(sets: map<string, RateLimiter.Entry>, entries: Entries,
                           circuits: map<string, Breaker.Keys>, executions: seq<Execution>)

  const START := System(map[], map[], map[], [])

  /** A command of the breaker also says how the coroutine ends, should the call be awaiting it. */
  datatype Action =
    | Check(tool: string, arguments: Arguments, now: Time, exec: Time)
    | LookUp(i: nat, now: Time)
    | Command(i: nat, coro: Outcome<Payload>, now: Time)
    | Write(i: nat, now: Time)

  function Keys(s: System, tool: string): Breaker.Keys {
    if tool in s.circuits then s.circuits[tool] else Breaker.FRESH
  }

  predicate At(s: System, i: nat) {
    i < |s.executions|
  }

  function CheckStep(cfg: Config, s: System, tool: string, arguments: Arguments, now: Time, exec: Time): System {
    var r := Request(tool, now, exec);
    var admitted := tool in cfg.limits ==> |RateLimiter.InWindow(s.sets, tool, now, exec)| < cfg.limits[tool];
    s.(sets := Record(cfg.limits, s.sets, r, |s.executions|),
       executions := s.executions + [Execution(r, arguments, if admitted then Admitted else Refused, None)])
  }

  function LookedUp(s: System, e: Execution, now: Time): Stage {
    if Rejects(e.arguments) then Unkeyed else
    match Lookup(s.entries, e.request.tool, e.arguments, now)
    case Some(r) => Hit(r, now)
    case None => Calling(Commands.GetState)
  }

  function LookUpStep(s: System, i: nat, now: Time): System
    requires At(s, i)
  {
    var e := s.executions[i];
    s.(executions := s.executions[i := e.(stage := LookedUp(s, e, now))])
  }

  predicate CanCommand(e: Execution) {
    e.stage.Calling? && !e.stage.pc.Done?
  }

  function Issued(cfg: Config, s: System, e: Execution, coro: Outcome<Payload>, now: Time): (Breaker.Keys, Commands.Pc)
    requires e.stage.Calling?
  {
    Commands.Command(cfg.breaker, Keys(s, e.request.tool), e.stage.pc, Commands.Input(now, Breaker.VerdictOf(coro)))
  }

  function Moved(e: Execution, next: Commands.Pc, coro: Outcome<Payload>, now: Time): Execution
    requires e.stage.Calling?
  {
    e.(stage := Calling(next), ending := if e.stage.pc.Awaiting? then Some(Ending(coro, now)) else e.ending)
  }

  function CommandStep(cfg: Config, s: System, i: nat, coro: Outcome<Payload>, now: Time): System
    requires At(s, i) && s.executions[i].stage.Calling?
  {
    var e := s.executions[i];
    var (k, next) := Issued(cfg, s, e, coro, now);
    s.(circuits := s.circuits[e.request.tool := k], executions := s.executions[i := Moved(e, next, coro, now)])
  }

  /** The breaker has handed over the tool's payload. */
  predicate CanWrite(e: Execution) {
    e.stage == Calling(Commands.Done(true)) && e.ending.Some? && e.ending.value.coro.Returned?
  }

  /** The result of an execution whose tool returned. */
  function Produced(e: Execution): ToolResult
    requires e.ending.Some? && e.ending.value.coro.Returned?
  {
    ResultOf(e.request.tool, e.ending.value.coro.value)
  }

  function WriteStep(cfg: Config, s: System, i: nat, now: Time): System
    requires At(s, i) && CanWrite(s.executions[i])
  {
    var e := s.executions[i];
    s.(entries := CacheWrite(cfg, s.entries, ToolCall(e.request.tool, e.arguments), Produced(e), now),
       executions := s.executions[i := e.(stage := Stored(now))])
  }

  /** An action that is not the execution's next one changes nothing. */
  function Step(cfg: Config, s: System, a: Action): System {
    match a
    case Check(tool, arguments, now, exec) =>
      if tool in cfg.registry then CheckStep(cfg, s, tool, arguments, now, exec) else s
    case LookUp(i, now) =>
      if At(s, i) && s.executions[i].stage.Admitted? then LookUpStep(s, i, now) else s
    case Command(i, coro, now) =>
      if At(s, i) && CanCommand(s.executions[i]) then CommandStep(cfg, s, i, coro, now) else s
    case Write(i, now) =>
      if At(s, i) && CanWrite(s.executions[i]) then WriteStep(cfg, s, i, now) else s
  }

  function Run(cfg: Config, actions: seq<Action>): System {
    if actions == [] then START
    else Step(cfg, Run(cfg, actions[..|actions| - 1]), actions[|actions| - 1])
  }

  // ---------------------------------------------------------------------------
  // The life of one execution
  // ---------------------------------------------------------------------------

  /** The coroutine of a call at `pc` has ended. */
  predicate Ended(pc: Commands.Pc) {
    Commands.Left(pc) < Commands.Left(Commands.Awaiting(Breaker.CLOSED)) && pc != Commands.Done(false)
  }

  predicate Staged(e: Execution) {
    match e.stage
    case Calling(pc) => !Rejects(e.arguments) && (e.ending.Some? <==> Ended(pc))
    case Stored(_) => !Rejects(e.arguments) && e.ending.Some? && e.ending.value.coro.Returned?
    case _ => e.ending.None?
  }

  ghost predicate AllStaged(s: System) {
    forall i :: 0 <= i < |s.executions| ==> Staged(s.executions[i])
  }

  /** How an action may change an execution. */
  ghost predicate Evolves(e: Execution, e': Execution) {
    && e'.request == e.request && e'.arguments == e.arguments
    && (e.stage.Hit? || e.stage.Stored? || e.stage.Refused? || e.stage.Unkeyed? ==> e' == e)
    && (e.ending.Some? ==> e'.ending == e.ending)
    && (e'.stage.Refused? ==> e.stage.Refused?)
    && Staged(e')
  }

  /** The coroutine has ended once the call has left the point where it awaits it. */
  lemma EndedStep(cfg: Config, k: Breaker.Keys, pc: Commands.Pc, input: Commands.Input)
    requires !pc.Done?
    ensures Ended(Commands.Command(cfg.breaker, k, pc, input).1) <==> Ended(pc) || pc.Awaiting?
  {
  }

  lemma CommandEvolves(cfg: Config, s: System, e: Execution, coro: Outcome<Payload>, now: Time)
    requires Staged(e) && CanCommand(e)
    ensures Evolves(e, Moved(e, Issued(cfg, s, e, coro, now).1, coro, now))
  {
  }

  lemma StepEvolves(cfg: Config, s: System, a: Action, j: nat)
    requires At(s, j) && Staged(s.executions[j])
    ensures At(Step(cfg, s, a), j) && Evolves(s.executions[j], Step(cfg, s, a).executions[j])
  {
    if a.Command? && At(s, a.i) && CanCommand(s.executions[a.i]) && a.i == j {
      CommandEvolves(cfg, s, s.executions[j], a.coro, a.now);
    }
  }

  lemma {:induction false} RunStaged(cfg: Config, actions: seq<Action>)
    ensures AllStaged(Run(cfg, actions))
  {
    if actions != [] {
      var s, a := Run(cfg, actions[..|actions| - 1]), actions[|actions| - 1];
      RunStaged(cfg, actions[..|actions| - 1]);
      forall i | 0 <= i < |Step(cfg, s, a).executions|
        ensures Staged(Step(cfg, s, a).executions[i])
      {
        if At(s, i) {
          StepEvolves(cfg, s, a, i);
        }
      }
    }
  }

  // ---------------------------------------------------------------------------
  // The limit on real tool calls
  // ---------------------------------------------------------------------------

  function Requests(s: System): seq<Request> {
    seq(|s.executions|, i requires 0 <= i < |s.executions| => s.executions[i].request)
  }

  ghost predicate LimiterInSync(cfg: Config, s: System) {
    && s.sets == Sets(cfg.limits, Requests(s))
    && forall i :: 0 <= i < |s.executions| && s.executions[i].stage != Refused ==>
         RateLimiterHistory.Admitted(cfg.limits, Requests(s), i)
  }

  lemma AdmittedByPrefix(limits: Limits, h: seq<Request>, r: Request, i: nat)
    requires i < |h|
    ensures RateLimiterHistory.Admitted(limits, h + [r], i) <==> RateLimiterHistory.Admitted(limits, h, i)
  {
    assert (h + [r])[..i] == h[..i];
  }

  lemma LimiterInSyncCheck(cfg: Config, s: System, tool: string, arguments: Arguments, now: Time, exec: Time)
    requires LimiterInSync(cfg, s)
    ensures LimiterInSync(cfg, CheckStep(cfg, s, tool, arguments, now, exec))
  {
    var s' := CheckStep(cfg, s, tool, arguments, now, exec);
    var h, r := Requests(s), Request(tool, now, exec);
    assert Requests(s') == h + [r];
    assert (h + [r])[..|h|] == h;
    forall i | 0 <= i < |s'.executions| && s'.executions[i].stage != Refused
      ensures RateLimiterHistory.Admitted(cfg.limits, h + [r], i)
    {
      if i < |h| {
        AdmittedByPrefix(cfg.limits, h, r, i);
      }
    }
  }

  lemma LimiterInSyncStep(cfg: Config, s: System, a: Action)
    requires LimiterInSync(cfg, s) && AllStaged(s)
    ensures LimiterInSync(cfg, Step(cfg, s, a))
  {
    if a.Check? {
      LimiterInSyncCheck(cfg, s, a.tool, a.arguments, a.now, a.exec);
    } else {
      var s' := Step(cfg, s, a);
      assert |s'.executions| == |s.executions| && s'.sets == s.sets;
      forall i | 0 <= i < |s.executions|
        ensures Requests(s')[i] == Requests(s)[i]
        ensures s.executions[i].stage == Refused ==> s'.executions[i].stage == Refused
      {
        StepEvolves(cfg, s, a, i);
      }
      assert Requests(s') == Requests(s);
    }
  }

  lemma {:induction false} LimiterStaysInSync(cfg: Config, actions: seq<Action>)
    ensures LimiterInSync(cfg, Run(cfg, actions))
  {
    if actions == [] {
      assert Requests(START) == [];
    } else {
      LimiterStaysInSync(cfg, actions[..|actions| - 1]);
      RunStaged(cfg, actions[..|actions| - 1]);
      LimiterInSyncStep(cfg, Run(cfg, actions[..|actions| - 1]), actions[|actions| - 1]);
    }
  }

  /** The executions of a tool whose `execute` was started, by the time of their check. */
  function ToolRuns(s: System, tool: string, from: Time, to: Time): set<nat> {
    set i: nat | i < |s.executions| && Ran(s.executions[i])
                 && s.executions[i].request.tool == tool && from <= s.executions[i].request.now < to
  }

  lemma RunsWereAdmitted(cfg: Config, s: System, tool: string, from: Time, to: Time)
    requires LimiterInSync(cfg, s) && AllStaged(s)
    ensures ToolRuns(s, tool, from, to) <= AdmittedIn(cfg.limits, Requests(s), tool, from, to, |s.executions|)
  {
    forall i | i in ToolRuns(s, tool, from, to)
      ensures i in AdmittedIn(cfg.limits, Requests(s), tool, from, to, |s.executions|)
    {
      assert Requests(s)[i] == s.executions[i].request;
      assert Staged(s.executions[i]);
    }
  }

  /** Over all runs, retries and interleavings, a limited tool is really run at most `limit` times in any
      half-open window of `w` seconds, if its checks are at most `d` out of order and their time to the
      pipeline grows by at most `e`, with `w + d <= 60` and `w + e <= 65`. */
  lemma ToolRunsPerWindow(cfg: Config, actions: seq<Action>, tool: string, w: Time, d: Time, e: Time, from: Time)
    requires tool in cfg.limits
    requires 0.0 <= d && w + d <= RateLimiter.WINDOW && w + e <= RateLimiter.KEY_TTL
    requires InOrder(Requests(Run(cfg, actions)), tool, d) && Timely(Requests(Run(cfg, actions)), tool, e)
    ensures |ToolRuns(Run(cfg, actions), tool, from, from + w)| <= Bound(cfg.limits, tool)
  {
    var s := Run(cfg, actions);
    var h := Requests(s);
    var admitted := AdmittedIn(cfg.limits, h, tool, from, from + w, |h|);
    assert |admitted| <= Bound(cfg.limits, tool) by {
      WindowLimit(cfg.limits, h, tool, w, d, e, from, |h|);
    }
    assert ToolRuns(s, tool, from, from + w) <= admitted by {
      LimiterStaysInSync(cfg, actions);
      RunStaged(cfg, actions);
      RunsWereAdmitted(cfg, s, tool, from, from + w);
    }
    SubsetSize(ToolRuns(s, tool, from, from + w), admitted);
  }

  // ---------------------------------------------------------------------------
  // Cache soundness
  // ---------------------------------------------------------------------------

  /** Action `a` of the run is the one in which the coroutine of execution `i` ended like this. */
  ghost predicate EndedAt(cfg: Config, actions: seq<Action>, a: nat, i: nat, ending: Ending) {
    && a < |actions| && actions[a] == Command(i, ending.coro, ending.at)
    && var s := Run(cfg, actions[..a]);
       At(s, i) && s.executions[i].stage.Calling? && s.executions[i].stage.pc.Awaiting?
  }

  /** Action `w` of the run is the cache write of execution `j`. */
  ghost predicate WroteAt(cfg: Config, actions: seq<Action>, w: nat, j: nat, at: Time) {
    && w < |actions| && actions[w] == Write(j, at)
    && At(Run(cfg, actions[..w]), j) && CanWrite(Run(cfg, actions[..w]).executions[j])
  }

  /** Action `w` of the run wrote the result of execution `j` under the key: a success, for arguments that
      are not a write. */
  ghost predicate Filled(cfg: Config, actions: seq<Action>, w: nat, j: nat, key: CacheKey, entry: CacheEntry) {
    && w < |actions| && actions[w].Write? && WroteAt(cfg, actions, w, j, actions[w].now)
    && var e := Run(cfg, actions[..w]).executions[j];
       && KeyOf(e.request.tool, e.arguments) == key && !IsWrite(e.arguments)
       && entry.result == Produced(e) && entry.result.success
       && key.tool in cfg.ttls && entry.expiresAt == actions[w].now + cfg.ttls[key.tool] as real
  }

  lemma Prefixes(actions: seq<Action>, n: nat, k: nat)
    requires k <= n <= |actions|
    ensures actions[..n][..k] == actions[..k]
  {
  }

  lemma RunSnoc(cfg: Config, actions: seq<Action>, n: nat)
    requires n < |actions|
    ensures Run(cfg, actions[..n + 1]) == Step(cfg, Run(cfg, actions[..n]), actions[n])
  {
    Prefixes(actions, n + 1, n);
  }

  /** An ending that is on record happened in the run. */
  lemma {:induction false} EndingHappened(cfg: Config, actions: seq<Action>, i: nat) returns (a: nat)
    requires At(Run(cfg, actions), i) && Run(cfg, actions).executions[i].ending.Some?
    ensures EndedAt(cfg, actions, a, i, Run(cfg, actions).executions[i].ending.value)
  {
    var n := |actions| - 1;
    var past := Run(cfg, actions[..n]);
    var ending := Run(cfg, actions).executions[i].ending;
    if At(past, i) && past.executions[i].ending == ending {
      a := EndingHappened(cfg, actions[..n], i);
      Prefixes(actions, n, a);
    } else {
      a := n;
    }
  }

  /** An entry was written in the run. */
  lemma {:induction false} EntryWasFilled(cfg: Config, actions: seq<Action>, key: CacheKey) returns (w: nat, j: nat)
    requires key in Run(cfg, actions).entries
    ensures Filled(cfg, actions, w, j, key, Run(cfg, actions).entries[key])
  {
    var n := |actions| - 1;
    var past := Run(cfg, actions[..n]);
    var entry := Run(cfg, actions).entries[key];
    if key in past.entries && past.entries[key] == entry {
      w, j := EntryWasFilled(cfg, actions[..n], key);
      Prefixes(actions, n, w);
    } else {
      w, j := n, actions[n].i;
    }
  }

  /** A hit was looked up in the run. */
  lemma {:induction false} HitHappened(cfg: Config, actions: seq<Action>, i: nat) returns (l: nat)
    requires At(Run(cfg, actions), i) && Run(cfg, actions).executions[i].stage.Hit?
    ensures var e := Run(cfg, actions).executions[i];
            && l < |actions| && actions[l] == LookUp(i, e.stage.at)
            && Lookup(Run(cfg, actions[..l]).entries, e.request.tool, e.arguments, e.stage.at) == Some(e.stage.result)
  {
    var n := |actions| - 1;
    var past := Run(cfg, actions[..n]);
    if At(past, i) && past.executions[i] == Run(cfg, actions).executions[i] {
      l := HitHappened(cfg, actions[..n], i);
      Prefixes(actions, n, l);
    } else {
      l := n;
    }
  }

  /** Execution `i` was answered at action `l` with what the tool of execution `j` returned at action `a` and
      `j` wrote at action `w`: a success, of the same tool, for arguments with the same normal form, none of
      them a write, looked up less than the time-to-live after the write. */
  ghost predicate Served(cfg: Config, actions: seq<Action>, i: nat, j: nat, a: nat, w: nat, l: nat) {
    var s := Run(cfg, actions);
    && At(s, i) && At(s, j) && a < w < l < |actions|
    && var e, source := s.executions[i], s.executions[j];
       && e.stage.Hit? && actions[l] == LookUp(i, e.stage.at)
       && source.ending.Some? && source.ending.value.coro.Returned?
       && EndedAt(cfg, actions, a, j, source.ending.value)
       && source.ending.value.coro.value.success
       && e.stage.result == ToolResult(e.request.tool, true, source.ending.value.coro.value.output,
                                       source.ending.value.coro.value.error)
       && actions[w].Write? && WroteAt(cfg, actions, w, j, actions[w].now)
       && e.request.tool == source.request.tool
       && NormalArguments(e.arguments) == NormalArguments(source.arguments)
       && !Writes(e.arguments) && !Writes(source.arguments)
       && e.request.tool in cfg.ttls
       && e.stage.at < actions[w].now + cfg.ttls[e.request.tool] as real
  }

  /** An execution that has written keeps what it was and returned. */
  lemma {:induction false} SourceKept(cfg: Config, actions: seq<Action>, w: nat, j: nat)
    requires w <= |actions| && At(Run(cfg, actions[..w]), j) && Run(cfg, actions[..w]).executions[j].ending.Some?
    ensures At(Run(cfg, actions), j)
    ensures var e, e' := Run(cfg, actions[..w]).executions[j], Run(cfg, actions).executions[j];
            e'.request == e.request && e'.arguments == e.arguments && e'.ending == e.ending
    decreases |actions| - w
  {
    if w < |actions| {
      RunSnoc(cfg, actions, w);
      RunStaged(cfg, actions[..w]);
      StepEvolves(cfg, Run(cfg, actions[..w]), actions[w], j);
      SourceKept(cfg, actions, w + 1, j);
    } else {
      assert actions[..w] == actions;
    }
  }

  /** Over every run, each cache hit goes back to a real success of the same tool for arguments with the
      same normal form, written less than its time-to-live before; calls classified as writes neither fill
      the cache nor are answered from it. */
  lemma CacheStaysSound(cfg: Config, actions: seq<Action>, i: nat)
    requires At(Run(cfg, actions), i) && Run(cfg, actions).executions[i].stage.Hit?
    ensures exists j, a, w, l :: Served(cfg, actions, i, j, a, w, l)
  {
    var e := Run(cfg, actions).executions[i];
    var l := HitHappened(cfg, actions, i);
    var key := KeyOf(e.request.tool, e.arguments);
    var w, j := EntryWasFilled(cfg, actions[..l], key);
    Prefixes(actions, l, w);
    var a := EndingHappened(cfg, actions[..w], j);
    Prefixes(actions, w, a);
    SourceKept(cfg, actions, w, j);
    WriteMeaning(e.arguments);
    WriteMeaning(Run(cfg, actions).executions[j].arguments);
    assert Served(cfg, actions, i, j, a, w, l);
  }

  /** After the checks, whose stamps are the limiter's business, all steps read one clock. */
  ghost predicate Clocked(actions: seq<Action>) {
    forall x, y :: 0 <= x < y < |actions| && !actions[x].Check? && !actions[y].Check? ==>
      actions[x].now <= actions[y].now
  }

  /** The coroutine ends, the result is written, and then it is looked up. */
  lemma ServedInOrder(cfg: Config, actions: seq<Action>, i: nat, j: nat, a: nat, w: nat, l: nat)
    requires Clocked(actions) && Served(cfg, actions, i, j, a, w, l)
    ensures actions[a].now <= actions[w].now <= actions[l].now == Run(cfg, actions).executions[i].stage.at
  {
  }

  /** How the run stands just after execution `j` wrote a result its tool had returned at action `a`. */
  ghost predicate JustWritten(cfg: Config, actions: seq<Action>, j: nat, a: nat) {
    var w := |actions| - 1;
    && actions != [] && Clocked(actions) && actions[w].Write? && WroteAt(cfg, actions, w, j, actions[w].now)
    && var e := Run(cfg, actions[..w]).executions[j];
       && EndedAt(cfg, actions, a, j, e.ending.value) && a < w
       && e.ending.value.coro.value.success && !Writes(e.arguments)
       && e.request.tool in cfg.ttls && cfg.ttls[e.request.tool] > 0
  }

  /** However the run goes on, each hit on what execution `j` wrote at action `w` is less than `age` seconds older
      than the end of the coroutine. */
  ghost predicate HitsYoungerThan(cfg: Config, actions: seq<Action>, w: nat, j: nat, a: nat, age: Time)
    requires a < |actions|
  {
    forall all: seq<Action>, i: nat, l: nat ::
      actions <= all && Clocked(all) && Served(cfg, all, i, j, a, w, l) ==>
        Run(cfg, all).executions[i].stage.at - actions[a].now < age
  }

  lemma {:induction false} RunRegistered(cfg: Config, actions: seq<Action>, j: nat)
    requires At(Run(cfg, actions), j)
    ensures Run(cfg, actions).executions[j].request.tool in cfg.registry
  {
    var past := actions[..|actions| - 1];
    if At(Run(cfg, past), j) {
      RunRegistered(cfg, past, j);
      RunStaged(cfg, past);
      StepEvolves(cfg, Run(cfg, past), actions[|actions| - 1], j);
    }
  }

  /** The executions of a tool that got past their check show that its limit is positive. */
  lemma LimitIsPositive(cfg: Config, actions: seq<Action>, j: nat)
    requires At(Run(cfg, actions), j) && Run(cfg, actions).executions[j].stage != Refused
    ensures var tool := Run(cfg, actions).executions[j].request.tool;
            tool in cfg.limits ==> cfg.limits[tool] > 0
  {
    LimiterStaysInSync(cfg, actions);
    assert Requests(Run(cfg, actions))[j] == Run(cfg, actions).executions[j].request;
  }

  /** A check at a server time when the limiter's key has expired is admitted. */
  lemma LateCheck(cfg: Config, s: System, tool: string, arguments: Arguments, now: Time) returns (exec: Time)
    requires tool in cfg.limits ==> cfg.limits[tool] > 0
    ensures var s' := CheckStep(cfg, s, tool, arguments, now, exec);
            s'.executions == s.executions + [Execution(Request(tool, now, exec), arguments, Admitted, None)]
            && s'.entries == s.entries
  {
    var key := RateLimiter.Key(tool);
    exec := if key in s.sets then s.sets[key].expiresAt else 0.0;
    assert RateLimiter.InWindow(s.sets, tool, now, exec) == map[];
  }

  lemma WrittenEntry(cfg: Config, actions: seq<Action>, j: nat, a: nat)
    requires JustWritten(cfg, actions, j, a)
    ensures var s, w := Run(cfg, actions), |actions| - 1;
            At(s, j) && var e := s.executions[j];
            && e.ending.Some? && e.ending.value.coro.Returned?
            && e == Run(cfg, actions[..w]).executions[j].(stage := Stored(actions[w].now))
            && KeyOf(e.request.tool, e.arguments) in s.entries
            && s.entries[KeyOf(e.request.tool, e.arguments)]
               == CacheEntry(Produced(e), actions[w].now + cfg.ttls[e.request.tool] as real)
            && e.request.tool in cfg.registry && !Rejects(e.arguments)
            && (e.request.tool in cfg.limits ==> cfg.limits[e.request.tool] > 0)
  {
    RunStaged(cfg, actions);
    RunRegistered(cfg, actions, j);
    LimitIsPositive(cfg, actions, j);
    WriteMeaning(Run(cfg, actions).executions[j].arguments);
  }

  /** The same arguments asked for again, and answered at `late`: the run up to there. */
  lemma AskedAgain(cfg: Config, actions: seq<Action>, j: nat, a: nat, late: Time) returns (all: seq<Action>)
    requires JustWritten(cfg, actions, j, a)
    requires var w, tool := |actions| - 1, Run(cfg, actions[..|actions| - 1]).executions[j].request.tool;
             late < actions[w].now + cfg.ttls[tool] as real
    ensures var s, i := Run(cfg, actions), |Run(cfg, actions).executions|;
            && At(s, j) && var e := s.executions[j];
            && e.ending.Some? && e.ending.value.coro.Returned?
            && (exists exec ::
                  && all == actions + [Check(e.request.tool, e.arguments, late, exec), LookUp(i, late)]
                  && Run(cfg, all).executions
                     == s.executions + [Execution(Request(e.request.tool, late, exec), e.arguments,
                                                  Hit(Produced(e), late), None)])
  {
    WrittenEntry(cfg, actions, j, a);
    var s := Run(cfg, actions);
    var e, i := s.executions[j], |s.executions|;
    var exec := LateCheck(cfg, s, e.request.tool, e.arguments, late);
    var s1 := CheckStep(cfg, s, e.request.tool, e.arguments, late, exec);
    all := actions + [Check(e.request.tool, e.arguments, late, exec), LookUp(i, late)];
    WriteMeaning(e.arguments);
    TwoMore(cfg, actions, Check(e.request.tool, e.arguments, late, exec), LookUp(i, late));
    assert LookedUp(s1, s1.executions[i], late) == Hit(Produced(e), late);
    assert Run(cfg, all) == LookUpStep(s1, i, late);
  }

  lemma TwoMore(cfg: Config, actions: seq<Action>, b: Action, c: Action)
    ensures Run(cfg, actions + [b, c]) == Step(cfg, Step(cfg, Run(cfg, actions), b), c)
  {
    var all, n := actions + [b, c], |actions|;
    assert all[..n] == actions && all[..n + 2] == all;
    RunSnoc(cfg, all, n);
    RunSnoc(cfg, all, n + 1);
  }

  lemma AnotherHit(cfg: Config, actions: seq<Action>, j: nat, a: nat, late: Time) returns (all: seq<Action>)
    requires JustWritten(cfg, actions, j, a)
    requires var w, tool := |actions| - 1, Run(cfg, actions[..|actions| - 1]).executions[j].request.tool;
             actions[w].now <= late < actions[w].now + cfg.ttls[tool] as real
    ensures var i := |Run(cfg, actions).executions|;
            && actions <= all && Clocked(all)
            && Served(cfg, all, i, j, a, |actions| - 1, |actions| + 1)
            && Run(cfg, all).executions[i].stage.at == late
  {
    WrittenEntry(cfg, actions, j, a);
    all := AskedAgain(cfg, actions, j, a, late);
    HistoryKept(cfg, actions, all, j, a);
    ClockedOn(actions, all, late);
    WriteMeaning(Run(cfg, actions).executions[j].arguments);
  }

  lemma HistoryKept(cfg: Config, actions: seq<Action>, all: seq<Action>, j: nat, a: nat)
    requires JustWritten(cfg, actions, j, a) && actions <= all
    ensures var w := |actions| - 1;
            && all[w] == actions[w] && WroteAt(cfg, all, w, j, all[w].now)
            && EndedAt(cfg, all, a, j, Run(cfg, actions[..w]).executions[j].ending.value)
  {
    var w := |actions| - 1;
    assert all[..a] == actions[..a] && all[..w] == actions[..w] && all[a] == actions[a] && all[w] == actions[w];
  }

  lemma ClockedOn(actions: seq<Action>, all: seq<Action>, late: Time)
    requires actions != [] && Clocked(actions) && !actions[|actions| - 1].Check? && actions[|actions| - 1].now <= late
    requires actions <= all && |all| == |actions| + 2 && all[|actions|].Check? && all[|actions| + 1].now == late
    ensures Clocked(all)
  {
    forall x, y | 0 <= x < y < |all| && !all[x].Check? && !all[y].Check?
      ensures all[x].now <= all[y].now
    {
      var w := |actions| - 1;
      assert x < |actions|;
      assert x < w ==> actions[x].now <= actions[w].now;
    }
  }

  /** The time-to-live starts at the write. The bound on the age of the hits, counted from the end of the
      coroutine, is exactly the time-to-live and the delay up to the write, in which the breaker issues its
      own commands: no smaller one holds. */
  lemma HitAgeExactly(cfg: Config, actions: seq<Action>, j: nat, a: nat, age: Time)
    requires JustWritten(cfg, actions, j, a)
    ensures var w := |actions| - 1;
            var ttl := cfg.ttls[Run(cfg, actions[..w]).executions[j].request.tool] as real;
            HitsYoungerThan(cfg, actions, |actions| - 1, j, a, age) <==> ttl + (actions[w].now - actions[a].now) <= age
  {
    var w := |actions| - 1;
    var tool := Run(cfg, actions[..w]).executions[j].request.tool;
    var ttl := cfg.ttls[tool] as real;
    if ttl + (actions[w].now - actions[a].now) <= age {
      forall all: seq<Action>, i: nat, l: nat | actions <= all && Served(cfg, all, i, j, a, w, l)
        ensures Run(cfg, all).executions[i].stage.at - actions[a].now < age
      {
        HitWithinTtl(cfg, actions, all, i, j, a, l);
      }
    } else {
      var late := if actions[a].now + age <= actions[w].now then actions[w].now else actions[a].now + age;
      var all := AnotherHit(cfg, actions, j, a, late);
      assert Served(cfg, all, |Run(cfg, actions).executions|, j, a, w, |actions| + 1);
    }
  }

  lemma HitWithinTtl(cfg: Config, actions: seq<Action>, all: seq<Action>, i: nat, j: nat, a: nat, l: nat)
    requires JustWritten(cfg, actions, j, a) && actions <= all && Served(cfg, all, i, j, a, |actions| - 1, l)
    ensures var w := |actions| - 1;
            var tool := Run(cfg, actions[..w]).executions[j].request.tool;
            Run(cfg, all).executions[i].stage.at < actions[w].now + cfg.ttls[tool] as real
  {
    var w := |actions| - 1;
    assert all[..w] == actions[..w] && all[w] == actions[w];
    SourceKept(cfg, all, w, j);
  }

  /** Hence the hits come less than the time-to-live after the tool produced the result, however the run
      goes on, if and only if the result was written at the very moment the coroutine ended. */
  lemma FreshIffPrompt(cfg: Config, actions: seq<Action>, j: nat, a: nat)
    requires JustWritten(cfg, actions, j, a)
    ensures var w := |actions| - 1;
            var ttl := cfg.ttls[Run(cfg, actions[..w]).executions[j].request.tool] as real;
            HitsYoungerThan(cfg, actions, |actions| - 1, j, a, ttl) <==> actions[w].now == actions[a].now
  {
    var w := |actions| - 1;
    HitAgeExactly(cfg, actions, j, a, cfg.ttls[Run(cfg, actions[..w]).executions[j].request.tool] as real);
    assert actions[a].now <= actions[w].now;
  }

  // ---------------------------------------------------------------------------
  // One execution alone
  // ---------------------------------------------------------------------------

  /** The outcome an execution reports to the agent, once it has ended. */
  function Reported(e: Execution): Outcome<ToolResult> {
    var tool := e.request.tool;
    match e.stage
    case Hit(r, _) => Returned(r)
    case Refused => Raised(ToolExecutionError(tool, true))
    case Unkeyed => Raised(OVERFLOW)
    case _ =>
      if e.ending.None? then Raised(ToolExecutionError(tool, false)) else
      match Breaker.Surface(tool, e.ending.value.coro)
      case Returned(p) => Returned(ResultOf(tool, p))
      case Raised(x) => Raised(x)
  }

  function Shared(s: System, tool: string): Stores {
    Stores(s.sets, s.entries, Keys(s, tool))
  }

  /** The outcome of execution `n` and what it left behind. */
  function Result(s: System, n: nat): (Stores, Outcome<ToolResult>, bool)
    requires At(s, n)
  {
    var e := s.executions[n];
    (Shared(s, e.request.tool), Reported(e), Ran(e))
  }

  /** The commands an execution has left at the breaker, at most. */
  function CommandsLeft(s: System, n: nat): nat {
    if At(s, n) && CanCommand(s.executions[n]) then Commands.Left(s.executions[n].stage.pc) else 0
  }

  /** All commands of the breaker in a row. */
  function CallAlone(cfg: Config, s: System, n: nat, coro: Outcome<Payload>, c: Clocks): System
    decreases CommandsLeft(s, n)
  {
    if CommandsLeft(s, n) == 0 then s else
    CallAlone(cfg, Step(cfg, s, Command(n, coro, ClockFor(s.executions[n].stage.pc, c))), n, coro, c)
  }

  function Rest(cfg: Config, s: System, n: nat, coro: Outcome<Payload>, c: Clocks): System {
    Step(cfg, CallAlone(cfg, s, n, coro, c), Write(n, c.store))
  }

  function Alone(cfg: Config, s: System, call: ToolCall, coro: Outcome<Payload>, c: Clocks): System {
    var n := |s.executions|;
    var s1 := Step(cfg, s, Check(call.tool, call.arguments, c.check, c.exec));
    Rest(cfg, Step(cfg, s1, LookUp(n, c.lookup)), n, coro, c)
  }

  function EndingOf(pc: Commands.Pc, coro: Outcome<Payload>, c: Clocks): Option<Ending> {
    if Ended(pc) then Some(Ending(coro, c.settle)) else None
  }

  function ClockFor(pc: Commands.Pc, c: Clocks): Time {
    if Commands.Left(pc) > 8 then c.admit else c.settle
  }

  lemma OneCommand(cfg: Config, s: System, n: nat, coro: Outcome<Payload>, c: Clocks)
    requires At(s, n) && CanCommand(s.executions[n])
    requires s.executions[n].ending == EndingOf(s.executions[n].stage.pc, coro, c)
    ensures var e := s.executions[n];
            var now := ClockFor(e.stage.pc, c);
            var (k, next) := Issued(cfg, s, e, coro, now);
            var s' := Step(cfg, s, Command(n, coro, now));
            && At(s', n) && Shared(s', e.request.tool) == Stores(s.sets, s.entries, k)
            && s'.executions[n] == e.(stage := Calling(next), ending := EndingOf(next, coro, c))
  {
    var e := s.executions[n];
    EndedStep(cfg, Keys(s, e.request.tool), e.stage.pc,
              Commands.Input(ClockFor(e.stage.pc, c), Breaker.VerdictOf(coro)));
  }

  /** Execution `e`, at `pc` with the stores `st`, ends like this if `BreakerCommands.Alone` runs its call. */
  predicate Over(cfg: Config, s': System, n: nat, e: Execution, st: Stores, pc: Commands.Pc,
                 coro: Outcome<Payload>, c: Clocks)
  {
    var (k, awaited) := Commands.Alone(cfg.breaker, st.keys, pc, c.admit, Breaker.VerdictOf(coro), c.settle);
    && At(s', n) && Shared(s', e.request.tool) == st.(keys := k)
    && s'.executions[n] == e.(stage := Calling(Commands.Done(awaited)),
                              ending := EndingOf(Commands.Done(awaited), coro, c))
  }

  lemma OverStep(cfg: Config, s': System, n: nat, e: Execution, e1: Execution, st: Stores, pc: Commands.Pc,
                 k: Breaker.Keys, next: Commands.Pc, coro: Outcome<Payload>, c: Clocks)
    requires !pc.Done? && e1 == e.(stage := e1.stage, ending := e1.ending)
    requires Commands.Command(cfg.breaker, st.keys, pc, Commands.Input(ClockFor(pc, c), Breaker.VerdictOf(coro)))
             == (k, next)
    requires Over(cfg, s', n, e1, st.(keys := k), next, coro, c)
    ensures Over(cfg, s', n, e, st, pc, coro, c)
  {
  }

  /** The commands in a row are those of `BreakerCommands.Alone`. */
  lemma {:induction false} CallAloneIs(cfg: Config, s: System, n: nat, coro: Outcome<Payload>, c: Clocks)
    requires At(s, n) && s.executions[n].stage.Calling?
    requires s.executions[n].ending == EndingOf(s.executions[n].stage.pc, coro, c)
    ensures var e := s.executions[n];
            Over(cfg, CallAlone(cfg, s, n, coro, c), n, e, Shared(s, e.request.tool), e.stage.pc, coro, c)
    decreases CommandsLeft(s, n)
  {
    if CommandsLeft(s, n) > 0 {
      var e := s.executions[n];
      var (k, next) := Issued(cfg, s, e, coro, ClockFor(e.stage.pc, c));
      var s1 := Step(cfg, s, Command(n, coro, ClockFor(e.stage.pc, c)));
      OneCommand(cfg, s, n, coro, c);
      CallAloneIs(cfg, s1, n, coro, c);
      OverStep(cfg, CallAlone(cfg, s1, n, coro, c), n, e, s1.executions[n], Shared(s, e.request.tool), e.stage.pc,
               k, next, coro, c);
    }
  }

  /** What the write makes of a call that is over. */
  lemma Concluded(cfg: Config, s: System, n: nat, awaited: bool, coro: Outcome<Payload>, c: Clocks)
    requires At(s, n) && s.executions[n].stage == Calling(Commands.Done(awaited))
    requires s.executions[n].ending == if awaited then Some(Ending(coro, c.settle)) else None
    ensures var e := s.executions[n];
            var tool := e.request.tool;
            var s' := Step(cfg, s, Write(n, c.store));
            && At(s', n)
            && Result(s', n) ==
               if !awaited then (Shared(s, tool), Raised(ToolExecutionError(tool, false)), false) else
               match Breaker.Surface(tool, coro)
               case Raised(x) => (Shared(s, tool), Raised(x), true)
               case Returned(p) =>
                 var r := ResultOf(tool, p);
                 (Shared(s, tool).(entries := CacheWrite(cfg, s.entries, ToolCall(tool, e.arguments), r, c.store)),
                  Returned(r), true)
  {
  }

  lemma MissedRun(cfg: Config, s: System, n: nat, coro: Outcome<Payload>, c: Clocks)
    requires At(s, n) && s.executions[n].stage == Calling(Commands.GetState) && s.executions[n].ending.None?
    ensures var e := s.executions[n];
            && At(Rest(cfg, s, n, coro, c), n)
            && Result(Rest(cfg, s, n, coro, c), n)
               == RunTool(cfg, Shared(s, e.request.tool), ToolCall(e.request.tool, e.arguments), coro, c)
  {
    var tool := s.executions[n].request.tool;
    var (k, _, awaited) := Breaker.CallEffect(cfg.breaker, tool, Keys(s, tool), coro, c.admit, c.settle);
    var s' := CallAlone(cfg, s, n, coro, c);
    assert At(s', n) && Shared(s', tool) == Stores(s.sets, s.entries, k)
      && s'.executions[n] == s.executions[n].(stage := Calling(Commands.Done(awaited)),
                                              ending := EndingOf(Commands.Done(awaited), coro, c)) by {
      CallAloneIs(cfg, s, n, coro, c);
      Commands.AloneIsCall(cfg.breaker, tool, Keys(s, tool), coro, c.admit, c.settle);
    }
    Concluded(cfg, s', n, awaited, coro, c);
  }

  lemma Checked(cfg: Config, s: System, call: ToolCall, c: Clocks)
    requires call.tool in cfg.registry
    ensures var n := |s.executions|;
            var s1 := Step(cfg, s, Check(call.tool, call.arguments, c.check, c.exec));
            var (stores, admitted) := CheckEffect(cfg, Shared(s, call.tool), call.tool, c, n);
            && At(s1, n) && Shared(s1, call.tool) == stores
            && s1.executions[n] == Execution(Request(call.tool, c.check, c.exec), call.arguments,
                                             if admitted then Admitted else Refused, None)
  {
  }

  lemma Idle(cfg: Config, s: System, n: nat, coro: Outcome<Payload>, c: Clocks)
    requires At(s, n)
    requires var stage := s.executions[n].stage; stage.Refused? || stage.Hit? || stage.Unkeyed?
    ensures Rest(cfg, s, n, coro, c) == s && Step(cfg, s, LookUp(n, c.lookup)) == s
  {
  }

  /** All steps of an execution taken in a row are exactly one call of the executor node. */
  lemma AloneIsExecute(cfg: Config, s: System, call: ToolCall, coro: Outcome<Payload>, c: Clocks)
    requires call.tool in cfg.registry
    ensures var s' := Alone(cfg, s, call, coro, c);
            && At(s', |s.executions|)
            && Result(s', |s.executions|)
               == ExecuteEffect(cfg, Shared(s, call.tool), call, coro, c, |s.executions|)
  {
    var n := |s.executions|;
    var s1 := Step(cfg, s, Check(call.tool, call.arguments, c.check, c.exec));
    Checked(cfg, s, call, c);
    if s1.executions[n].stage.Admitted? {
      var s2 := Step(cfg, s1, LookUp(n, c.lookup));
      assert Shared(s2, call.tool) == Shared(s1, call.tool);
      if s2.executions[n].stage.Calling? {
        MissedRun(cfg, s2, n, coro, c);
      } else {
        Idle(cfg, s2, n, coro, c);
      }
    } else {
      Idle(cfg, s1, n, coro, c);
    }
  }
}
