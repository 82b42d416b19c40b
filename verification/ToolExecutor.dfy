/**
 The tool executor node: limiter, then cache, then breaker around the tool, then cache write.
 */
module ToolExecutor {
  import opened Common
  import opened ToolCache
  import Breaker
  import RateLimiter

  /** What a tool returns when it does not raise. */
  datatype Payload = Payload(success: bool, output: Option<Json>, error: Option<string>)

  datatype ToolCall = ToolCall(tool: string, arguments: Arguments)

  /** The clock readings of one execution, in order; `exec` is the limiter's server time. */
  datatype Clocks = Clocks(check: Time, exec: Time, lookup: Time, admit: Time, settle: Time, store: Time)

  function ResultOf(tool: string, p: Payload): ToolResult {
    ToolResult(tool, p.success, p.output, p.error)
  }

  // ---------------------------------------------------------------------------
  // One execution, as a function
  // ---------------------------------------------------------------------------

  /** The configuration the application wires in. */
  datatype Config = Config(registry: set<string>, limits: map<string, int>, ttls: map<string, int>,
                           breaker: Breaker.Config)

  /** The Redis data behind the three components: the sorted sets, the cache entries, and the four
      breaker keys of the tool in question. */
  datatype Stores = Stores(sets: map<string, RateLimiter.Entry>, entries: Entries, keys: Breaker.Keys)

  function CheckEffect(cfg: Config, s: Stores, tool: string, c: Clocks, m: RateLimiter.Member): (Stores, bool) {
    if tool in cfg.limits then
      (s.(sets := RateLimiter.AfterCheck(s.sets, tool, c.check, c.exec, m)),
       |RateLimiter.InWindow(s.sets, tool, c.check, c.exec)| < cfg.limits[tool])
    else (s, true)
  }

  function CacheWrite(cfg: Config, entries: Entries, call: ToolCall, r: ToolResult, now: Time): Entries {
    if r.success && call.tool in cfg.ttls
    then Store(entries, call.tool, call.arguments, r, cfg.ttls[call.tool], now)
    else entries
  }

  /** What the executor does after a cache miss. */
  function RunTool(cfg: Config, st: Stores, call: ToolCall, coro: Outcome<Payload>, c: Clocks)
    : (Stores, Outcome<ToolResult>, bool)
  {
    var (k, outcome, awaited) := Breaker.CallEffect(cfg.breaker, call.tool, st.keys, coro, c.admit, c.settle);
    match outcome
    case Raised(e) => (st.(keys := k), Raised(e), awaited)
    case Returned(p) =>
      var r := ResultOf(call.tool, p);
      (st.(keys := k, entries := CacheWrite(cfg, st.entries, call, r, c.store)), Returned(r), awaited)
  }

  /** An execution with all three components present and Redis reachable: the stores it leaves, how
      it ends, and whether the tool was run. */
  function ExecuteEffect(cfg: Config, s: Stores, call: ToolCall, coro: Outcome<Payload>, c: Clocks,
                         m: RateLimiter.Member)
    : (Stores, Outcome<ToolResult>, bool)
  {
    if call.tool !in cfg.registry then (s, Raised(ToolExecutionError(call.tool, false)), false) else
    var (s1, admitted) := CheckEffect(cfg, s, call.tool, c, m);
    if !admitted then (s1, Raised(ToolExecutionError(call.tool, true)), false) else
    if Rejects(call.arguments) then (s1, Raised(OVERFLOW), false) else
    match Lookup(s1.entries, call.tool, call.arguments, c.lookup)
    case Some(hit) => (s1, Returned(hit), false)
    case None =>
      RunTool(cfg, s1, call, coro, c)
  }

  /** With a breaker in place a tool that raises aborts the run with a `ToolExecutionError`, and the branch
      that turns an exception into a failed result is dead. No other exception gets out either, save one
      that never reaches the breaker: the cache fails to build a key for a registered and admitted read
      if and only if an integer in the arguments is too large for a float. */
  lemma OnlyToolErrors(cfg: Config, s: Stores, call: ToolCall, coro: Outcome<Payload>, c: Clocks,
                       m: RateLimiter.Member)
    ensures var (_, r, ran) := ExecuteEffect(cfg, s, call, coro, c, m);
            && (ran && coro.Raised? ==> r.Raised? && r.exn.ToolExecutionError?)
            && (r.Raised? && !r.exn.ToolExecutionError? <==>
                  call.tool in cfg.registry && CheckEffect(cfg, s, call.tool, c, m).1 && Rejects(call.arguments))
            && (r.Returned? && ran ==> coro.Returned? && r.value == ResultOf(call.tool, coro.value))
  {
    Breaker.OnlyToolErrorsEscape(cfg.breaker, call.tool, s.keys, coro, c.admit, c.settle);
  }

  /** An execution that ran its tool and ends in a result reports what the payload says, field by field. */
  lemma ResultByFields(cfg: Config, s: Stores, call: ToolCall, coro: Outcome<Payload>, c: Clocks,
                       m: RateLimiter.Member)
    ensures var (_, r, ran) := ExecuteEffect(cfg, s, call, coro, c, m);
            && (ran && coro.Returned? ==>
                  && r.Returned?
                  && r.value.tool == call.tool
                  && r.value.success == coro.value.success
                  && r.value.output == coro.value.output
                  && r.value.error == coro.value.error)
            && (r.Returned? && !ran ==>
                  && KeyOf(call.tool, call.arguments) in s.entries
                  && r.value == s.entries[KeyOf(call.tool, call.arguments)].result)
  {
    Breaker.OnlyToolErrorsEscape(cfg.breaker, call.tool, s.keys, coro, c.admit, c.settle);
  }

  /** Every exception an execution can end in: of a tool that is not registered, of a limit that is reached, of a
      key that cannot be built, of an open circuit, and of the tool itself. Only a limit and a tool's own
      exception can be retryable. */
  lemma RaisesExactly(cfg: Config, s: Stores, call: ToolCall, coro: Outcome<Payload>, c: Clocks,
                      m: RateLimiter.Member)
    ensures var (_, r, ran) := ExecuteEffect(cfg, s, call, coro, c, m);
            var over := call.tool in cfg.limits
                        && |RateLimiter.InWindow(s.sets, call.tool, c.check, c.exec)| >= cfg.limits[call.tool];
            && (call.tool !in cfg.registry ==> r == Raised(ToolExecutionError(call.tool, false)) && !ran)
            && (call.tool in cfg.registry && over ==> r == Raised(ToolExecutionError(call.tool, true)) && !ran)
            && (call.tool in cfg.registry && !over && !Writes(call.arguments) && OverflowsIn(call.arguments) ==>
                  r == Raised(OtherError("OverflowError")) && !ran)
            && (r.Raised? && !ran && call.tool in cfg.registry && !over ==>
                  r == Raised(ToolExecutionError(call.tool, false))
                  || (r == Raised(OtherError("OverflowError"))
                      && !Writes(call.arguments) && OverflowsIn(call.arguments)))
            && (ran && coro.Raised? ==>
                  r == Raised(if coro.exn.ToolExecutionError? then coro.exn else ToolExecutionError(call.tool, true)))
  {
    WriteMeaning(call.arguments);
    Breaker.OnlyToolErrorsEscape(cfg.breaker, call.tool, s.keys, coro, c.admit, c.settle);
  }

  /** The tool is run exactly if it is registered, its limit is not reached, the call is a write or has a key
      without an unexpired entry, and its circuit lets the call through. */
  lemma RunsExactly(cfg: Config, s: Stores, call: ToolCall, coro: Outcome<Payload>, c: Clocks,
                    m: RateLimiter.Member)
    ensures ExecuteEffect(cfg, s, call, coro, c, m).2 <==>
              var key := KeyOf(call.tool, call.arguments);
              && call.tool in cfg.registry
              && (call.tool in cfg.limits ==>
                    |RateLimiter.InWindow(s.sets, call.tool, c.check, c.exec)| < cfg.limits[call.tool])
              && (Writes(call.arguments)
                  || (!OverflowsIn(call.arguments) && (key in s.entries ==> s.entries[key].expiresAt <= c.lookup)))
              && !(s.keys.state == Breaker.OPEN && c.admit - s.keys.openedAt < cfg.breaker.recoveryTimeout)
  {
    WriteMeaning(call.arguments);
    Breaker.OnlyToolErrorsEscape(cfg.breaker, call.tool, s.keys, coro, c.admit, c.settle);
  }

  /** The cache gains an entry exactly for a payload that reports success, of a call that is no write, to a tool
      with a positive time-to-live; the entry holds the payload, field by field. Nothing else changes. */
  lemma StoredByFields(cfg: Config, s: Stores, call: ToolCall, coro: Outcome<Payload>, c: Clocks,
                       m: RateLimiter.Member)
    ensures var (s', _, ran) := ExecuteEffect(cfg, s, call, coro, c, m);
            s'.entries ==
            if ran && coro.Returned? && coro.value.success && !Writes(call.arguments)
               && call.tool in cfg.ttls && cfg.ttls[call.tool] > 0
            then s.entries[KeyOf(call.tool, call.arguments) :=
                             CacheEntry(ToolResult(call.tool, true, coro.value.output, coro.value.error),
                                        c.store + cfg.ttls[call.tool] as real)]
            else s.entries
  {
    WriteMeaning(call.arguments);
    Breaker.OnlyToolErrorsEscape(cfg.breaker, call.tool, s.keys, coro, c.admit, c.settle);
  }

  // ---------------------------------------------------------------------------
  // The node
  // ---------------------------------------------------------------------------

  /** Each component may be missing, in which case its step is skipped. */
  class Executor {
    const cfg: Config
    const limiter: RateLimiter.ToolRateLimiter?
    const cache: ToolResultCache?
    const breaker: Breaker.CircuitBreaker?

    constructor (cfg: Config, limiter: RateLimiter.ToolRateLimiter?, cache: ToolResultCache?,
                 breaker: Breaker.CircuitBreaker?)
      ensures this.cfg == cfg && this.limiter == limiter && this.cache == cache && this.breaker == breaker
    {
      this.cfg, this.limiter, this.cache, this.breaker := cfg, limiter, cache, breaker;
    }

    ghost function Footprint(): set<object>
    {
      (if limiter == null then {} else {limiter.redis as object})
      + (if cache == null then {} else {cache as object})
      + (if breaker == null then {} else {breaker.redis as object})
    }

    /** Everything is configured and reachable, as in the application's container. */
    ghost predicate Wired()
      reads Footprint()
    {
      && limiter != null && limiter.limits == cfg.limits && limiter.redis.up
      && cache != null && cache.up
      && breaker != null && breaker.cfg == cfg.breaker && breaker.redis.up
    }

    ghost function View(tool: string): Stores
      requires limiter != null && cache != null && breaker != null
      reads Footprint()
    {
      Stores(limiter.redis.sets, cache.entries, Breaker.Load(breaker.redis.data, tool))
    }

    method Execute(call: ToolCall, coro: Outcome<Payload>, c: Clocks, m: RateLimiter.Member)
      returns (r: Outcome<ToolResult>, ran: bool)
      modifies Footprint()
      ensures old(Wired()) ==>
                && Wired()
                && (View(call.tool), r, ran) == ExecuteEffect(cfg, old(View(call.tool)), call, coro, c, m)
      ensures breaker != null ==>
                forall t :: t != call.tool ==>
                  Breaker.Load(breaker.redis.data, t) == Breaker.Load(old(breaker.redis.data), t)
      ensures r.Raised? && !r.exn.ToolExecutionError? ==>
                cache != null && Rejects(call.arguments) && !ran && r.exn == OVERFLOW
      ensures ran && coro.Returned? ==>
                r == Returned(ToolResult(call.tool, coro.value.success, coro.value.output, coro.value.error))
      ensures breaker == null && ran && coro.Raised? ==>
                r.Returned? && r.value.tool == call.tool && !r.value.success && r.value.error.Some?
    {
      if call.tool !in cfg.registry {
        return Raised(ToolExecutionError(call.tool, false)), false;
      }
      if limiter != null {
        var refusal := limiter.Check(call.tool, c.check, c.exec, m);
        if refusal.Some? {
          return Raised(refusal.value), false;
        }
      }
      if cache != null {
        var cached := cache.Get(call.tool, call.arguments, c.lookup);
        match cached {
          case Raised(e) => return Raised(e), false;
          case Returned(Some(hit)) => return Returned(hit), false;
          case Returned(None) =>
        }
      }
      r, ran := RunAndStore(call, coro, c);
    }

    /** What follows a cache miss. */
    method RunAndStore(call: ToolCall, coro: Outcome<Payload>, c: Clocks)
      returns (r: Outcome<ToolResult>, ran: bool)
      requires cache == null || !Rejects(call.arguments)
      modifies Footprint()
      ensures old(Wired()) ==>
                && Wired()
                && (View(call.tool), r, ran) == RunTool(cfg, old(View(call.tool)), call, coro, c)
      ensures breaker != null ==>
                forall t :: t != call.tool ==>
                  Breaker.Load(breaker.redis.data, t) == Breaker.Load(old(breaker.redis.data), t)
      ensures r.Raised? ==> r.exn.ToolExecutionError?
      ensures ran && coro.Returned? ==>
                r == Returned(ToolResult(call.tool, coro.value.success, coro.value.output, coro.value.error))
      ensures breaker == null ==> ran
      ensures breaker == null && coro.Raised? ==>
                r.Returned? && r.value.tool == call.tool && !r.value.success && r.value.error.Some?
    {
      var payload: Payload;
      if breaker != null {
        var outcome;
        outcome, ran := breaker.Call(call.tool, coro, c.admit, c.settle);
        match outcome {
          case Raised(e) => return Raised(e), ran;
          case Returned(p) => payload := p;
        }
      } else {
        ran := true;
        match coro {
          case Raised(OtherError(message)) =>
            return Returned(ToolResult(call.tool, false, None, Some(message))), ran;
          case Raised(ToolExecutionError(_, _)) =>
            return Returned(ToolResult(call.tool, false, None, Some("tool failed"))), ran;
          case Returned(p) => payload := p;
        }
      }
      var result := ResultOf(call.tool, payload);
      if cache != null && result.success {
        if call.tool in cfg.ttls {
          var failed := cache.Set(call.tool, call.arguments, result, cfg.ttls[call.tool], c.store);
          assert failed.None?;
        }
      }
      r := Returned(result);
    }
  }
}
