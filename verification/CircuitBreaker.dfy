/**
 The per-tool circuit breaker and the four Redis keys it keeps for each tool.

 The pure functions say what one call does to the keys of its own tool; the class
 issues the individual Redis commands and is proved against them.
 */
module Breaker {
  import opened Common

  datatype CircuitState = CLOSED | OPEN | HALF_OPEN

  datatype Config = Config(failureThreshold: int, recoveryTimeout: Time, successThreshold: int)

  /** The decoded contents of the four keys of one tool. */
  datatype Keys = Keys(state: CircuitState, failures: int, successes: int, openedAt: Time)

  /** What a tool that was never called reads as. */
  const FRESH := Keys(CLOSED, 0, 0, 0.0)

  // ---------------------------------------------------------------------------
  // One call, as a function of the tool's keys
  // ---------------------------------------------------------------------------

  /** The part of a call before the coroutine is awaited. `None` means fail fast;
      otherwise the result is the snapshot the call will settle by. */
  function Admit(cfg: Config, k: Keys, now: Time): (Option<CircuitState>, Keys) {
    if k.state == OPEN then
      if now - k.openedAt >= cfg.recoveryTimeout
      then (Some(HALF_OPEN), k.(state := HALF_OPEN, successes := 0))
      else (None, k)
    else (Some(k.state), k)
  }

  function OnSuccess(cfg: Config, k: Keys, prev: CircuitState): Keys {
    if prev == HALF_OPEN then
      if k.successes + 1 >= cfg.successThreshold
      then k.(state := CLOSED, failures := 0, successes := 0)
      else k.(successes := k.successes + 1)
    else k.(failures := 0)
  }

  function OnFailure(cfg: Config, k: Keys, prev: CircuitState, now: Time): Keys {
    if prev == HALF_OPEN then
      k.(state := OPEN, openedAt := now, successes := 0)
    else if k.failures + 1 >= cfg.failureThreshold then
      k.(state := OPEN, openedAt := now, failures := 0)
    else
      k.(failures := k.failures + 1)
  }

  /** How the breaker rates a coroutine: any returned payload is good, whatever it says, and a
      `ToolExecutionError` raised by the tool itself is neither good nor bad. */
  datatype Verdict = Good | Neutral | Bad

  function VerdictOf<T>(coro: Outcome<T>): Verdict {
    match coro
    case Returned(_) => Good
    case Raised(ToolExecutionError(_, _)) => Neutral
    case Raised(OtherError(_)) => Bad
  }

  /** The part of a call after the coroutine has ended. */
  function Settle(cfg: Config, k: Keys, prev: CircuitState, v: Verdict, later: Time): Keys {
    match v
    case Good => OnSuccess(cfg, k, prev)
    case Neutral => k
    case Bad => OnFailure(cfg, k, prev, later)
  }

  /** What the caller sees of an awaited coroutine. */
  function Surface<T>(tool: string, coro: Outcome<T>): Outcome<T> {
    match coro
    case Raised(OtherError(_)) => Raised(ToolExecutionError(tool, true))
    case _ => coro
  }

  /** A whole uninterrupted call: the new keys, the result, and whether the coroutine was awaited. */
  function CallEffect<T>(cfg: Config, tool: string, k: Keys, coro: Outcome<T>, now: Time, later: Time)
    : (Keys, Outcome<T>, bool)
  {
    var (snapshot, k1) := Admit(cfg, k, now);
    match snapshot
    case None => (k1, Raised(ToolExecutionError(tool, false)), false)
    case Some(prev) => (Settle(cfg, k1, prev, VerdictOf(coro), later), Surface(tool, coro), true)
  }

  /** Through a breaker a call can end in no exception other than `ToolExecutionError`; one that
      is not retryable is either the coroutine's own or the fail-fast of an open circuit. */
  lemma OnlyToolErrorsEscape<T>(cfg: Config, tool: string, k: Keys, coro: Outcome<T>, now: Time, later: Time)
    ensures var (_, r, awaited) := CallEffect(cfg, tool, k, coro, now, later);
            && (r.Raised? ==> r.exn.ToolExecutionError?)
            && (r.Raised? && !r.exn.retryable ==> !awaited || r == coro)
            && (!awaited <==> k.state == OPEN && now - k.openedAt < cfg.recoveryTimeout)
            && (r.Returned? ==> r == coro)
  {
    match coro
    case Returned(_) =>
    case Raised(ToolExecutionError(_, _)) =>
    case Raised(OtherError(_)) =>
  }

  /** What each outcome of an awaited coroutine does to a closed circuit: a returned payload clears the
      failure counter, whatever it says; any exception but a `ToolExecutionError` counts, opens the circuit
      at the threshold, and comes out as a retryable `ToolExecutionError`; a `ToolExecutionError` of the
      coroutine changes nothing and comes out as it is. */
  lemma ClosedCall<T>(cfg: Config, tool: string, k: Keys, coro: Outcome<T>, now: Time, later: Time)
    requires k.state == CLOSED
    ensures CallEffect(cfg, tool, k, coro, now, later) ==
            match coro
            case Returned(_) => (Keys(CLOSED, 0, k.successes, k.openedAt), coro, true)
            case Raised(ToolExecutionError(_, _)) => (k, coro, true)
            case Raised(OtherError(_)) =>
              (if k.failures + 1 >= cfg.failureThreshold then Keys(OPEN, 0, k.successes, later)
               else Keys(CLOSED, k.failures + 1, k.successes, k.openedAt),
               Raised(ToolExecutionError(tool, true)), true)
  {
    match coro
    case Returned(_) =>
    case Raised(ToolExecutionError(_, _)) =>
    case Raised(OtherError(_)) =>
  }

  /** And to a probe, which counts successes from zero if the circuit was open until this call. */
  lemma ProbeCall<T>(cfg: Config, tool: string, k: Keys, coro: Outcome<T>, now: Time, later: Time)
    requires k.state == HALF_OPEN || (k.state == OPEN && now - k.openedAt >= cfg.recoveryTimeout)
    ensures var before := if k.state == OPEN then 0 else k.successes;
            CallEffect(cfg, tool, k, coro, now, later) ==
            match coro
            case Returned(_) =>
              (if before + 1 >= cfg.successThreshold then Keys(CLOSED, 0, 0, k.openedAt)
               else Keys(HALF_OPEN, k.failures, before + 1, k.openedAt), coro, true)
            case Raised(ToolExecutionError(_, _)) => (Keys(HALF_OPEN, k.failures, before, k.openedAt), coro, true)
            case Raised(OtherError(_)) =>
              (Keys(OPEN, k.failures, 0, later), Raised(ToolExecutionError(tool, true)), true)
  {
    match coro
    case Returned(_) =>
    case Raised(ToolExecutionError(_, _)) =>
    case Raised(OtherError(_)) =>
  }

  /** An open circuit within its timeout fails fast and stays as it is. */
  lemma RefusedCall<T>(cfg: Config, tool: string, k: Keys, coro: Outcome<T>, now: Time, later: Time)
    requires k.state == OPEN && now - k.openedAt < cfg.recoveryTimeout
    ensures CallEffect(cfg, tool, k, coro, now, later) == (k, Raised(ToolExecutionError(tool, false)), false)
  {
  }

  // ---------------------------------------------------------------------------
  // Key strings
  // ---------------------------------------------------------------------------

  const SUFFIXES: set<string> := {"state", "failures", "successes", "opened_at"}

  function Key(tool: string, suffix: string): string {
    "circuit:" + tool + ":" + suffix
  }

  /** A key is "circuit:", the tool's name, a colon, and the suffix. */
  lemma KeyLayout(tool: string, suffix: string)
    ensures var key, n := Key(tool, suffix), |tool|;
            && |key| == 9 + n + |suffix| && key[..8] == "circuit:" && key[8..8 + n] == tool && key[8 + n] == ':'
            && key[9 + n..] == suffix
  {
  }

  lemma KeyEnd(tool: string, suffix: string, back: nat)
    requires 1 <= back <= |suffix|
    ensures |Key(tool, suffix)| == |tool| + |suffix| + 9
    ensures Key(tool, suffix)[|tool| + |suffix| + 9 - back] == suffix[|suffix| - back]
    ensures Key(tool, suffix)[8..8 + |tool|] == tool
    ensures Key(tool, suffix)[9 + |tool|..] == suffix
  {
  }

  /** Two tools never share a key, even if their names contain colons. */
  lemma KeyInjective(t1: string, s1: string, t2: string, s2: string)
    requires s1 in SUFFIXES && s2 in SUFFIXES
    requires Key(t1, s1) == Key(t2, s2)
    ensures t1 == t2 && s1 == s2
  {
    KeyEnd(t1, s1, 1);
    KeyEnd(t2, s2, 1);
    KeyEnd(t1, s1, 3);
    KeyEnd(t2, s2, 3);
    assert "state"[4] == 'e' && "failures"[7] == 's' && "successes"[8] == 's' && "opened_at"[8] == 't';
    assert "failures"[5] == 'r' && "successes"[6] == 's';
    assert s1 == s2;
  }

  // ---------------------------------------------------------------------------
  // The Redis side
  // ---------------------------------------------------------------------------

  /** A stored string, by what the breaker's parsers make of it. */
  datatype Value = StateText(state: CircuitState) | IntText(n: int) | FloatText(t: Time) | Garbage

  datatype Reply = Failed | Missing | Found(value: Value)

  function ReadState(data: map<string, Value>, tool: string): CircuitState {
    var key := Key(tool, "state");
    if key in data && data[key].StateText? then data[key].state else CLOSED
  }

  function ReadInt(data: map<string, Value>, tool: string, suffix: string): int {
    var key := Key(tool, suffix);
    if key in data && data[key].IntText? then data[key].n else 0
  }

  function ReadFloat(data: map<string, Value>, tool: string, suffix: string): Time {
    var key := Key(tool, suffix);
    if key in data && data[key].FloatText? then data[key].t else 0.0
  }

  /** The keys of a tool as the breaker's helpers read them. */
  function Load(data: map<string, Value>, tool: string): Keys {
    Keys(ReadState(data, tool), ReadInt(data, tool, "failures"), ReadInt(data, tool, "successes"),
         ReadFloat(data, tool, "opened_at"))
  }

  /** A tool without keys is closed with clean counters. */
  lemma UnknownToolIsFresh(data: map<string, Value>, tool: string)
    requires forall suffix <- SUFFIXES :: Key(tool, suffix) !in data
    ensures Load(data, tool) == Keys(CLOSED, 0, 0, 0.0)
  {
  }

  /** Which kind of value each of the four keys holds. */
  predicate Fits(suffix: string, v: Value) {
    || (suffix == "state" && v.StateText?)
    || (suffix in {"failures", "successes"} && v.IntText?)
    || (suffix == "opened_at" && v.FloatText?)
  }

  function WithField(k: Keys, suffix: string, v: Value): Keys
    requires Fits(suffix, v)
  {
    match v
    case StateText(s) => k.(state := s)
    case IntText(n) => if suffix == "failures" then k.(failures := n) else k.(successes := n)
    case FloatText(t) => k.(openedAt := t)
  }

  /** Writing one key of one tool changes that field of that tool and nothing of any other tool. */
  lemma WriteOne(data: map<string, Value>, tool: string, suffix: string, v: Value, other: string)
    requires Fits(suffix, v)
    ensures Load(data[Key(tool, suffix) := v], other)
            == if other == tool then WithField(Load(data, tool), suffix, v) else Load(data, other)
  {
    forall t: string, s: string | s in SUFFIXES && Key(t, s) == Key(tool, suffix)
      ensures t == tool && s == suffix
    {
      KeyInjective(t, s, tool, suffix);
    }
  }

  /** The two Redis commands the breaker uses. `up` is false while Redis is unreachable. */
  class Redis {
    var up: bool
    var data: map<string, Value>

    constructor ()
      ensures up && data == map[]
    {
      up, data := true, map[];
    }

    method Get(key: string) returns (r: Reply)
      ensures r == if !up then Failed else if key in data then Found(data[key]) else Missing
    {
      r := if !up then Failed else if key in data then Found(data[key]) else Missing;
    }

    method Set(key: string, v: Value) returns (ok: bool)
      modifies this`data
      ensures ok == up
      ensures data == if up then old(data)[key := v] else old(data)
    {
      if up {
        data := data[key := v];
      }
      ok := up;
    }
  }

  class CircuitBreaker {
    const redis: Redis
    const cfg: Config

    constructor (redis: Redis, cfg: Config)
      ensures this.redis == redis && this.cfg == cfg
    {
      this.redis, this.cfg := redis, cfg;
    }

    method GetState(tool: string) returns (s: CircuitState)
      ensures s == if redis.up then ReadState(redis.data, tool) else CLOSED
    {
      var raw := redis.Get(Key(tool, "state"));
      s := if raw.Found? && raw.value.StateText? then raw.value.state else CLOSED;
    }

    method GetInt(tool: string, suffix: string) returns (n: int)
      ensures n == if redis.up then ReadInt(redis.data, tool, suffix) else 0
    {
      var raw := redis.Get(Key(tool, suffix));
      n := if raw.Found? && raw.value.IntText? then raw.value.n else 0;
    }

    method GetFloat(tool: string, suffix: string) returns (t: Time)
      ensures t == if redis.up then ReadFloat(redis.data, tool, suffix) else 0.0
    {
      var raw := redis.Get(Key(tool, suffix));
      t := if raw.Found? && raw.value.FloatText? then raw.value.t else 0.0;
    }

    /** `_set_state`, `_set_int` and `_set_float`: one write, silently lost while Redis is down. */
    method Put(tool: string, suffix: string, v: Value)
      requires Fits(suffix, v)
      modifies redis`data
      ensures !redis.up ==> redis.data == old(redis.data)
      ensures redis.up ==> Load(redis.data, tool) == WithField(Load(old(redis.data), tool), suffix, v)
      ensures forall t :: t != tool ==> Load(redis.data, t) == Load(old(redis.data), t)
    {
      var _ := redis.Set(Key(tool, suffix), v);
      forall t | redis.up
        ensures Load(redis.data, t)
                == if t == tool then WithField(Load(old(redis.data), tool), suffix, v) else Load(old(redis.data), t)
      {
        WriteOne(old(redis.data), tool, suffix, v, t);
      }
    }

    method RecordSuccess(tool: string, prev: CircuitState)
      modifies redis`data
      ensures !redis.up ==> redis.data == old(redis.data)
      ensures redis.up ==> Load(redis.data, tool) == OnSuccess(cfg, Load(old(redis.data), tool), prev)
      ensures forall t :: t != tool ==> Load(redis.data, t) == Load(old(redis.data), t)
    {
      if prev == HALF_OPEN {
        var successes := GetInt(tool, "successes");
        successes := successes + 1;
        Put(tool, "successes", IntText(successes));
        if successes >= cfg.successThreshold {
          Put(tool, "state", StateText(CLOSED));
          Put(tool, "failures", IntText(0));
          Put(tool, "successes", IntText(0));
        }
      } else {
        Put(tool, "failures", IntText(0));
      }
    }

    method RecordFailure(tool: string, prev: CircuitState, now: Time)
      modifies redis`data
      ensures !redis.up ==> redis.data == old(redis.data)
      ensures redis.up ==> Load(redis.data, tool) == OnFailure(cfg, Load(old(redis.data), tool), prev, now)
      ensures forall t :: t != tool ==> Load(redis.data, t) == Load(old(redis.data), t)
    {
      if prev == HALF_OPEN {
        Put(tool, "state", StateText(OPEN));
        Put(tool, "opened_at", FloatText(now));
        Put(tool, "successes", IntText(0));
      } else {
        var failures := GetInt(tool, "failures");
        failures := failures + 1;
        Put(tool, "failures", IntText(failures));
        if failures >= cfg.failureThreshold {
          Put(tool, "state", StateText(OPEN));
          Put(tool, "opened_at", FloatText(now));
          Put(tool, "failures", IntText(0));
        }
      }
    }

    /** One call with nothing else running: `coro` is how the awaited coroutine ends, `now` and
        `later` are the clock readings before and after it. With Redis down it passes through. */
    method Call<T>(tool: string, coro: Outcome<T>, now: Time, later: Time)
      returns (r: Outcome<T>, awaited: bool)
      modifies redis`data
      ensures redis.up ==>
                (Load(redis.data, tool), r, awaited)
                == CallEffect(cfg, tool, Load(old(redis.data), tool), coro, now, later)
      ensures !redis.up ==> awaited && r == Surface(tool, coro) && redis.data == old(redis.data)
      ensures forall t :: t != tool ==> Load(redis.data, t) == Load(old(redis.data), t)
    {
      var state := GetState(tool);
      if state == OPEN {
        var openedAt := GetFloat(tool, "opened_at");
        if now - openedAt >= cfg.recoveryTimeout {
          Put(tool, "state", StateText(HALF_OPEN));
          Put(tool, "successes", IntText(0));
          state := HALF_OPEN;
        } else {
          return Raised(ToolExecutionError(tool, false)), false;
        }
      }
      awaited := true;
      r := Surface(tool, coro);
      match coro {
        case Returned(_) => RecordSuccess(tool, state);
        case Raised(ToolExecutionError(_, _)) =>
        case Raised(OtherError(_)) => RecordFailure(tool, state, later);
      }
    }
  }
}
