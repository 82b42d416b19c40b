/**
 The breaker of one tool at the granularity of single Redis commands: every get and set of every
 call may interleave with those of every other call. Redis itself does not fail here.
 */
module BreakerCommands {
  import opened Common
  import opened Breaker
  import BreakerInterleaving

  /** Where a call is: the command it issues next, with what it has read so far. The clock is read before
      the command that stamps an opening is sent; `CheckTimeout` is no command but reads the clock, with
      the stamp found earlier at hand. */
  datatype Pc =
    | GetState
    | GetOpenedAt
    | CheckTimeout(openedAt: Time)
    | SetHalfOpen
    | ZeroSuccesses
    | Awaiting(snapshot: CircuitState)
      // success of a probe
    | GetSuccesses
    | PutSuccesses(n: int)
    | CloseState
    | CloseFailures
    | CloseSuccesses
      // success otherwise
    | ZeroFailures
      // failure of a probe
    | ReopenState
    | ReopenStamp(t: Time)
    | ReopenSuccesses
      // failure otherwise
    | GetFailures
    | PutFailures(n: int)
    | TripState
    | TripStamp(t: Time)
    | TripFailures
    | Done(awaited: bool)

  /** What the environment supplies to a step: the clock, and the verdict if a coroutine ends. */
  datatype Input = Input(now: Time, verdict: Verdict)

  function Command(cfg: Config, k: Keys, pc: Pc, i: Input): (Keys, Pc) {
    match pc
    case GetState => (k, if k.state == OPEN then GetOpenedAt else Awaiting(k.state))
    case GetOpenedAt => (k, CheckTimeout(k.openedAt))
    case CheckTimeout(t) => (k, if i.now - t >= cfg.recoveryTimeout then SetHalfOpen else Done(false))
    case SetHalfOpen => (k.(state := HALF_OPEN), ZeroSuccesses)
    case ZeroSuccesses => (k.(successes := 0), Awaiting(HALF_OPEN))
    case Awaiting(snapshot) =>
      (k, match i.verdict
          case Good => if snapshot == HALF_OPEN then GetSuccesses else ZeroFailures
          case Neutral => Done(true)
          case Bad => if snapshot == HALF_OPEN then ReopenState else GetFailures)
    case GetSuccesses => (k, PutSuccesses(k.successes + 1))
    case PutSuccesses(n) => (k.(successes := n), if n >= cfg.successThreshold then CloseState else Done(true))
    case CloseState => (k.(state := CLOSED), CloseFailures)
    case CloseFailures => (k.(failures := 0), CloseSuccesses)
    case CloseSuccesses => (k.(successes := 0), Done(true))
    case ZeroFailures => (k.(failures := 0), Done(true))
    case ReopenState => (k.(state := OPEN), ReopenStamp(i.now))
    case ReopenStamp(t) => (k.(openedAt := t), ReopenSuccesses)
    case ReopenSuccesses => (k.(successes := 0), Done(true))
    case GetFailures => (k, PutFailures(k.failures + 1))
    case PutFailures(n) => (k.(failures := n), if n >= cfg.failureThreshold then TripState else Done(true))
    case TripState => (k.(state := OPEN), TripStamp(i.now))
    case TripStamp(t) => (k.(openedAt := t), TripFailures)
    case TripFailures => (k.(failures := 0), Done(true))
    case Done(_) => (k, pc)
  }

  /** The commands a call has left, at most. */
  function Left(pc: Pc): nat {
    match pc
    case GetState => 13 case GetOpenedAt => 12 case CheckTimeout(_) => 11 case SetHalfOpen => 10
    case ZeroSuccesses => 9
    case Awaiting(_) => 8
    case GetSuccesses | GetFailures => 7
    case PutSuccesses(_) | PutFailures(_) => 6
    case CloseState | TripState | ReopenState => 5
    case CloseFailures | TripStamp(_) | ReopenStamp(_) => 4
    case CloseSuccesses | TripFailures | ReopenSuccesses => 3
    case ZeroFailures => 1
    case Done(_) => 0
  }

  /** A call run to its end with nothing in between: `now` until the coroutine ends, then `later`. */
  function Alone(cfg: Config, k: Keys, pc: Pc, now: Time, v: Verdict, later: Time): (Keys, bool)
    decreases Left(pc)
  {
    if pc.Done? then (k, pc.awaited) else
    var clock := if Left(pc) > 8 then now else later;
    var (k', pc') := Command(cfg, k, pc, Input(clock, v));
    Alone(cfg, k', pc', now, v, later)
  }

  lemma ProbeSucceedsAlone(cfg: Config, k: Keys, now: Time, later: Time)
    ensures Alone(cfg, k, GetSuccesses, now, Good, later) == (OnSuccess(cfg, k, HALF_OPEN), true)
  {
    var n := k.successes + 1;
    assert Alone(cfg, k, GetSuccesses, now, Good, later) == Alone(cfg, k, PutSuccesses(n), now, Good, later);
    var k1 := k.(successes := n, state := CLOSED);
    assert Alone(cfg, k1, CloseFailures, now, Good, later) == (k1.(failures := 0, successes := 0), true);
  }

  lemma ProbeFailsAlone(cfg: Config, k: Keys, now: Time, later: Time)
    ensures Alone(cfg, k, ReopenState, now, Bad, later) == (OnFailure(cfg, k, HALF_OPEN, later), true)
  {
    var k1 := k.(state := OPEN);
    assert Alone(cfg, k1, ReopenStamp(later), now, Bad, later) == (k1.(openedAt := later, successes := 0), true);
  }

  lemma CallFailsAlone(cfg: Config, k: Keys, now: Time, later: Time)
    ensures Alone(cfg, k, GetFailures, now, Bad, later) == (OnFailure(cfg, k, CLOSED, later), true)
  {
    var n := k.failures + 1;
    assert Alone(cfg, k, GetFailures, now, Bad, later) == Alone(cfg, k, PutFailures(n), now, Bad, later);
    var k1 := k.(failures := n, state := OPEN);
    assert Alone(cfg, k1, TripStamp(later), now, Bad, later) == (k1.(openedAt := later, failures := 0), true);
  }

  lemma AloneSettles(cfg: Config, k: Keys, prev: CircuitState, now: Time, v: Verdict, later: Time)
    ensures Alone(cfg, k, Awaiting(prev), now, v, later) == (Settle(cfg, k, prev, v, later), true)
  {
    if v == Good && prev == HALF_OPEN {
      ProbeSucceedsAlone(cfg, k, now, later);
    } else if v == Bad && prev == HALF_OPEN {
      ProbeFailsAlone(cfg, k, now, later);
    } else if v == Bad {
      CallFailsAlone(cfg, k, now, later);
    }
  }

  /** Run alone, the commands of a call add up to the call. */
  lemma AloneIsCall<T>(cfg: Config, tool: string, k: Keys, coro: Outcome<T>, now: Time, later: Time)
    ensures var (k', _, awaited) := CallEffect(cfg, tool, k, coro, now, later);
            Alone(cfg, k, GetState, now, VerdictOf(coro), later) == (k', awaited)
  {
    var (snapshot, k1) := Admit(cfg, k, now);
    var v := VerdictOf(coro);
    if k.state == OPEN && snapshot.Some? {
      assert Alone(cfg, k, GetState, now, v, later)
          == Alone(cfg, k.(state := HALF_OPEN), ZeroSuccesses, now, v, later)
          == Alone(cfg, k1, Awaiting(HALF_OPEN), now, v, later);
    }
    if snapshot.Some? {
      AloneSettles(cfg, k1, snapshot.value, now, v, later);
    }
  }

  // ---------------------------------------------------------------------------
  // Any number of calls, any schedule
  // ---------------------------------------------------------------------------

  /** The shared keys, and where every call of the tool is that has ever arrived. */
  datatype System = System(keys: Keys, calls: multiset<Pc>)

  const EMPTY := System(FRESH, multiset{})

  /** A new call arrives, or one of the calls at `pc` issues its next command. */
  datatype Action = Arrive | Next(pc: Pc, input: Input)

  function Step(cfg: Config, s: System, a: Action): System {
    match a
    case Arrive => s.(calls := s.calls + multiset{GetState})
    case Next(pc, input) =>
      if pc in s.calls then
        var (k, next) := Command(cfg, s.keys, pc, input);
        System(k, s.calls - multiset{pc} + multiset{next})
      else s
  }

  function Run(cfg: Config, s: System, schedule: seq<Action>): System {
    if schedule == [] then s
    else Step(cfg, Run(cfg, s, schedule[..|schedule| - 1]), schedule[|schedule| - 1])
  }

  lemma RunSnoc(cfg: Config, s: System, schedule: seq<Action>, a: Action)
    ensures Run(cfg, s, schedule + [a]) == Step(cfg, Run(cfg, s, schedule), a)
  {
    assert (schedule + [a])[..|schedule|] == schedule;
  }

  lemma {:induction false} RunAppend(cfg: Config, s: System, a: seq<Action>, b: seq<Action>)
    ensures Run(cfg, s, a + b) == Run(cfg, Run(cfg, s, a), b)
  {
    if b == [] {
      assert a + b == a;
    } else {
      assert (a + b)[..|a + b| - 1] == a + b[..|b| - 1];
      RunAppend(cfg, s, a, b[..|b| - 1]);
    }
  }

  lemma RunCons(cfg: Config, s: System, a: Action, rest: seq<Action>)
    ensures Run(cfg, s, [a] + rest) == Run(cfg, Step(cfg, s, a), rest)
  {
    RunSnoc(cfg, s, [], a);
    assert [] + [a] == [a];
    RunAppend(cfg, s, [a], rest);
  }

  /** The call wrote a success count at the threshold and has yet to write it back to zero. */
  predicate OwesSuccessReset(pc: Pc) {
    pc.CloseState? || pc.CloseFailures? || pc.CloseSuccesses?
  }

  predicate OwesFailureReset(pc: Pc) {
    pc.TripState? || pc.TripStamp? || pc.TripFailures?
  }

  ghost predicate Accounted(cfg: Config, s: System) {
    && s.keys.failures >= 0
    && s.keys.successes >= 0
    && (forall pc <- s.calls :: (pc.PutSuccesses? || pc.PutFailures?) ==> pc.n > 0)
    && (s.keys.successes >= cfg.successThreshold ==> exists pc :: pc in s.calls && OwesSuccessReset(pc))
    && (s.keys.failures >= cfg.failureThreshold ==> exists pc :: pc in s.calls && OwesFailureReset(pc))
  }

  lemma SignsStep(cfg: Config, s: System, pc: Pc, input: Input)
    requires pc in s.calls && Accounted(cfg, s)
    ensures var s' := Step(cfg, s, Next(pc, input));
            && s'.keys.failures >= 0 && s'.keys.successes >= 0
            && forall p <- s'.calls :: (p.PutSuccesses? || p.PutFailures?) ==> p.n > 0
  {
    var s' := Step(cfg, s, Next(pc, input));
    forall p | p in s'.calls && (p.PutSuccesses? || p.PutFailures?)
      ensures p.n > 0
    {
      if p in s.calls {
      } else {
        assert p == Command(cfg, s.keys, pc, input).1;
      }
    }
  }

  /** A command after which a counter is at its threshold owes the reset, or found it there and was not
      the one to reset it. */
  lemma ResetCommand(cfg: Config, k: Keys, pc: Pc, input: Input)
    requires cfg.successThreshold > 0 && cfg.failureThreshold > 0
    ensures var (k', next) := Command(cfg, k, pc, input);
            && (k'.successes >= cfg.successThreshold ==>
                  OwesSuccessReset(next) || (k.successes >= cfg.successThreshold && !OwesSuccessReset(pc)))
            && (k'.failures >= cfg.failureThreshold ==>
                  OwesFailureReset(next) || (k.failures >= cfg.failureThreshold && !OwesFailureReset(pc)))
  {
  }

  lemma OthersRemain(calls: multiset<Pc>, pc: Pc, next: Pc, p: Pc)
    requires pc in calls
    ensures next in calls - multiset{pc} + multiset{next}
    ensures p in calls && p != pc ==> p in calls - multiset{pc} + multiset{next}
  {
  }

  lemma ResetStep(cfg: Config, s: System, pc: Pc, input: Input)
    requires cfg.successThreshold > 0 && cfg.failureThreshold > 0 && pc in s.calls && Accounted(cfg, s)
    ensures var s' := Step(cfg, s, Next(pc, input));
            && (s'.keys.successes >= cfg.successThreshold ==> exists p :: p in s'.calls && OwesSuccessReset(p))
            && (s'.keys.failures >= cfg.failureThreshold ==> exists p :: p in s'.calls && OwesFailureReset(p))
  {
    var (k', next) := Command(cfg, s.keys, pc, input);
    ResetCommand(cfg, s.keys, pc, input);
    OthersRemain(s.calls, pc, next, pc);
    if k'.successes >= cfg.successThreshold && !OwesSuccessReset(next) {
      var p :| p in s.calls && OwesSuccessReset(p);
      OthersRemain(s.calls, pc, next, p);
    }
    if k'.failures >= cfg.failureThreshold && !OwesFailureReset(next) {
      var p :| p in s.calls && OwesFailureReset(p);
      OthersRemain(s.calls, pc, next, p);
    }
  }

  lemma AccountedStep(cfg: Config, s: System, a: Action)
    requires cfg.successThreshold > 0 && cfg.failureThreshold > 0 && Accounted(cfg, s)
    ensures Accounted(cfg, Step(cfg, s, a))
  {
    var s' := Step(cfg, s, a);
    if a.Next? && a.pc in s.calls {
      SignsStep(cfg, s, a.pc, a.input);
      ResetStep(cfg, s, a.pc, a.input);
    } else {
      assert forall pc <- s.calls :: pc in s'.calls;
    }
  }

  /** No call is running. */
  ghost predicate Quiet(s: System) {
    forall pc <- s.calls :: pc.Done?
  }

  /** Under every schedule a counter is at or above its threshold only while some call that wrote it
      still owes the reset, so whenever no call is running both counters are below. */
  lemma {:induction false} CountersAccounted(cfg: Config, s: System, schedule: seq<Action>)
    requires cfg.successThreshold > 0 && cfg.failureThreshold > 0 && Accounted(cfg, s)
    ensures var s' := Run(cfg, s, schedule);
            && Accounted(cfg, s')
            && (Quiet(s') ==> 0 <= s'.keys.failures < cfg.failureThreshold
                              && 0 <= s'.keys.successes < cfg.successThreshold)
  {
    assert Quiet(Run(cfg, s, schedule)) ==>
      forall pc <- Run(cfg, s, schedule).calls :: !OwesSuccessReset(pc) && !OwesFailureReset(pc);
    if schedule != [] {
      CountersAccounted(cfg, s, schedule[..|schedule| - 1]);
      AccountedStep(cfg, Run(cfg, s, schedule[..|schedule| - 1]), schedule[|schedule| - 1]);
    }
  }

  // ---------------------------------------------------------------------------
  // When the recovery timeout is respected
  // ---------------------------------------------------------------------------

  /** Every clock reading of the schedule lies in `[from, to)`. */
  ghost predicate Within(schedule: seq<Action>, from: Time, to: Time) {
    forall i :: 0 <= i < |schedule| && schedule[i].Next? ==> from <= schedule[i].input.now < to
  }

  /** The calls that will read the success counter, and may add to it. */
  function Readers(s: System): nat {
    s.calls[Awaiting(HALF_OPEN)] + s.calls[GetSuccesses]
  }

  /** With these and the calls about to clear the counter, the successes still to come. */
  function Coming(s: System): nat {
    Readers(s) + s.calls[ZeroSuccesses]
  }

  /** Some order of the successes to come completes `success_threshold`: they build on the counter, if
      a reader can carry it past a clearing, on a count some call has read and not yet written, or on
      zero. */
  ghost predicate CanComplete(cfg: Config, s: System) {
    || Coming(s) >= cfg.successThreshold
    || (Readers(s) > 0 && s.keys.successes + Coming(s) >= cfg.successThreshold)
    || (exists n :: PutSuccesses(n) in s.calls && n + Coming(s) >= cfg.successThreshold)
  }

  /** The call is not about to write another state than OPEN, and neither goes by a stamp from before
      `from` nor is about to write one. */
  predicate Harmless(pc: Pc, from: Time) {
    match pc
    case SetHalfOpen | CloseState => false
    case CheckTimeout(t) => from <= t
    case ReopenStamp(t) => from <= t
    case TripStamp(t) => from <= t
    case _ => true
  }

  /** The circuit, open since `from`, has its stamp, every call is harmless, and the successes to come do
      not suffice to close it. */
  ghost predicate Sealed(cfg: Config, s: System, from: Time) {
    && s.keys.state == OPEN
    && from <= s.keys.openedAt
    && (forall pc <- s.calls :: Harmless(pc, from))
    && !CanComplete(cfg, s)
  }

  /** Some schedule with every clock reading before the end of the timeout leaves OPEN. */
  ghost predicate CanLeaveEarly(cfg: Config, s: System, from: Time) {
    exists schedule :: Within(schedule, from, from + cfg.recoveryTimeout) && Run(cfg, s, schedule).keys.state != OPEN
  }

  /** The action starts a coroutine. */
  predicate Starts(cfg: Config, s: System, a: Action) {
    a.Next? && a.pc in s.calls && !a.pc.Awaiting? && Command(cfg, s.keys, a.pc, a.input).1.Awaiting?
  }

  /** Some schedule with every clock reading before the end of the timeout starts a coroutine. */
  ghost predicate CanStartEarly(cfg: Config, s: System, from: Time) {
    exists schedule, a ::
      Within(schedule + [a], from, from + cfg.recoveryTimeout) && Starts(cfg, Run(cfg, s, schedule), a)
  }

  // Sealed circuits stay sealed.

  /** How often a call stands at `p` after one has moved from `pc` to `next`. */
  lemma Recount(calls: multiset<Pc>, pc: Pc, next: Pc, p: Pc)
    requires pc in calls
    ensures (calls - multiset{pc} + multiset{next})[p]
            == calls[p] - (if p == pc then 1 else 0) + (if p == next then 1 else 0)
  {
  }

  /** The success of a call, as far as it is still to come. */
  function Share(pc: Pc): int {
    if pc == Awaiting(HALF_OPEN) || pc == GetSuccesses || pc == ZeroSuccesses then 1 else 0
  }

  lemma Moves(calls: multiset<Pc>, pc: Pc, next: Pc, k: Keys, k': Keys)
    requires pc in calls
    ensures var s, s' := System(k, calls), System(k', calls - multiset{pc} + multiset{next});
            && Coming(s') == Coming(s) - Share(pc) + Share(next)
            && Readers(s') == Readers(s) - Share(pc) + Share(next)
                              + (if pc == ZeroSuccesses then 1 else 0) - (if next == ZeroSuccesses then 1 else 0)
  {
    Recount(calls, pc, next, Awaiting(HALF_OPEN));
    Recount(calls, pc, next, GetSuccesses);
    Recount(calls, pc, next, ZeroSuccesses);
  }

  /** What a command does to the success of its call. */
  lemma ShareStep(cfg: Config, k: Keys, pc: Pc, input: Input)
    requires !pc.SetHalfOpen? && (pc.GetState? ==> k.state == OPEN)
    ensures var next := Command(cfg, k, pc, input).1;
            && next != ZeroSuccesses
            && Share(next) == if pc == GetSuccesses || (pc == Awaiting(HALF_OPEN) && input.verdict != Good)
                              then 0 else Share(pc)
  {
  }

  /** What it does to the successes to come. */
  lemma ComingStep(cfg: Config, s: System, pc: Pc, input: Input)
    requires pc in s.calls && !pc.SetHalfOpen?
    requires pc.GetState? ==> s.keys.state == OPEN
    ensures var s' := Step(cfg, s, Next(pc, input));
            var ended := pc == Awaiting(HALF_OPEN) && input.verdict != Good;
            && Coming(s') == Coming(s) - (if pc == GetSuccesses || ended then 1 else 0)
            && Readers(s') == Readers(s) - (if pc == GetSuccesses || ended then 1 else 0)
                              + (if pc == ZeroSuccesses then 1 else 0)
  {
    var (k', next) := Command(cfg, s.keys, pc, input);
    ShareStep(cfg, s.keys, pc, input);
    Moves(s.calls, pc, next, s.keys, k');
  }

  lemma HeldStep(cfg: Config, s: System, pc: Pc, input: Input, n: int)
    requires pc in s.calls && PutSuccesses(n) in Step(cfg, s, Next(pc, input)).calls
    ensures PutSuccesses(n) in s.calls || (pc == GetSuccesses && n == s.keys.successes + 1)
  {
  }

  lemma CompleteStep(cfg: Config, s: System, pc: Pc, input: Input)
    requires cfg.successThreshold > 0 && !CanComplete(cfg, s)
    requires pc in s.calls && !pc.SetHalfOpen?
    requires pc.GetState? ==> s.keys.state == OPEN
    ensures !CanComplete(cfg, Step(cfg, s, Next(pc, input)))
  {
    var s' := Step(cfg, s, Next(pc, input));
    ComingStep(cfg, s, pc, input);
    forall n | PutSuccesses(n) in s'.calls
      ensures n + Coming(s') < cfg.successThreshold
    {
      HeldStep(cfg, s, pc, input, n);
    }
  }

  /** A command of a harmless call, on a stamped circuit and before the end of the timeout. */
  lemma SealedCommand(cfg: Config, k: Keys, from: Time, pc: Pc, input: Input)
    requires k.state == OPEN && from <= k.openedAt && from <= input.now < from + cfg.recoveryTimeout
    requires Harmless(pc, from) && (pc.PutSuccesses? ==> pc.n < cfg.successThreshold)
    ensures var (k', next) := Command(cfg, k, pc, input);
            && k'.state == OPEN && from <= k'.openedAt
            && Harmless(next, from) && !next.ZeroSuccesses?
            && (next.Awaiting? ==> pc.ZeroSuccesses?)
  {
  }

  lemma Replaced(calls: multiset<Pc>, pc: Pc, next: Pc)
    ensures forall p <- calls - multiset{pc} + multiset{next} :: p == next || p in calls
  {
  }

  lemma SealedNext(cfg: Config, s: System, from: Time, pc: Pc, input: Input)
    requires cfg.successThreshold > 0 && Sealed(cfg, s, from) && pc in s.calls
    requires from <= input.now < from + cfg.recoveryTimeout
    ensures Sealed(cfg, Step(cfg, s, Next(pc, input)), from)
    ensures ZeroSuccesses !in s.calls ==>
              ZeroSuccesses !in Step(cfg, s, Next(pc, input)).calls && !Starts(cfg, s, Next(pc, input))
  {
    CompleteStep(cfg, s, pc, input);
    SealedCommand(cfg, s.keys, from, pc, input);
    Replaced(s.calls, pc, Command(cfg, s.keys, pc, input).1);
  }

  lemma SealedArrive(cfg: Config, s: System, from: Time)
    requires Sealed(cfg, s, from)
    ensures Sealed(cfg, Step(cfg, s, Arrive), from)
    ensures ZeroSuccesses in Step(cfg, s, Arrive).calls <==> ZeroSuccesses in s.calls
  {
    assert forall n :: PutSuccesses(n) in Step(cfg, s, Arrive).calls ==> PutSuccesses(n) in s.calls;
  }

  lemma SealedStep(cfg: Config, s: System, from: Time, a: Action)
    requires cfg.successThreshold > 0 && Sealed(cfg, s, from)
    requires a.Next? ==> from <= a.input.now < from + cfg.recoveryTimeout
    ensures Sealed(cfg, Step(cfg, s, a), from)
    ensures ZeroSuccesses !in s.calls ==> ZeroSuccesses !in Step(cfg, s, a).calls && !Starts(cfg, s, a)
  {
    match a
    case Arrive => SealedArrive(cfg, s, from);
    case Next(pc, input) =>
      if pc in s.calls {
        SealedNext(cfg, s, from, pc, input);
      }
  }

  lemma {:induction false} StaysSealed(cfg: Config, s: System, from: Time, schedule: seq<Action>)
    requires cfg.successThreshold > 0 && Sealed(cfg, s, from)
    requires Within(schedule, from, from + cfg.recoveryTimeout)
    ensures Sealed(cfg, Run(cfg, s, schedule), from)
    ensures ZeroSuccesses !in s.calls ==> ZeroSuccesses !in Run(cfg, s, schedule).calls
  {
    if schedule != [] {
      var past := schedule[..|schedule| - 1];
      StaysSealed(cfg, s, from, past);
      SealedStep(cfg, Run(cfg, s, past), from, schedule[|schedule| - 1]);
    }
  }

  // All others can be left.

  ghost predicate NonNegative(s: System) {
    s.keys.successes >= 0 && forall n :: PutSuccesses(n) in s.calls ==> n > 0
  }

  /** Commands left to the successes to come. */
  function Rest(s: System): nat {
    4 * s.calls[ZeroSuccesses] + 3 * s.calls[Awaiting(HALF_OPEN)] + 2 * s.calls[GetSuccesses]
    + |s.calls| - s.calls[Done(true)]
  }

  /** The command at `pc`, with a success if it ends a coroutine, brings the circuit closer to closing. */
  ghost predicate Progress(cfg: Config, s: System, pc: Pc, now: Time) {
    var s' := Step(cfg, s, Next(pc, Input(now, Good)));
    && pc in s.calls
    && (CloseState in s'.calls || (CanComplete(cfg, s') && NonNegative(s') && Rest(s') < Rest(s)))
  }

  lemma ClearFirst(cfg: Config, s: System, now: Time)
    requires cfg.successThreshold > 0 && NonNegative(s) && ZeroSuccesses in s.calls
    requires Coming(s) >= cfg.successThreshold
             || exists n :: PutSuccesses(n) in s.calls && n + Coming(s) >= cfg.successThreshold
    ensures Progress(cfg, s, ZeroSuccesses, now)
  {
    var s' := Step(cfg, s, Next(ZeroSuccesses, Input(now, Good)));
    assert forall n :: PutSuccesses(n) in s.calls <==> PutSuccesses(n) in s'.calls;
  }

  lemma ReadNext(cfg: Config, s: System, now: Time) returns (pc: Pc)
    requires cfg.successThreshold > 0 && NonNegative(s)
    requires Readers(s) > 0 && s.keys.successes + Coming(s) >= cfg.successThreshold
    ensures Progress(cfg, s, pc, now)
  {
    pc := if Awaiting(HALF_OPEN) in s.calls then Awaiting(HALF_OPEN) else GetSuccesses;
    var i := Input(now, Good);
    var s' := Step(cfg, s, Next(pc, i));
    ComingStep(cfg, s, pc, i);
    if pc == GetSuccesses {
      assert PutSuccesses(s.keys.successes + 1) in s'.calls;
    }
    forall n | PutSuccesses(n) in s'.calls
      ensures n > 0
    {
      HeldStep(cfg, s, pc, i, n);
    }
  }

  lemma WriteNext(cfg: Config, s: System, now: Time, n: int)
    requires cfg.successThreshold > 0 && NonNegative(s) && PutSuccesses(n) in s.calls
    requires n >= cfg.successThreshold || (Readers(s) > 0 && n + Coming(s) >= cfg.successThreshold)
    ensures Progress(cfg, s, PutSuccesses(n), now)
  {
    var s' := Step(cfg, s, Next(PutSuccesses(n), Input(now, Good)));
    assert forall m :: PutSuccesses(m) in s'.calls ==> PutSuccesses(m) in s.calls;
    if n >= cfg.successThreshold {
      assert CloseState in s'.calls;
    }
  }

  lemma SomeProgress(cfg: Config, s: System, now: Time) returns (pc: Pc)
    requires cfg.successThreshold > 0 && NonNegative(s) && CanComplete(cfg, s)
    ensures Progress(cfg, s, pc, now)
  {
    if Readers(s) > 0 && s.keys.successes + Coming(s) >= cfg.successThreshold {
      pc := ReadNext(cfg, s, now);
    } else if ZeroSuccesses in s.calls {
      ClearFirst(cfg, s, now);
      pc := ZeroSuccesses;
    } else {
      var n :| PutSuccesses(n) in s.calls && n + Coming(s) >= cfg.successThreshold;
      WriteNext(cfg, s, now, n);
      pc := PutSuccesses(n);
    }
  }

  /** Every command of the schedule reads the clock as `now`. */
  ghost predicate AllAt(schedule: seq<Action>, now: Time) {
    forall a <- schedule :: a.Next? ==> a.input.now == now
  }

  lemma {:induction false} Completes(cfg: Config, s: System, now: Time) returns (schedule: seq<Action>)
    requires cfg.successThreshold > 0 && NonNegative(s) && CanComplete(cfg, s)
    ensures AllAt(schedule, now) && CloseState in Run(cfg, s, schedule).calls
    decreases Rest(s)
  {
    var pc := SomeProgress(cfg, s, now);
    var a := Next(pc, Input(now, Good));
    var s' := Step(cfg, s, a);
    var rest := [];
    if CloseState !in s'.calls {
      rest := Completes(cfg, s', now);
    }
    RunCons(cfg, s, a, rest);
    schedule := [a] + rest;
  }

  lemma OneStep(cfg: Config, k: Keys, others: multiset<Pc>, pc: Pc, i: Input)
    ensures var (k', next) := Command(cfg, k, pc, i);
            Step(cfg, System(k, others + multiset{pc}), Next(pc, i)) == System(k', others + multiset{next})
  {
    assert others + multiset{pc} - multiset{pc} == others;
  }

  /** A schedule at time `t` brings the system to these keys, with one call at `pc`. */
  ghost predicate Brings(cfg: Config, s: System, schedule: seq<Action>, t: Time,
                         k: Keys, others: multiset<Pc>, pc: Pc)
  {
    AllAt(schedule, t) && Run(cfg, s, schedule) == System(k, others + multiset{pc})
  }

  /** `n` commands of one call with nothing in between, all with the same input. */
  function After(cfg: Config, k: Keys, pc: Pc, i: Input, n: nat): (Keys, Pc)
    decreases n
  {
    if n == 0 then (k, pc) else
    var (k', next) := Command(cfg, k, pc, i);
    After(cfg, k', next, i, n - 1)
  }

  lemma ThenOne(cfg: Config, s: System, schedule: seq<Action>, i: Input, k: Keys, others: multiset<Pc>, pc: Pc,
                k': Keys, next: Pc)
    requires Brings(cfg, s, schedule, i.now, k, others, pc) && Command(cfg, k, pc, i) == (k', next)
    ensures Brings(cfg, s, schedule + [Next(pc, i)], i.now, k', others, next)
  {
    OneStep(cfg, k, others, pc, i);
    RunSnoc(cfg, s, schedule, Next(pc, i));
  }

  lemma {:induction false} Then(cfg: Config, s: System, schedule: seq<Action>, i: Input, k: Keys, others: multiset<Pc>,
                                pc: Pc, n: nat)
    returns (longer: seq<Action>)
    requires Brings(cfg, s, schedule, i.now, k, others, pc)
    ensures Brings(cfg, s, longer, i.now, After(cfg, k, pc, i, n).0, others, After(cfg, k, pc, i, n).1)
    decreases n, 1
  {
    if n == 0 {
      longer := schedule;
    } else {
      longer := ThenMore(cfg, s, schedule, i, k, others, pc, Command(cfg, k, pc, i).0, Command(cfg, k, pc, i).1, n);
    }
  }

  lemma {:induction false} ThenMore(cfg: Config, s: System, schedule: seq<Action>, i: Input, k: Keys,
                                    others: multiset<Pc>, pc: Pc, k': Keys, next: Pc, n: nat)
    returns (longer: seq<Action>)
    requires Brings(cfg, s, schedule, i.now, k, others, pc) && Command(cfg, k, pc, i) == (k', next) && n > 0
    ensures Brings(cfg, s, longer, i.now, After(cfg, k, pc, i, n).0, others, After(cfg, k, pc, i, n).1)
    decreases n, 0
  {
    ThenOne(cfg, s, schedule, i, k, others, pc, k', next);
    longer := Then(cfg, s, schedule + [Next(pc, i)], i, k', others, next, n - 1);
    assert After(cfg, k, pc, i, n) == After(cfg, k', next, i, n - 1);
  }

  /** The same for a call that arrives first. */
  lemma NewCall(cfg: Config, s: System, schedule: seq<Action>, i: Input, k: Keys, others: multiset<Pc>, n: nat)
    returns (longer: seq<Action>)
    requires AllAt(schedule, i.now) && Run(cfg, s, schedule) == System(k, others)
    ensures Brings(cfg, s, longer, i.now, After(cfg, k, GetState, i, n).0, others, After(cfg, k, GetState, i, n).1)
  {
    RunSnoc(cfg, s, schedule, Arrive);
    longer := Then(cfg, s, schedule + [Arrive], i, k, others, GetState, n);
  }

  /** The commands of a call that finds the circuit open with a stamp that is a timeout old. */
  lemma PassingCheck(cfg: Config, k: Keys, i: Input)
    requires k.state == OPEN && i.now - k.openedAt >= cfg.recoveryTimeout
    ensures After(cfg, k, GetState, i, 3) == (k, SetHalfOpen)
  {
    assert After(cfg, k, GetState, i, 3) == After(cfg, k, GetOpenedAt, i, 2)
        == After(cfg, k, CheckTimeout(k.openedAt), i, 1);
  }

  /** A call that arrives and finds the circuit open with a stamp that is a timeout old. */
  lemma NewProbe(cfg: Config, s: System, now: Time) returns (schedule: seq<Action>)
    requires s.keys.state == OPEN && now - s.keys.openedAt >= cfg.recoveryTimeout
    ensures AllAt(schedule, now)
    ensures Run(cfg, s, schedule) == System(s.keys, s.calls + multiset{SetHalfOpen})
  {
    var i := Input(now, Good);
    PassingCheck(cfg, s.keys, i);
    schedule := NewCall(cfg, s, [], i, s.keys, s.calls, 3);
  }

  /** The write of another state than OPEN, after a schedule. */
  lemma LastWrite(cfg: Config, s: System, schedule: seq<Action>, now: Time, pc: Pc) returns (longer: seq<Action>)
    requires AllAt(schedule, now) && pc in Run(cfg, s, schedule).calls && (pc.SetHalfOpen? || pc.CloseState?)
    ensures AllAt(longer, now) && Run(cfg, s, longer).keys.state != OPEN
  {
    var a := Next(pc, Input(now, Good));
    RunSnoc(cfg, s, schedule, a);
    longer := schedule + [a];
  }

  /** A time before the end of the timeout at which a stamp from before `from` is a timeout old. */
  function TooSoon(cfg: Config, from: Time, t: Time): Time {
    if from <= t + cfg.recoveryTimeout then t + cfg.recoveryTimeout else from
  }

  /** The stored stamp is too old: a new call passes the check. */
  lemma LeaveByStamp(cfg: Config, s: System, from: Time) returns (schedule: seq<Action>, now: Time)
    requires cfg.recoveryTimeout > 0.0 && s.keys.state == OPEN && s.keys.openedAt < from
    ensures now == TooSoon(cfg, from, s.keys.openedAt)
    ensures AllAt(schedule, now) && Run(cfg, s, schedule).keys.state != OPEN
  {
    now := TooSoon(cfg, from, s.keys.openedAt);
    var probe := NewProbe(cfg, s, now);
    assert SetHalfOpen in Run(cfg, s, probe).calls;
    schedule := LastWrite(cfg, s, probe, now, SetHalfOpen);
  }

  lemma StampWritten(cfg: Config, s: System, pc: Pc, i: Input)
    requires pc in s.calls && (pc.ReopenStamp? || pc.TripStamp?)
    ensures Step(cfg, s, Next(pc, i)).keys == s.keys.(openedAt := pc.t)
  {
  }

  /** A call is about to write a stamp that is too old. */
  lemma LeaveByLateStamp(cfg: Config, s: System, from: Time, pc: Pc) returns (schedule: seq<Action>, now: Time)
    requires cfg.recoveryTimeout > 0.0 && s.keys.state == OPEN && pc in s.calls
    requires (pc.ReopenStamp? || pc.TripStamp?) && pc.t < from
    ensures AllAt(schedule, now) && from <= now < from + cfg.recoveryTimeout
    ensures Run(cfg, s, schedule).keys.state != OPEN
  {
    now := TooSoon(cfg, from, pc.t);
    var a := Next(pc, Input(now, Good));
    StampWritten(cfg, s, pc, a.input);
    var rest, _ := LeaveByStamp(cfg, Step(cfg, s, a), from);
    RunCons(cfg, s, a, rest);
    schedule := [a] + rest;
  }

  /** A call goes by a stamp that is too old. */
  lemma LeaveByLateCheck(cfg: Config, s: System, from: Time, pc: Pc) returns (schedule: seq<Action>, now: Time)
    requires cfg.recoveryTimeout > 0.0 && s.keys.state == OPEN && pc in s.calls
    requires pc.CheckTimeout? && pc.openedAt < from
    ensures AllAt(schedule, now) && from <= now < from + cfg.recoveryTimeout
    ensures Run(cfg, s, schedule).keys.state != OPEN
  {
    now := TooSoon(cfg, from, pc.openedAt);
    var a := Next(pc, Input(now, Good));
    RunCons(cfg, s, a, []);
    assert SetHalfOpen in Step(cfg, s, a).calls;
    schedule := LastWrite(cfg, s, [a] + [], now, SetHalfOpen);
  }

  lemma LeaveByCompleting(cfg: Config, s: System, from: Time) returns (schedule: seq<Action>)
    requires cfg.successThreshold > 0 && NonNegative(s) && CanComplete(cfg, s)
    ensures AllAt(schedule, from) && Run(cfg, s, schedule).keys.state != OPEN
  {
    var complete := Completes(cfg, s, from);
    schedule := LastWrite(cfg, s, complete, from, CloseState);
  }

  lemma LeaveByCall(cfg: Config, s: System, from: Time, pc: Pc) returns (schedule: seq<Action>, now: Time)
    requires cfg.recoveryTimeout > 0.0 && s.keys.state == OPEN && pc in s.calls && !Harmless(pc, from)
    ensures AllAt(schedule, now) && from <= now < from + cfg.recoveryTimeout
    ensures Run(cfg, s, schedule).keys.state != OPEN
  {
    if pc.CheckTimeout? {
      schedule, now := LeaveByLateCheck(cfg, s, from, pc);
    } else if pc.ReopenStamp? || pc.TripStamp? {
      schedule, now := LeaveByLateStamp(cfg, s, from, pc);
    } else {
      now := from;
      schedule := LastWrite(cfg, s, [], now, pc);
    }
  }

  lemma LeaveAt(cfg: Config, s: System, from: Time) returns (schedule: seq<Action>, now: Time)
    requires cfg.successThreshold > 0 && cfg.recoveryTimeout > 0.0 && NonNegative(s)
    requires s.keys.state == OPEN && !Sealed(cfg, s, from)
    ensures AllAt(schedule, now) && from <= now < from + cfg.recoveryTimeout
    ensures Run(cfg, s, schedule).keys.state != OPEN
  {
    if s.keys.openedAt < from {
      schedule, now := LeaveByStamp(cfg, s, from);
    } else if CanComplete(cfg, s) {
      now := from;
      schedule := LeaveByCompleting(cfg, s, from);
    } else {
      var pc :| pc in s.calls && !Harmless(pc, from);
      schedule, now := LeaveByCall(cfg, s, from, pc);
    }
  }

  /** Any number of calls, any schedule of their commands: an open circuit can be left before the timeout
      is over if and only if it is not sealed. */
  lemma EarlyExitExactly(cfg: Config, s: System, from: Time)
    requires cfg.successThreshold > 0 && cfg.recoveryTimeout > 0.0 && NonNegative(s) && s.keys.state == OPEN
    ensures CanLeaveEarly(cfg, s, from) <==> !Sealed(cfg, s, from)
  {
    if Sealed(cfg, s, from) {
      forall schedule | Within(schedule, from, from + cfg.recoveryTimeout)
        ensures Run(cfg, s, schedule).keys.state == OPEN
      {
        StaysSealed(cfg, s, from, schedule);
      }
    } else {
      var schedule, now := LeaveAt(cfg, s, from);
      assert Within(schedule, from, from + cfg.recoveryTimeout);
    }
  }

  lemma StartAt(cfg: Config, s: System, from: Time) returns (schedule: seq<Action>, a: Action)
    requires cfg.successThreshold > 0 && cfg.recoveryTimeout > 0.0 && NonNegative(s)
    requires s.keys.state == OPEN && (!Sealed(cfg, s, from) || ZeroSuccesses in s.calls)
    ensures Within(schedule + [a], from, from + cfg.recoveryTimeout) && Starts(cfg, Run(cfg, s, schedule), a)
  {
    if ZeroSuccesses in s.calls {
      schedule, a := [], Next(ZeroSuccesses, Input(from, Good));
    } else {
      var now;
      schedule, now := LeaveAt(cfg, s, from);
      var i := Input(now, Good);
      schedule := NewCall(cfg, s, schedule, i, Run(cfg, s, schedule).keys, Run(cfg, s, schedule).calls, 0);
      a := Next(GetState, i);
    }
  }

  /** And a coroutine can be started before the timeout is over if and only if the circuit is not sealed
      or a probe has still to clear the success counter. */
  lemma EarlyStartExactly(cfg: Config, s: System, from: Time)
    requires cfg.successThreshold > 0 && cfg.recoveryTimeout > 0.0 && NonNegative(s) && s.keys.state == OPEN
    ensures CanStartEarly(cfg, s, from) <==> !Sealed(cfg, s, from) || ZeroSuccesses in s.calls
  {
    if Sealed(cfg, s, from) && ZeroSuccesses !in s.calls {
      forall schedule, a | Within(schedule + [a], from, from + cfg.recoveryTimeout)
        ensures !Starts(cfg, Run(cfg, s, schedule), a)
      {
        assert forall i :: 0 <= i < |schedule| ==> (schedule + [a])[i] == schedule[i];
        assert (schedule + [a])[|schedule|] == a;
        StaysSealed(cfg, s, from, schedule);
        SealedStep(cfg, Run(cfg, s, schedule), from, a);
      }
    } else {
      var schedule, a := StartAt(cfg, s, from);
    }
  }

  // ---------------------------------------------------------------------------
  // Circuits that are not sealed do occur
  // ---------------------------------------------------------------------------

  /** The commands of a call that finds the circuit closed and fails: up to reading the failure counter,
      and on to its end or to the stamp of the opening. */
  lemma FailingCall(cfg: Config, k: Keys, i: Input)
    requires k.state == CLOSED && i.verdict == Bad
    ensures var n := k.failures + 1;
            if n < cfg.failureThreshold then After(cfg, k, GetState, i, 4) == (k.(failures := n), Done(true))
            else After(cfg, k, GetState, i, 5) == (k.(state := OPEN, failures := n), TripStamp(i.now))
  {
    var n := k.failures + 1;
    var k1 := k.(failures := n);
    var left := if n < cfg.failureThreshold then 1 else 2;
    assert After(cfg, k, GetState, i, left + 3) == After(cfg, k, Awaiting(CLOSED), i, left + 2)
        == After(cfg, k, GetFailures, i, left + 1) == After(cfg, k, PutFailures(n), i, left);
    if n >= cfg.failureThreshold {
      assert After(cfg, k, PutFailures(n), i, 2) == After(cfg, k1, TripState, i, 1);
    }
  }

  /** `n` calls that fail at time `t`, one after the other. */
  lemma {:induction false} Failures(cfg: Config, s: System, t: Time, n: nat)
    returns (schedule: seq<Action>, done: multiset<Pc>)
    requires n < cfg.failureThreshold && s == EMPTY
    ensures AllAt(schedule, t) && (forall pc <- done :: pc == Done(true))
    ensures Run(cfg, s, schedule) == System(FRESH.(failures := n), done)
  {
    if n == 0 {
      schedule, done := [], multiset{};
    } else {
      var before, others := Failures(cfg, s, t, n - 1);
      var k, i := FRESH.(failures := n - 1), Input(t, Bad);
      FailingCall(cfg, k, i);
      schedule := NewCall(cfg, s, before, i, k, others, 4);
      done := others + multiset{Done(true)};
    }
  }

  /** The first opening, at time `t`: OPEN is written and its stamp is not. */
  lemma Tripping(cfg: Config, s: System, t: Time) returns (schedule: seq<Action>, done: multiset<Pc>)
    requires cfg.failureThreshold > 0 && s == EMPTY
    ensures forall pc <- done :: pc == Done(true)
    ensures Brings(cfg, s, schedule, t, Keys(OPEN, cfg.failureThreshold, 0, 0.0), done, TripStamp(t))
  {
    var before;
    before, done := Failures(cfg, s, t, cfg.failureThreshold - 1);
    var k, i := FRESH.(failures := cfg.failureThreshold - 1), Input(t, Bad);
    FailingCall(cfg, k, i);
    schedule := NewCall(cfg, s, before, i, k, done, 5);
  }

  /** OPEN is written before its stamp. From a fresh start, whatever the thresholds, the circuit comes to
      be open since `t` with the writer about to stamp it; until then a call goes by the stamp of the
      opening before, and a coroutine can be started within the timeout of the new one. */
  lemma StampLagIsReachable(cfg: Config, t: Time)
    requires cfg.failureThreshold > 0 && cfg.successThreshold > 0 && cfg.recoveryTimeout > 0.0 && t > 0.0
    ensures exists schedule ::
              var s := Run(cfg, EMPTY, schedule);
              && AllAt(schedule, t) && s.keys.state == OPEN && TripStamp(t) in s.calls
              && Coming(s) == 0 && CanStartEarly(cfg, s, t)
  {
    var schedule, done := Tripping(cfg, EMPTY, t);
    var s := Run(cfg, EMPTY, schedule);
    EarlyStartExactly(cfg, s, t);
    assert TripStamp(t) in s.calls;
    assert done[Awaiting(HALF_OPEN)] == done[GetSuccesses] == done[ZeroSuccesses] == 0;
  }

  /** The commands of a probe that fails, from its write of HALF_OPEN to its end. */
  lemma FailingProbe(cfg: Config, k: Keys, i: Input)
    requires k.state == OPEN && i.verdict == Bad
    ensures After(cfg, k, SetHalfOpen, i, 6) == (k.(openedAt := i.now, successes := 0), Done(true))
  {
    var k1 := k.(state := HALF_OPEN);
    var k2 := k1.(successes := 0);
    var k3 := k2.(state := OPEN);
    var k4 := k3.(openedAt := i.now);
    assert After(cfg, k, SetHalfOpen, i, 6) == After(cfg, k1, ZeroSuccesses, i, 5)
        == After(cfg, k2, Awaiting(HALF_OPEN), i, 4) == After(cfg, k2, ReopenState, i, 3)
        == After(cfg, k3, ReopenStamp(i.now), i, 2) == After(cfg, k4, ReopenSuccesses, i, 1);
  }

  /** Two calls pass the timeout check, and one goes on to fail. */
  lemma OneOfTwoFails(cfg: Config, s: System, now: Time) returns (schedule: seq<Action>)
    requires s.keys.state == OPEN && now - s.keys.openedAt >= cfg.recoveryTimeout
    ensures Brings(cfg, s, schedule, now, s.keys.(openedAt := now, successes := 0),
                   s.calls + multiset{SetHalfOpen}, Done(true))
  {
    var i := Input(now, Bad);
    var first := NewProbe(cfg, s, now);
    PassingCheck(cfg, s.keys, i);
    var second := NewCall(cfg, s, first, i, s.keys, s.calls + multiset{SetHalfOpen}, 3);
    FailingProbe(cfg, s.keys, i);
    schedule := Then(cfg, s, second, i, s.keys, s.calls + multiset{SetHalfOpen}, SetHalfOpen, 6);
  }

  /** The timeout check and the write of HALF_OPEN are separate commands too. Every open circuit whose
      timeout is over can come to be opened again, stamp and all, with a call still about to undo it. */
  lemma LateProbeIsReachable(cfg: Config, s: System, now: Time)
    requires cfg.successThreshold > 0 && cfg.recoveryTimeout > 0.0 && NonNegative(s)
    requires s.keys.state == OPEN && now - s.keys.openedAt >= cfg.recoveryTimeout
    ensures exists schedule ::
              var s' := Run(cfg, s, schedule);
              && AllAt(schedule, now) && s'.keys == s.keys.(openedAt := now, successes := 0)
              && s'.calls == s.calls + multiset{SetHalfOpen} + multiset{Done(true)}
              && CanLeaveEarly(cfg, s', now)
  {
    var schedule := OneOfTwoFails(cfg, s, now);
    var s' := System(s.keys.(openedAt := now, successes := 0), s.calls + multiset{SetHalfOpen} + multiset{Done(true)});
    assert SetHalfOpen in s'.calls && !Harmless(SetHalfOpen, now);
    assert forall n :: PutSuccesses(n) in s'.calls ==> PutSuccesses(n) in s.calls;
    EarlyExitExactly(cfg, s', now);
  }

  /** The commands of a probe whose coroutine fails: up to the stamp it is about to write, and to its end. */
  lemma FailingSettle(cfg: Config, k: Keys, i: Input)
    requires i.verdict == Bad
    ensures After(cfg, k, Awaiting(HALF_OPEN), i, 2) == (k.(state := OPEN), ReopenStamp(i.now))
    ensures After(cfg, k, Awaiting(HALF_OPEN), i, 4)
            == (k.(state := OPEN, openedAt := i.now, successes := 0), Done(true))
  {
    var k1 := k.(state := OPEN);
    var k2 := k1.(openedAt := i.now);
    assert After(cfg, k, Awaiting(HALF_OPEN), i, 2) == After(cfg, k, ReopenState, i, 1);
    assert After(cfg, k, Awaiting(HALF_OPEN), i, 4) == After(cfg, k, ReopenState, i, 3)
        == After(cfg, k1, ReopenStamp(i.now), i, 2) == After(cfg, k2, ReopenSuccesses, i, 1);
  }

  /** A probe up to the point where it awaits its coroutine, and the call after it. */
  lemma ProbeWaits(cfg: Config, k: Keys, i: Input)
    ensures var k' := k.(state := HALF_OPEN, successes := 0);
            && After(cfg, k, SetHalfOpen, i, 2) == (k', Awaiting(HALF_OPEN))
            && After(cfg, k', GetState, i, 1) == (k', Awaiting(HALF_OPEN))
  {
    assert After(cfg, k, SetHalfOpen, i, 2) == After(cfg, k.(state := HALF_OPEN), ZeroSuccesses, i, 1);
  }

  /** Two probes are admitted together. */
  lemma TwoProbes(cfg: Config, s: System, i: Input) returns (schedule: seq<Action>)
    requires s.keys.state == OPEN && i.now - s.keys.openedAt >= cfg.recoveryTimeout
    ensures Brings(cfg, s, schedule, i.now, s.keys.(state := HALF_OPEN, successes := 0),
                   s.calls + multiset{Awaiting(HALF_OPEN)}, Awaiting(HALF_OPEN))
  {
    var k := s.keys.(state := HALF_OPEN, successes := 0);
    ProbeWaits(cfg, s.keys, i);
    var probe := NewProbe(cfg, s, i.now);
    var waiting := Then(cfg, s, probe, i, s.keys, s.calls, SetHalfOpen, 2);
    schedule := NewCall(cfg, s, waiting, i, k, s.calls + multiset{Awaiting(HALF_OPEN)}, 1);
  }

  /** One of them fails up to the stamp it is about to write. */
  lemma FirstFailure(cfg: Config, s: System, t: Time) returns (schedule: seq<Action>)
    requires s.keys.state == OPEN && t - s.keys.openedAt >= cfg.recoveryTimeout
    ensures Brings(cfg, s, schedule, t, s.keys.(successes := 0), s.calls + multiset{Awaiting(HALF_OPEN)},
                   ReopenStamp(t))
  {
    var i := Input(t, Bad);
    var k := s.keys.(state := HALF_OPEN, successes := 0);
    var both := TwoProbes(cfg, s, i);
    FailingSettle(cfg, k, i);
    schedule := Then(cfg, s, both, i, k, s.calls + multiset{Awaiting(HALF_OPEN)}, Awaiting(HALF_OPEN), 2);
  }

  /** Then the other fails, to its end. */
  lemma TwoFailures(cfg: Config, s: System, t1: Time, t2: Time) returns (first: seq<Action>, second: seq<Action>)
    requires s.keys.state == OPEN && t1 - s.keys.openedAt >= cfg.recoveryTimeout
    ensures AllAt(first, t1) && AllAt(second, t2)
    ensures Run(cfg, s, first + second) == System(s.keys.(openedAt := t2, successes := 0),
                                                  s.calls + multiset{ReopenStamp(t1)} + multiset{Done(true)})
  {
    first := FirstFailure(cfg, s, t1);
    var k, others := s.keys.(successes := 0), s.calls + multiset{ReopenStamp(t1)};
    var s1 := System(k, others + multiset{Awaiting(HALF_OPEN)});
    assert Run(cfg, s, first) == s1;
    second := SecondFailure(cfg, s1, t2, k, others);
    RunAppend(cfg, s, first, second);
  }

  lemma SecondFailure(cfg: Config, s: System, t: Time, k: Keys, others: multiset<Pc>) returns (schedule: seq<Action>)
    requires s == System(k, others + multiset{Awaiting(HALF_OPEN)}) && k.state == OPEN
    ensures Brings(cfg, s, schedule, t, k.(openedAt := t, successes := 0), others, Done(true))
  {
    FailingSettle(cfg, k, Input(t, Bad));
    schedule := Then(cfg, s, [], Input(t, Bad), k, others, Awaiting(HALF_OPEN), 4);
  }

  /** The clock is read before the stamp is sent. Every open circuit whose timeout is over can come to be
      opened again at `t2`, stamp and all, with the stamp of an earlier failing probe still on its way: when
      it arrives, the circuit is open since `t1` as far as every later call can tell. */
  lemma LateStampIsReachable(cfg: Config, s: System, t1: Time, t2: Time)
    requires cfg.successThreshold > 0 && cfg.recoveryTimeout > 0.0 && NonNegative(s)
    requires s.keys.state == OPEN && t1 - s.keys.openedAt >= cfg.recoveryTimeout && t1 < t2
    ensures exists first, second ::
              var s' := Run(cfg, s, first + second);
              && AllAt(first, t1) && AllAt(second, t2) && s'.keys == s.keys.(openedAt := t2, successes := 0)
              && s'.calls == s.calls + multiset{ReopenStamp(t1)} + multiset{Done(true)}
              && CanLeaveEarly(cfg, s', t2)
  {
    var first, second := TwoFailures(cfg, s, t1, t2);
    var s' := Run(cfg, s, first + second);
    assert ReopenStamp(t1) in s'.calls && !Harmless(ReopenStamp(t1), t2);
    assert forall n :: PutSuccesses(n) in s'.calls ==> PutSuccesses(n) in s.calls;
    EarlyExitExactly(cfg, s', t2);
  }

  // ---------------------------------------------------------------------------
  // Calls whose halves are not interrupted
  // ---------------------------------------------------------------------------

  /** Every call in flight is awaiting its coroutine. */
  function Embed(s: BreakerInterleaving.System): System {
    System(s.keys, multiset{}[Awaiting(CLOSED) := s.flight[CLOSED]][Awaiting(OPEN) := s.flight[OPEN]]
                   [Awaiting(HALF_OPEN) := s.flight[HALF_OPEN]])
  }

  /** From a state in which every call in flight is awaiting its coroutine, single commands can leave an open
      circuit early if and only if uninterrupted halves of calls can. */
  lemma HalvesSuffice(cfg: Config, s: BreakerInterleaving.System)
    requires BreakerInterleaving.Bounded(cfg, s) && s.keys.state == OPEN && cfg.recoveryTimeout > 0.0
    ensures CanLeaveEarly(cfg, Embed(s), s.keys.openedAt) <==> BreakerInterleaving.CanLeaveEarly(cfg, s)
  {
    BreakerInterleaving.EarlyExitCondition(cfg, s);
    EarlyExitExactly(cfg, Embed(s), s.keys.openedAt);
    assert forall n :: PutSuccesses(n) !in Embed(s).calls;
  }
}
