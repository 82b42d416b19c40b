/**
 The breaker of one tool with any number of calls in flight.

 Each half of a call is atomic here: what every interleaving keeps, and exactly when calls already
 in flight can cut the recovery timeout short.
 */
module BreakerInterleaving {
  import opened Common
  import opened Breaker

  /** The shared keys, and the state snapshots the calls in flight will settle by. */
  datatype System = System(keys: Keys, flight: multiset<CircuitState>)

  datatype Action =
    | Begin(now: Time)
    | Finish(snapshot: CircuitState, verdict: Verdict, now: Time)

  /** `Finish` acts only if such a call is in flight. */
  function Step(cfg: Config, s: System, a: Action): System {
    match a
    case Begin(now) =>
      var (snapshot, k) := Admit(cfg, s.keys, now);
      System(k, if snapshot.Some? then s.flight + multiset{snapshot.value} else s.flight)
    case Finish(snapshot, verdict, now) =>
      if snapshot in s.flight
      then System(Settle(cfg, s.keys, snapshot, verdict, now), s.flight - multiset{snapshot})
      else s
  }

  function Run(cfg: Config, s: System, actions: seq<Action>): System
    decreases |actions|
  {
    if actions == [] then s else Run(cfg, Step(cfg, s, actions[0]), actions[1..])
  }

  /** Neither counter is ever negative or at its threshold, and no call holds an OPEN snapshot. */
  predicate Bounded(cfg: Config, s: System) {
    && 0 <= s.keys.failures < cfg.failureThreshold
    && 0 <= s.keys.successes < cfg.successThreshold
    && OPEN !in s.flight
  }

  lemma {:induction false} AlwaysBounded(cfg: Config, s: System, actions: seq<Action>)
    requires Bounded(cfg, s)
    ensures Bounded(cfg, Run(cfg, s, actions))
    decreases |actions|
  {
    if actions != [] {
      AlwaysBounded(cfg, Step(cfg, s, actions[0]), actions[1..]);
    }
  }

  // ---------------------------------------------------------------------------
  // When the recovery timeout is respected
  // ---------------------------------------------------------------------------

  /** Every clock reading of the actions lies in `[from, to)`. */
  ghost predicate Within(actions: seq<Action>, from: Time, to: Time) {
    forall i :: 0 <= i < |actions| ==> from <= actions[i].now < to
  }

  /** Successes that calls already admitted as probes could still report. */
  function Reach(s: System): int {
    s.keys.successes + s.flight[HALF_OPEN]
  }

  lemma {:induction false} StaysOpen(cfg: Config, s: System, from: Time, actions: seq<Action>)
    requires Bounded(cfg, s) && s.keys.state == OPEN && from <= s.keys.openedAt
    requires Within(actions, from, from + cfg.recoveryTimeout)
    requires Reach(s) < cfg.successThreshold
    ensures Run(cfg, s, actions).keys.state == OPEN
    ensures Run(cfg, s, actions).flight <= s.flight
    decreases |actions|
  {
    if actions != [] {
      var next := Step(cfg, s, actions[0]);
      AlwaysBounded(cfg, s, [actions[0]]);
      assert Run(cfg, next, []) == next;
      forall i | 0 <= i < |actions[1..]|
        ensures from <= actions[1..][i].now < from + cfg.recoveryTimeout
      {
        assert actions[1..][i] == actions[i + 1];
      }
      StaysOpen(cfg, next, from, actions[1..]);
    }
  }

  /** `n` probes in flight all report success at time `now`. */
  function ProbeSuccesses(n: nat, now: Time): seq<Action> {
    if n == 0 then [] else [Finish(HALF_OPEN, Good, now)] + ProbeSuccesses(n - 1, now)
  }

  lemma {:induction false} ProbesClose(cfg: Config, s: System, now: Time, n: nat)
    requires Bounded(cfg, s) && s.keys.state == OPEN
    requires n == cfg.successThreshold - s.keys.successes && n <= s.flight[HALF_OPEN]
    ensures Run(cfg, s, ProbeSuccesses(n, now)).keys.state == CLOSED
    ensures forall a <- ProbeSuccesses(n, now) :: a.now == now
    decreases n
  {
    var first := Finish(HALF_OPEN, Good, now);
    var next := Step(cfg, s, first);
    var rest := ProbeSuccesses(n - 1, now);
    assert ProbeSuccesses(n, now) == [first] + rest;
    assert ([first] + rest)[1..] == rest;
    assert Run(cfg, s, [first] + rest) == Run(cfg, next, rest);
    if n > 1 {
      ProbesClose(cfg, next, now, n - 1);
    } else {
      assert rest == [];
    }
  }

  /** Some interleaving leaves OPEN although every clock reading is before the end of the timeout. */
  ghost predicate CanLeaveEarly(cfg: Config, s: System) {
    exists actions ::
      && Within(actions, s.keys.openedAt, s.keys.openedAt + cfg.recoveryTimeout)
      && Run(cfg, s, actions).keys.state != OPEN
  }

  /** HALF_OPEN does not limit the probes in flight, so the recovery timeout is not always kept. As long
      as no half of a call is interrupted, it can be cut short exactly when the probes admitted before the
      circuit opened are enough to complete `success_threshold`. */
  lemma EarlyExitCondition(cfg: Config, s: System)
    requires Bounded(cfg, s) && s.keys.state == OPEN && cfg.recoveryTimeout > 0.0
    ensures CanLeaveEarly(cfg, s) <==> Reach(s) >= cfg.successThreshold
  {
    var t := s.keys.openedAt;
    if Reach(s) >= cfg.successThreshold {
      var n := cfg.successThreshold - s.keys.successes;
      ProbesClose(cfg, s, t, n);
      var actions := ProbeSuccesses(n, t);
      assert Within(actions, t, t + cfg.recoveryTimeout);
    } else {
      forall actions | Within(actions, t, t + cfg.recoveryTimeout)
        ensures Run(cfg, s, actions).keys.state == OPEN
      {
        StaysOpen(cfg, s, t, actions);
      }
    }
  }

  /** Such a state is reachable from the start, with the thresholds the application uses: three
      probes are in flight together, one fails and opens the circuit, and the other two close it at
      the very moment it opened. */
  lemma EarlyExitIsReachable()
    ensures var cfg := Config(5, 60.0, 2);
            exists trip: seq<Action> ::
              var s := Run(cfg, System(FRESH, multiset{}), trip);
              s.keys.state == OPEN && CanLeaveEarly(cfg, s)
  {
    var cfg := Config(5, 60.0, 2);
    var start := System(FRESH, multiset{});
    var fail := seq(10, i requires 0 <= i < 10 => if i % 2 == 0 then Begin(1.0) else Finish(CLOSED, Bad, 1.0));
    FailuresOpen(cfg, start, fail, 5);
    var probe, s := ThreeProbes(cfg);
    RunAppend(cfg, start, fail, probe);
    EarlyExitCondition(cfg, s);
    assert Run(cfg, start, fail + probe) == s;
  }

  lemma ThreeProbes(cfg: Config) returns (probe: seq<Action>, s: System)
    requires cfg == Config(5, 60.0, 2)
    ensures s == Run(cfg, System(Keys(OPEN, 0, 0, 1.0), multiset{}), probe)
    ensures s.keys == Keys(OPEN, 0, 0, 61.0) && s.flight == multiset{HALF_OPEN, HALF_OPEN}
  {
    probe := [Begin(61.0), Begin(61.0), Begin(61.0), Finish(HALF_OPEN, Bad, 61.0)];
    var s0 := System(Keys(OPEN, 0, 0, 1.0), multiset{});
    var s1 := Step(cfg, s0, probe[0]);
    var s2 := Step(cfg, s1, probe[1]);
    var s3 := Step(cfg, s2, probe[2]);
    s := Step(cfg, s3, probe[3]);
    assert probe[1..][1..] == probe[2..] && probe[2..][1..] == probe[3..];
    assert Run(cfg, s0, probe) == Run(cfg, s1, probe[1..]);
    assert Run(cfg, s1, probe[1..]) == Run(cfg, s2, probe[1..][1..]);
    assert Run(cfg, s2, probe[2..]) == Run(cfg, s3, probe[2..][1..]);
    assert Run(cfg, s3, probe[3..]) == Run(cfg, s, probe[3..][1..]) == s;
  }

  lemma {:induction false} RunAppend(cfg: Config, s: System, a: seq<Action>, b: seq<Action>)
    ensures Run(cfg, s, a + b) == Run(cfg, Run(cfg, s, a), b)
    decreases |a|
  {
    if a == [] {
      assert a + b == b;
    } else {
      assert (a + b)[1..] == a[1..] + b;
      RunAppend(cfg, Step(cfg, s, a[0]), a[1..], b);
    }
  }

  /** `n` calls that begin and fail one after the other complete the failure threshold. */
  lemma {:induction false} FailuresOpen(cfg: Config, s: System, actions: seq<Action>, n: nat)
    requires s.keys.state == CLOSED && n >= 1 && s.keys.failures == cfg.failureThreshold - n
    requires |actions| == 2 * n
    requires forall i :: 0 <= i < 2 * n ==>
               actions[i] == if i % 2 == 0 then Begin(1.0) else Finish(CLOSED, Bad, 1.0)
    ensures Run(cfg, s, actions) == System(Keys(OPEN, 0, s.keys.successes, 1.0), s.flight)
    decreases n
  {
    var s1 := Step(cfg, s, actions[0]);
    var s2 := Step(cfg, s1, actions[1]);
    assert actions[1..][0] == actions[1] && actions[1..][1..] == actions[2..];
    assert s2.flight == s.flight;
    assert Run(cfg, s, actions) == Run(cfg, s1, actions[1..]) == Run(cfg, s2, actions[2..]);
    if n > 1 {
      FailuresOpen(cfg, s2, actions[2..], n - 1);
    }
  }
}
