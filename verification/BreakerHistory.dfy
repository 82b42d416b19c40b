/**
 What a whole history of uninterrupted calls makes of one tool's breaker.

 An abstract machine with one number or stamp per state replaces the four keys, the counters
 turn out to be trailing runs of the verdict history, and under a clock that never goes back
 the openings and the awaited coroutines keep their distance.
 */
module BreakerHistory {
  import opened Common
  import opened Breaker

  /** One call: the clock before, the coroutine's verdict if it is awaited, the clock after. */
  datatype Event = Event(now: Time, verdict: Verdict, later: Time)

  predicate Awaits(cfg: Config, k: Keys, e: Event) {
    Admit(cfg, k, e.now).0.Some?
  }

  function Step(cfg: Config, k: Keys, e: Event): Keys {
    var (snapshot, k1) := Admit(cfg, k, e.now);
    if snapshot.None? then k1 else Settle(cfg, k1, snapshot.value, e.verdict, e.later)
  }

  function Run(cfg: Config, k: Keys, h: seq<Event>): Keys {
    if h == [] then k else Step(cfg, Run(cfg, k, h[..|h| - 1]), h[|h| - 1])
  }

  /** `Step` is the key half of the call that `CircuitBreaker.Call` is proved to make. */
  lemma StepIsCall<T>(cfg: Config, tool: string, k: Keys, coro: Outcome<T>, now: Time, later: Time)
    ensures CallEffect(cfg, tool, k, coro, now, later).0 == Step(cfg, k, Event(now, VerdictOf(coro), later))
    ensures CallEffect(cfg, tool, k, coro, now, later).2 == Awaits(cfg, k, Event(now, VerdictOf(coro), later))
  {
  }

  function Max1(n: int): int {
    if n < 1 then 1 else n
  }

  // ---------------------------------------------------------------------------
  // Refinement of an abstract machine
  // ---------------------------------------------------------------------------

  datatype Machine = Closed(run: int) | Open(since: Time) | HalfOpen(run: int)

  function MachineStep(cfg: Config, m: Machine, e: Event): Machine {
    match m
    case Closed(n) =>
      (match e.verdict
       case Good => Closed(0)
       case Neutral => m
       case Bad => if n + 1 >= cfg.failureThreshold then Open(e.later) else Closed(n + 1))
    case HalfOpen(n) => Probe(cfg, n, e)
    case Open(t) => if e.now < t + cfg.recoveryTimeout then m else Probe(cfg, 0, e)
  }

  function Probe(cfg: Config, n: int, e: Event): Machine {
    match e.verdict
    case Good => if n + 1 >= cfg.successThreshold then Closed(0) else HalfOpen(n + 1)
    case Neutral => HalfOpen(n)
    case Bad => Open(e.later)
  }

  function MachineRun(cfg: Config, m: Machine, h: seq<Event>): Machine {
    if h == [] then m else MachineStep(cfg, MachineRun(cfg, m, h[..|h| - 1]), h[|h| - 1])
  }

  function Abstract(k: Keys): Machine {
    match k.state
    case CLOSED => Closed(k.failures)
    case OPEN => Open(k.openedAt)
    case HALF_OPEN => HalfOpen(k.successes)
  }

  /** Each counter is used in one state only, is zero elsewhere, and stays below its threshold. */
  predicate Sound(cfg: Config, k: Keys) {
    && 0 <= k.failures < Max1(cfg.failureThreshold)
    && 0 <= k.successes < Max1(cfg.successThreshold)
    && (k.state != CLOSED ==> k.failures == 0)
    && (k.state != HALF_OPEN ==> k.successes == 0)
  }

  lemma {:induction false} Refinement(cfg: Config, k: Keys, h: seq<Event>)
    requires Sound(cfg, k)
    ensures Sound(cfg, Run(cfg, k, h))
    ensures Abstract(Run(cfg, k, h)) == MachineRun(cfg, Abstract(k), h)
  {
    if h != [] {
      Refinement(cfg, k, h[..|h| - 1]);
    }
  }

  // ---------------------------------------------------------------------------
  // The counters as functions of the verdict history
  // ---------------------------------------------------------------------------

  /** What one call adds to the verdict history. */
  function Verdicts(cfg: Config, k: Keys, e: Event): seq<Verdict> {
    if Awaits(cfg, k, e) && e.verdict != Neutral then [e.verdict] else []
  }

  /** The good and bad verdicts of the coroutines actually awaited, oldest first. */
  function Counted(cfg: Config, h: seq<Event>): seq<Verdict> {
    if h == [] then [] else
    var past := h[..|h| - 1];
    var e := h[|h| - 1];
    Counted(cfg, past) + Verdicts(cfg, Run(cfg, FRESH, past), e)
  }

  /** The length of the longest suffix made of `v` alone. */
  function Trailing(v: Verdict, vs: seq<Verdict>): (n: nat)
    ensures n <= |vs|
    ensures forall i :: |vs| - n <= i < |vs| ==> vs[i] == v
    ensures n < |vs| ==> vs[|vs| - n - 1] != v
  {
    if vs == [] || vs[|vs| - 1] != v then 0 else 1 + Trailing(v, vs[..|vs| - 1])
  }

  lemma TrailingSnoc(v: Verdict, vs: seq<Verdict>, w: Verdict)
    ensures Trailing(v, vs + [w]) == if v == w then Trailing(v, vs) + 1 else 0
  {
    assert (vs + [w])[..|vs|] == vs;
  }

  /** Which keys a verdict history can lead to. */
  predicate Explains(cfg: Config, vs: seq<Verdict>, k: Keys) {
    match k.state
    case CLOSED => k.failures == Trailing(Bad, vs)
    case HALF_OPEN => k.successes == Trailing(Good, vs) < |vs|
    case OPEN => vs != [] && vs[|vs| - 1] == Bad
  }

  lemma ExplainsUncounted(cfg: Config, vs: seq<Verdict>, k: Keys, e: Event)
    requires Sound(cfg, k) && Explains(cfg, vs, k) && Verdicts(cfg, k, e) == []
    ensures Explains(cfg, vs, Step(cfg, k, e))
  {
    assert k.state == OPEN ==> Trailing(Good, vs) == 0;
  }

  lemma ExplainsGood(cfg: Config, vs: seq<Verdict>, k: Keys, e: Event)
    requires Sound(cfg, k) && Explains(cfg, vs, k) && Awaits(cfg, k, e) && e.verdict == Good
    ensures Explains(cfg, vs + [Good], Step(cfg, k, e))
  {
    TrailingSnoc(Bad, vs, Good);
    TrailingSnoc(Good, vs, Good);
    assert k.state == OPEN ==> Trailing(Good, vs) == 0;
  }

  lemma ExplainsBad(cfg: Config, vs: seq<Verdict>, k: Keys, e: Event)
    requires Sound(cfg, k) && Explains(cfg, vs, k) && Awaits(cfg, k, e) && e.verdict == Bad
    ensures Explains(cfg, vs + [Bad], Step(cfg, k, e))
  {
    TrailingSnoc(Bad, vs, Bad);
  }

  lemma ExplainsStep(cfg: Config, vs: seq<Verdict>, k: Keys, e: Event)
    requires Sound(cfg, k) && Explains(cfg, vs, k)
    ensures Explains(cfg, vs + Verdicts(cfg, k, e), Step(cfg, k, e))
  {
    if Verdicts(cfg, k, e) == [] {
      assert vs + Verdicts(cfg, k, e) == vs;
      ExplainsUncounted(cfg, vs, k, e);
    } else if e.verdict == Good {
      ExplainsGood(cfg, vs, k, e);
    } else {
      ExplainsBad(cfg, vs, k, e);
    }
  }

  /** From the start, a closed circuit's failure counter is exactly the current run of failures and
      a half-open circuit's success counter exactly the current run of successes, both counted over
      the whole history of awaited calls; neutral outcomes and fail-fast rejections leave no trace. */
  lemma {:induction false} CountersAreTrailingRuns(cfg: Config, h: seq<Event>)
    ensures Sound(cfg, Run(cfg, FRESH, h))
    ensures Explains(cfg, Counted(cfg, h), Run(cfg, FRESH, h))
  {
    if h != [] {
      CountersAreTrailingRuns(cfg, h[..|h| - 1]);
      ExplainsStep(cfg, Counted(cfg, h[..|h| - 1]), Run(cfg, FRESH, h[..|h| - 1]), h[|h| - 1]);
    }
  }

  /** A closed circuit opens on exactly the failure that completes a run of `failureThreshold`. */
  lemma OpensExactlyAtThreshold(cfg: Config, h: seq<Event>, e: Event)
    requires Run(cfg, FRESH, h).state == CLOSED
    ensures Run(cfg, FRESH, h + [e]).state == OPEN
            <==> e.verdict == Bad && Trailing(Bad, Counted(cfg, h + [e])) == Max1(cfg.failureThreshold)
    ensures Run(cfg, FRESH, h + [e]).state == OPEN ==> Run(cfg, FRESH, h + [e]).openedAt == e.later
    ensures Run(cfg, FRESH, h + [e]).state != HALF_OPEN
  {
    var k := Run(cfg, FRESH, h);
    assert (h + [e])[..|h|] == h;
    CountersAreTrailingRuns(cfg, h);
    assert Run(cfg, FRESH, h + [e]) == Step(cfg, k, e);
    if e.verdict == Bad {
      TrailingSnoc(Bad, Counted(cfg, h), Bad);
      assert Counted(cfg, h + [e]) == Counted(cfg, h) + [Bad];
    }
  }

  // ---------------------------------------------------------------------------
  // The same over the outcomes of the coroutines
  // ---------------------------------------------------------------------------

  /** One call, with how its coroutine ends if it is awaited. */
  datatype Call<T> = Call(now: Time, coro: Outcome<T>, later: Time)

  function Effect<T>(cfg: Config, tool: string, k: Keys, c: Call<T>): (Keys, Outcome<T>, bool) {
    CallEffect(cfg, tool, k, c.coro, c.now, c.later)
  }

  /** The keys after a history of calls from a fresh start. */
  function After<T>(cfg: Config, tool: string, h: seq<Call<T>>): Keys {
    if h == [] then FRESH else Effect(cfg, tool, After(cfg, tool, h[..|h| - 1]), h[|h| - 1]).0
  }

  /** How the coroutines ended that were awaited, those that raised a `ToolExecutionError` aside. */
  function Judged<T>(cfg: Config, tool: string, h: seq<Call<T>>): seq<Outcome<T>> {
    if h == [] then [] else
    var past, c := h[..|h| - 1], h[|h| - 1];
    Judged(cfg, tool, past)
    + if Effect(cfg, tool, After(cfg, tool, past), c).2 && !(c.coro.Raised? && c.coro.exn.ToolExecutionError?)
      then [c.coro] else []
  }

  /** The last `n` of them raised an exception. */
  ghost predicate LastRaised<T>(outcomes: seq<Outcome<T>>, n: nat) {
    n <= |outcomes| && forall i :: |outcomes| - n <= i < |outcomes| ==> outcomes[i].Raised?
  }

  function EventsOf<T>(h: seq<Call<T>>): (events: seq<Event>)
    ensures |events| == |h|
  {
    if h == [] then [] else
    var c := h[|h| - 1];
    EventsOf(h[..|h| - 1]) + [Event(c.now, VerdictOf(c.coro), c.later)]
  }

  /** The verdict of an outcome, if it has one. */
  ghost predicate Rated<T>(vs: seq<Verdict>, outcomes: seq<Outcome<T>>) {
    && |vs| == |outcomes|
    && forall i :: 0 <= i < |vs| ==> vs[i] == if outcomes[i].Raised? then Bad else Good
  }

  lemma CallIsEvent<T>(cfg: Config, tool: string, k: Keys, c: Call<T>, vs: seq<Verdict>, outcomes: seq<Outcome<T>>)
    requires Rated(vs, outcomes)
    ensures var e := Event(c.now, VerdictOf(c.coro), c.later);
            var judged := Effect(cfg, tool, k, c).2 && !(c.coro.Raised? && c.coro.exn.ToolExecutionError?);
            && Step(cfg, k, e) == Effect(cfg, tool, k, c).0
            && Rated(vs + Verdicts(cfg, k, e), outcomes + if judged then [c.coro] else [])
  {
    StepIsCall(cfg, tool, k, c.coro, c.now, c.later);
    match c.coro
    case Returned(_) =>
    case Raised(ToolExecutionError(_, _)) =>
    case Raised(OtherError(_)) =>
  }

  lemma {:induction false} HistoryIsEvents<T>(cfg: Config, tool: string, h: seq<Call<T>>)
    ensures Run(cfg, FRESH, EventsOf(h)) == After(cfg, tool, h)
    ensures Rated(Counted(cfg, EventsOf(h)), Judged(cfg, tool, h))
  {
    if h != [] {
      var n := |h| - 1;
      HistoryIsEvents(cfg, tool, h[..n]);
      assert EventsOf(h)[..n] == EventsOf(h[..n]);
      CallIsEvent(cfg, tool, After(cfg, tool, h[..n]), h[n],
                  Counted(cfg, EventsOf(h[..n])), Judged(cfg, tool, h[..n]));
    }
  }

  lemma TrailingRaised<T>(vs: seq<Verdict>, outcomes: seq<Outcome<T>>, n: nat)
    requires Rated(vs, outcomes)
    ensures LastRaised(outcomes, n) <==> n <= Trailing(Bad, vs)
  {
    var t := Trailing(Bad, vs);
    if n > t && n <= |vs| {
      assert vs[|vs| - t - 1] != Bad;
      assert !outcomes[|vs| - t - 1].Raised?;
    }
  }

  /** A closed circuit's failure counter says how many of the last judged coroutines raised; and a call
      opens it exactly if its coroutine raised something else than a `ToolExecutionError` and, with it, the
      last `failure_threshold` judged coroutines all raised. */
  lemma OpensExactlyByOutcomes<T>(cfg: Config, tool: string, h: seq<Call<T>>, c: Call<T>)
    requires After(cfg, tool, h).state == CLOSED
    ensures forall n: nat :: LastRaised(Judged(cfg, tool, h), n) <==> n <= After(cfg, tool, h).failures
    ensures var k := After(cfg, tool, h + [c]);
            && k.state == (if c.coro.Raised? && c.coro.exn.OtherError?
                              && LastRaised(Judged(cfg, tool, h + [c]), Max1(cfg.failureThreshold))
                           then OPEN else CLOSED)
            && (k.state == OPEN ==> k.openedAt == c.later)
  {
    var e := Event(c.now, VerdictOf(c.coro), c.later);
    var all := EventsOf(h + [c]);
    assert (h + [c])[..|h|] == h;
    assert all == EventsOf(h) + [e];
    HistoryIsEvents(cfg, tool, h);
    HistoryIsEvents(cfg, tool, h + [c]);
    CountersAreTrailingRuns(cfg, EventsOf(h));
    CountersAreTrailingRuns(cfg, all);
    OpensExactlyAtThreshold(cfg, EventsOf(h), e);
    forall n: nat
      ensures LastRaised(Judged(cfg, tool, h), n) <==> n <= After(cfg, tool, h).failures
    {
      TrailingRaised(Counted(cfg, EventsOf(h)), Judged(cfg, tool, h), n);
    }
    TrailingRaised(Counted(cfg, all), Judged(cfg, tool, h + [c]), Max1(cfg.failureThreshold));
    TrailingGrows(cfg, EventsOf(h), e);
  }

  /** Within one call a closed circuit's run of failures grows by at most one. */
  lemma TrailingGrows(cfg: Config, h: seq<Event>, e: Event)
    requires Run(cfg, FRESH, h).state == CLOSED
    ensures Trailing(Bad, Counted(cfg, h + [e])) <= Run(cfg, FRESH, h).failures + 1 <= Max1(cfg.failureThreshold)
    ensures e.verdict == Neutral ==> Counted(cfg, h + [e]) == Counted(cfg, h)
  {
    assert (h + [e])[..|h|] == h;
    CountersAreTrailingRuns(cfg, h);
    TrailingSnoc(Bad, Counted(cfg, h), e.verdict);
    if e.verdict == Neutral {
      assert Counted(cfg, h) + [] == Counted(cfg, h);
    }
  }

  /** A half-open circuit's success counter says how many of the last judged coroutines returned. */
  lemma ProbesByOutcomes<T>(cfg: Config, tool: string, h: seq<Call<T>>)
    requires After(cfg, tool, h).state == HALF_OPEN
    ensures var outcomes, n := Judged(cfg, tool, h), After(cfg, tool, h).successes;
            && 0 <= n < |outcomes| && outcomes[|outcomes| - n - 1].Raised?
            && forall i :: |outcomes| - n <= i < |outcomes| ==> outcomes[i].Returned?
  {
    HistoryIsEvents(cfg, tool, h);
    CountersAreTrailingRuns(cfg, EventsOf(h));
  }

  // ---------------------------------------------------------------------------
  // Time
  // ---------------------------------------------------------------------------

  ghost predicate Monotone(h: seq<Event>) {
    && (forall i :: 0 <= i < |h| ==> h[i].now <= h[i].later)
    && (forall i, j :: 0 <= i < j < |h| ==> h[i].later <= h[j].now)
  }

  /** Call `i` of the history is awaited. */
  predicate AwaitedAt(cfg: Config, k: Keys, h: seq<Event>, i: nat)
    requires i < |h|
  {
    Awaits(cfg, Run(cfg, k, h[..i]), h[i])
  }

  /** Call `i` of the history sets the state to OPEN. */
  predicate OpensAt(cfg: Config, k: Keys, h: seq<Event>, i: nat)
    requires i < |h|
  {
    && AwaitedAt(cfg, k, h, i)
    && h[i].verdict == Bad
    && Run(cfg, k, h[..i + 1]).state == OPEN
  }

  lemma RunSnoc(cfg: Config, k: Keys, h: seq<Event>, i: nat)
    requires i < |h|
    ensures Run(cfg, k, h[..i + 1]) == Step(cfg, Run(cfg, k, h[..i]), h[i])
  {
    assert h[..i + 1][..i] == h[..i];
  }

  /** After an opening the circuit is OPEN with that stamp or a later one, or the timeout is over. */
  lemma {:induction false} AfterOpening(cfg: Config, k: Keys, h: seq<Event>, i: nat, n: nat)
    requires Monotone(h) && i < n <= |h| && OpensAt(cfg, k, h, i)
    ensures var kn := Run(cfg, k, h[..n]);
            || (kn.state == OPEN && h[i].later <= kn.openedAt)
            || h[i].later + cfg.recoveryTimeout <= h[n - 1].later
  {
    RunSnoc(cfg, k, h, n - 1);
    if n > i + 1 {
      AfterOpening(cfg, k, h, i, n - 1);
    }
  }

  /** No coroutine is awaited in `[opened_at, opened_at + recovery_timeout)`. */
  lemma NoAwaitDuringRecovery(cfg: Config, k: Keys, h: seq<Event>, i: nat, j: nat)
    requires Monotone(h) && i < j < |h|
    requires OpensAt(cfg, k, h, i) && AwaitedAt(cfg, k, h, j)
    ensures h[i].later + cfg.recoveryTimeout <= h[j].now
  {
    AfterOpening(cfg, k, h, i, j);
  }

  /** The stamps at which the circuit opened, oldest first. */
  function Openings(cfg: Config, k: Keys, h: seq<Event>): seq<Time> {
    if h == [] then [] else
    var n := |h| - 1;
    Openings(cfg, k, h[..n]) + if OpensAt(cfg, k, h, n) then [h[n].later] else []
  }

  /** The stored stamp is always that of the latest opening. */
  lemma {:induction false} OpenedAtIsLastOpening(cfg: Config, k: Keys, h: seq<Event>)
    ensures var stamps := Openings(cfg, k, h);
            Run(cfg, k, h).openedAt == if stamps == [] then k.openedAt else stamps[|stamps| - 1]
  {
    if h != [] {
      OpenedAtIsLastOpening(cfg, k, h[..|h| - 1]);
      RunSnoc(cfg, k, h, |h| - 1);
      assert h[..|h|] == h;
    }
  }

  /** Every recorded opening has a call behind it, and later openings have later calls. */
  lemma {:induction false} OpeningHasCall(cfg: Config, k: Keys, h: seq<Event>, p: nat) returns (i: nat)
    requires p < |Openings(cfg, k, h)|
    ensures i < |h| && OpensAt(cfg, k, h, i) && h[i].later == Openings(cfg, k, h)[p]
    ensures Openings(cfg, k, h[..i]) == Openings(cfg, k, h)[..p]
  {
    var n := |h| - 1;
    if p == |Openings(cfg, k, h[..n])| {
      i := n;
    } else {
      i := OpeningHasCall(cfg, k, h[..n], p);
      assert h[..n][..i] == h[..i] && h[..n][..i + 1] == h[..i + 1];
    }
  }

  lemma NextOpening(cfg: Config, k: Keys, h: seq<Event>, q: nat)
    requires Monotone(h) && 0 < q < |Openings(cfg, k, h)|
    ensures Openings(cfg, k, h)[q] - Openings(cfg, k, h)[q - 1] >= cfg.recoveryTimeout
  {
    var j := OpeningHasCall(cfg, k, h, q);
    var i := OpeningHasCall(cfg, k, h[..j], q - 1);
    assert h[..j][..i] == h[..i] && h[..j][..i + 1] == h[..i + 1];
    NoAwaitDuringRecovery(cfg, k, h, i, j);
  }

  lemma Distribute(n: nat, r: real)
    ensures (n + 1) as real * r == n as real * r + r
  {
    assert (n + 1) as real == n as real + 1.0;
  }

  /** Any two openings are at least as many recovery timeouts apart as there are steps between them. */
  lemma {:induction false} OpeningsKeepDistance(cfg: Config, k: Keys, h: seq<Event>, p: nat, q: nat)
    requires Monotone(h) && p <= q < |Openings(cfg, k, h)|
    ensures Openings(cfg, k, h)[q] - Openings(cfg, k, h)[p] >= (q - p) as real * cfg.recoveryTimeout
    decreases q
  {
    if p < q {
      NextOpening(cfg, k, h, q);
      OpeningsKeepDistance(cfg, k, h, p, q - 1);
      Distribute(q - p - 1, cfg.recoveryTimeout);
    }
  }

  lemma Scale(a: real, b: real, r: real)
    requires a > b && r > 0.0
    ensures a * r > b * r
  {
    assert (a - b) * r > 0.0;
  }

  lemma QuotientBound(n: int, r: Time, dist: Time, span: Time)
    requires r > 0.0 && n as real * r <= dist <= span
    ensures n + 1 <= (span / r).Floor + 1
  {
    var x := span / r;
    assert x * r == span;
    if n as real > x {
      Scale(n as real, x, r);
    }
  }

  /** A span of length `span` holds at most floor(span / recovery_timeout) + 1 openings. */
  lemma OpeningsPerSpan(cfg: Config, k: Keys, h: seq<Event>, p: nat, q: nat, span: Time)
    requires Monotone(h) && cfg.recoveryTimeout > 0.0 && p <= q < |Openings(cfg, k, h)|
    requires Openings(cfg, k, h)[q] - Openings(cfg, k, h)[p] <= span
    ensures q - p + 1 <= (span / cfg.recoveryTimeout).Floor + 1
  {
    var dist := Openings(cfg, k, h)[q] - Openings(cfg, k, h)[p];
    assert (q - p) as real * cfg.recoveryTimeout <= dist by {
      OpeningsKeepDistance(cfg, k, h, p, q);
    }
    QuotientBound(q - p, cfg.recoveryTimeout, dist, span);
  }

  // ---------------------------------------------------------------------------
  // Recovery
  // ---------------------------------------------------------------------------

  function Goods(h: seq<Event>): nat {
    if h == [] then 0 else Goods(h[..|h| - 1]) + if h[|h| - 1].verdict == Good then 1 else 0
  }

  ghost predicate NoBad(h: seq<Event>) {
    forall i :: 0 <= i < |h| ==> h[i].verdict != Bad
  }

  /** Once the timeout has passed, and as long as nothing fails, `success_threshold` successes are
      necessary and sufficient to close the circuit; the first failure before that re-opens it. */
  lemma {:induction false} Recovery(cfg: Config, k: Keys, h: seq<Event>, failure: Event)
    requires Sound(cfg, k) && k.state == OPEN
    requires h != [] && NoBad(h) && h[0].now - k.openedAt >= cfg.recoveryTimeout
    requires failure.verdict == Bad
    ensures Run(cfg, k, h).state == if Goods(h) >= Max1(cfg.successThreshold) then CLOSED else HALF_OPEN
    ensures Run(cfg, k, h).failures == 0
    ensures Goods(h) < Max1(cfg.successThreshold) ==>
              && Run(cfg, k, h).successes == Goods(h)
              && Run(cfg, k, h + [failure]) == Keys(OPEN, 0, 0, failure.later)
  {
    var n := |h| - 1;
    assert (h + [failure])[..|h|] == h;
    if n > 0 {
      Recovery(cfg, k, h[..n], failure);
    } else {
      assert h[..n] == [];
    }
  }
}
