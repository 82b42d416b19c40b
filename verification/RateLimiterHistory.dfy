/**
 What the sliding window guarantees over a whole history of requests to any number of tools.
 */
module RateLimiterHistory {
  import opened Common
  import opened RateLimiter

  /** The configured limits: requests per window and tool. */
  type Limits = map<string, int>

  /** A request to a tool: its stamp and the server time of its pipeline. */
  datatype Request = Request(tool: string, now: Time, exec: Time)

  function Record(limits: Limits, sets: map<string, Entry>, r: Request, m: Member): map<string, Entry> {
    if r.tool in limits then AfterCheck(sets, r.tool, r.now, r.exec, m) else sets
  }

  /** The sorted sets after a history; the member added by request `i` is `i`. */
  function Sets(limits: Limits, h: seq<Request>): map<string, Entry> {
    if h == [] then map[] else
    var n := |h| - 1;
    Record(limits, Sets(limits, h[..n]), h[n], n)
  }

  /** What request `i` counts. */
  function Counted(limits: Limits, h: seq<Request>, i: nat): map<Member, Time>
    requires i < |h|
  {
    InWindow(Sets(limits, h[..i]), h[i].tool, h[i].now, h[i].exec)
  }

  predicate Admitted(limits: Limits, h: seq<Request>, i: nat)
    requires i < |h|
  {
    h[i].tool in limits ==> |Counted(limits, h, i)| < limits[h[i].tool]
  }

  // ---------------------------------------------------------------------------
  // Clocks
  // ---------------------------------------------------------------------------

  /** The stamp of a request of the tool falls behind that of an earlier one by at most `d`. */
  ghost predicate InOrder(h: seq<Request>, tool: string, d: Time) {
    forall i, j :: 0 <= i < j < |h| && h[i].tool == h[j].tool == tool ==> h[i].now <= h[j].now + d
  }

  /** The server executes the tool's requests in the order of the history, and the time from stamp to
      pipeline grows by at most `e` from one request to a later one. */
  ghost predicate Timely(h: seq<Request>, tool: string, e: Time) {
    forall i, j :: 0 <= i < j < |h| && h[i].tool == h[j].tool == tool ==>
      h[i].exec <= h[j].exec && h[j].exec - h[i].exec <= h[j].now - h[i].now + e
  }

  /** The server executes the tool's requests in the order of the history, and the time from stamp to
      pipeline varies by at most `e`. */
  ghost predicate Steady(h: seq<Request>, tool: string, e: Time) {
    forall i, j :: 0 <= i < j < |h| && h[i].tool == h[j].tool == tool ==>
      && h[i].exec <= h[j].exec
      && h[j].exec - h[i].exec <= h[j].now - h[i].now + e
      && h[j].now - h[i].now <= h[j].exec - h[i].exec + e
  }

  /** 65 seconds of server time never pass with less than 60 seconds between the stamps. */
  ghost predicate Paced(h: seq<Request>, tool: string) {
    forall i, j :: 0 <= i < j < |h| && h[i].tool == h[j].tool == tool ==>
      && h[i].exec <= h[j].exec
      && (h[j].exec - h[i].exec >= KEY_TTL ==> h[j].now - h[i].now >= WINDOW)
  }

  // ---------------------------------------------------------------------------
  // The stored set, in closed form
  // ---------------------------------------------------------------------------

  /** No request of the tool from `i + 1` up to `n` came 60 seconds or more after request `i`. */
  ghost predicate Survives(h: seq<Request>, tool: string, i: nat, n: nat)
    requires n <= |h|
  {
    && i < n
    && h[i].tool == tool
    && forall m :: i < m < n && h[m].tool == tool ==> h[m].now - WINDOW < h[i].now
  }

  ghost predicate Stores(h: seq<Request>, tool: string, scores: map<Member, Time>) {
    && (forall i: nat :: i in scores <==> Survives(h, tool, i, |h|))
    && (forall i: nat :: i in scores ==> i < |h| && scores[i] == h[i].now)
  }

  /** The scores under a key, whether or not the key has expired. */
  function Raw(sets: map<string, Entry>, tool: string): map<Member, Time> {
    if Key(tool) in sets then sets[Key(tool)].scores else map[]
  }

  /** The key outlives every pipeline of its tool by 65 seconds. */
  ghost predicate Outlives(h: seq<Request>, tool: string, sets: map<string, Entry>) {
    Key(tool) in sets ==>
      forall i :: 0 <= i < |h| && h[i].tool == tool ==> h[i].exec + KEY_TTL <= sets[Key(tool)].expiresAt
  }

  /** As long as requests are paced, an expired key held nothing that the trim would have kept. */
  lemma ExpiryHidesNothing(h: seq<Request>, r: Request, sets: map<string, Entry>)
    requires Paced(h + [r], r.tool)
    requires Stores(h, r.tool, Raw(sets, r.tool)) && Outlives(h, r.tool, sets)
    ensures InWindow(sets, r.tool, r.now, r.exec) == Above(Raw(sets, r.tool), r.now - WINDOW)
  {
    var key := Key(r.tool);
    if key in sets && sets[key].expiresAt <= r.exec {
      forall i: nat | i in sets[key].scores
        ensures sets[key].scores[i] <= r.now - WINDOW
      {
        assert Survives(h, r.tool, i, |h|);
        assert (h + [r])[i] == h[i] && (h + [r])[|h|] == r;
      }
      assert Above(sets[key].scores, r.now - WINDOW) == map[];
    }
  }

  lemma SurvivesSnoc(h: seq<Request>, r: Request, tool: string, i: nat)
    ensures Survives(h + [r], tool, i, |h| + 1)
            <==> if r.tool != tool then Survives(h, tool, i, |h|)
                 else i == |h| || (Survives(h, tool, i, |h|) && r.now - WINDOW < h[i].now)
  {
    var h' := h + [r];
    assert h'[|h|] == r && forall m: nat :: m < |h| ==> h'[m] == h[m];
    if i < |h| {
      assert Survives(h', tool, i, |h| + 1)
        <==> Survives(h, tool, i, |h|) && (r.tool == tool ==> r.now - WINDOW < h[i].now);
    }
  }

  /** What a request leaves under the key of a tool. */
  lemma RawStep(limits: Limits, h: seq<Request>, r: Request, sets: map<string, Entry>, tool: string)
    requires tool in limits && Paced(h + [r], tool)
    requires Stores(h, tool, Raw(sets, tool)) && Outlives(h, tool, sets)
    ensures Raw(Record(limits, sets, r, |h|), tool)
            == if r.tool == tool then Above(Raw(sets, tool), r.now - WINDOW)[|h| := r.now] else Raw(sets, tool)
  {
    if r.tool == tool {
      ExpiryHidesNothing(h, r, sets);
    } else if Key(r.tool) == Key(tool) {
      KeyInjective(r.tool, tool);
    }
  }

  lemma OutlivesStep(limits: Limits, h: seq<Request>, r: Request, sets: map<string, Entry>, tool: string)
    requires tool in limits && Paced(h + [r], tool) && Outlives(h, tool, sets)
    ensures Outlives(h + [r], tool, Record(limits, sets, r, |h|))
  {
    var h' := h + [r];
    assert h'[|h|] == r && forall i :: 0 <= i < |h| ==> h'[i] == h[i];
    if r.tool != tool && Key(r.tool) == Key(tool) {
      KeyInjective(r.tool, tool);
    }
  }

  lemma StoresSnoc(h: seq<Request>, r: Request, tool: string, scores: map<Member, Time>)
    requires Stores(h, tool, scores)
    ensures Stores(h + [r], tool,
                   if r.tool == tool then Above(scores, r.now - WINDOW)[|h| := r.now] else scores)
  {
    var h' := h + [r];
    var scores' := if r.tool == tool then Above(scores, r.now - WINDOW)[|h| := r.now] else scores;
    assert h'[|h|] == r && forall i :: 0 <= i < |h| ==> h'[i] == h[i];
    forall i: nat
      ensures i in scores' <==> Survives(h', tool, i, |h'|)
    {
      SurvivesSnoc(h, r, tool, i);
    }
  }

  lemma StoredStep(limits: Limits, h: seq<Request>, r: Request, tool: string)
    requires tool in limits && Paced(h + [r], tool)
    requires Stores(h, tool, Raw(Sets(limits, h), tool)) && Outlives(h, tool, Sets(limits, h))
    ensures Stores(h + [r], tool, Raw(Sets(limits, h + [r]), tool))
    ensures Outlives(h + [r], tool, Sets(limits, h + [r]))
  {
    var sets := Sets(limits, h);
    assert (h + [r])[..|h|] == h;
    assert Sets(limits, h + [r]) == Record(limits, sets, r, |h|);
    OutlivesStep(limits, h, r, sets, tool);
    RawStep(limits, h, r, sets, tool);
    StoresSnoc(h, r, tool, Raw(sets, tool));
  }

  lemma {:induction false} StoredSet(limits: Limits, h: seq<Request>, tool: string)
    requires tool in limits && Paced(h, tool)
    ensures Stores(h, tool, Raw(Sets(limits, h), tool))
    ensures Outlives(h, tool, Sets(limits, h))
  {
    if h != [] {
      var n := |h| - 1;
      assert h == h[..n] + [h[n]];
      StoredSet(limits, h[..n], tool);
      StoredStep(limits, h[..n], h[n], tool);
    }
  }

  /** What request `n` counts: the earlier requests of its tool, admitted or not, that lie less than
      60 seconds before it and before every request in between. */
  lemma CountedExactly(limits: Limits, h: seq<Request>, n: nat)
    requires n < |h| && h[n].tool in limits && Paced(h, h[n].tool)
    ensures forall i: nat :: i in Counted(limits, h, n)
                             <==> Survives(h, h[n].tool, i, n) && h[n].now - WINDOW < h[i].now
  {
    var past, tool := h[..n], h[n].tool;
    PacedPrefix(h, tool, n);
    PacedPrefix(h, tool, n + 1);
    assert past + [h[n]] == h[..n + 1];
    StoredSet(limits, past, tool);
    ExpiryHidesNothing(past, h[n], Sets(limits, past));
    forall i: nat
      ensures Survives(past, tool, i, n) <==> Survives(h, tool, i, n)
    {
      SurvivesPrefix(h, tool, i, n);
    }
  }

  lemma PacedPrefix(h: seq<Request>, tool: string, n: nat)
    requires n <= |h| && Paced(h, tool)
    ensures Paced(h[..n], tool)
  {
  }

  lemma SurvivesPrefix(h: seq<Request>, tool: string, i: nat, n: nat)
    requires n <= |h|
    ensures Survives(h[..n], tool, i, n) <==> Survives(h, tool, i, n)
  {
  }

  // ---------------------------------------------------------------------------
  // The window guarantee
  // ---------------------------------------------------------------------------

  /** Among the first `n` requests, those of the tool admitted with a stamp in `[from, to)`. */
  function AdmittedIn(limits: Limits, h: seq<Request>, tool: string, from: Time, to: Time, n: nat): set<nat>
    requires n <= |h|
  {
    set i: nat | i < n && h[i].tool == tool && from <= h[i].now < to && Admitted(limits, h, i)
  }

  lemma AdmittedSnoc(limits: Limits, h: seq<Request>, tool: string, from: Time, to: Time, n: nat)
    requires n < |h|
    ensures var before, all := AdmittedIn(limits, h, tool, from, to, n), AdmittedIn(limits, h, tool, from, to, n + 1);
            n !in before && all == if n in all then before + {n} else before
  {
  }

  /** Request `i` is stored with its stamp, under a key that lives until 65 s after it. */
  predicate Holds(sets: map<string, Entry>, r: Request, i: nat) {
    var key := Key(r.tool);
    && key in sets
    && i in sets[key].scores && sets[key].scores[i] == r.now
    && r.exec + KEY_TTL <= sets[key].expiresAt
  }

  lemma HoldsStep(limits: Limits, sets: map<string, Entry>, r: Request, i: nat, s: Request, m: nat)
    requires Holds(sets, r, i) && i < m
    requires s.tool == r.tool ==> s.tool in limits && s.now - r.now < WINDOW && r.exec <= s.exec < r.exec + KEY_TTL
    ensures Holds(Record(limits, sets, s, m), r, i)
  {
    if s.tool != r.tool && Key(s.tool) == Key(r.tool) {
      KeyInjective(s.tool, r.tool);
    }
  }

  /** A request stays stored as long as the later ones of its tool come less than 60 s after it by
      their stamps and less than 65 s after it by server time. */
  lemma {:induction false} StaysStored(limits: Limits, h: seq<Request>, i: nat, n: nat)
    requires i < n <= |h| && h[i].tool in limits
    requires forall m :: i < m < n && h[m].tool == h[i].tool ==>
               h[m].now - h[i].now < WINDOW && h[i].exec <= h[m].exec < h[i].exec + KEY_TTL
    ensures Holds(Sets(limits, h[..n]), h[i], i)
  {
    var past := h[..n - 1];
    assert h[..n][..n - 1] == past;
    assert Sets(limits, h[..n]) == Record(limits, Sets(limits, past), h[n - 1], n - 1);
    if i < n - 1 {
      StaysStored(limits, h, i, n - 1);
      HoldsStep(limits, Sets(limits, past), h[i], i, h[n - 1], n - 1);
    }
  }

  lemma NeighboursAreCounted(limits: Limits, h: seq<Request>, w: Time, d: Time, e: Time, i: nat, n: nat)
    requires i < n < |h| && h[i].tool == h[n].tool && h[n].tool in limits
    requires 0.0 <= d && w + d <= WINDOW && w + e <= KEY_TTL
    requires InOrder(h, h[n].tool, d) && Timely(h, h[n].tool, e)
    requires h[n].now - h[i].now < w
    ensures i in Counted(limits, h, n)
  {
    forall m | i < m < n && h[m].tool == h[i].tool
      ensures h[m].now - h[i].now < WINDOW && h[i].exec <= h[m].exec < h[i].exec + KEY_TTL
    {
      assert h[m].now <= h[n].now + d && h[m].exec <= h[n].exec;
    }
    StaysStored(limits, h, i, n);
  }

  /** One more admitted request in the window finds fewer than `limit` of them there already. */
  lemma OneMore(limits: Limits, h: seq<Request>, tool: string, w: Time, d: Time, e: Time, from: Time, n: nat)
    requires tool in limits && n < |h| && h[n].tool == tool
    requires 0.0 <= d && w + d <= WINDOW && w + e <= KEY_TTL && InOrder(h, tool, d) && Timely(h, tool, e)
    requires from <= h[n].now < from + w && Admitted(limits, h, n)
    ensures |AdmittedIn(limits, h, tool, from, from + w, n)| < limits[tool]
  {
    var before := AdmittedIn(limits, h, tool, from, from + w, n);
    var counted := Counted(limits, h, n).Keys;
    forall i | i in before
      ensures i in counted
    {
      NeighboursAreCounted(limits, h, w, d, e, i, n);
    }
    SubsetSize(before, counted);
  }

  lemma WindowStep(limits: Limits, h: seq<Request>, tool: string, from: Time, to: Time, n: nat, bound: nat)
    requires n < |h| && |AdmittedIn(limits, h, tool, from, to, n)| <= bound
    requires n in AdmittedIn(limits, h, tool, from, to, n + 1) ==> |AdmittedIn(limits, h, tool, from, to, n)| < bound
    ensures |AdmittedIn(limits, h, tool, from, to, n + 1)| <= bound
  {
    AdmittedSnoc(limits, h, tool, from, to, n);
  }

  function Bound(limits: Limits, tool: string): nat
    requires tool in limits
  {
    if limits[tool] < 0 then 0 else limits[tool]
  }

  /** If stamps fall out of order by at most `d` and the time to the pipeline grows by at most `e`, every
      half-open window of `w` seconds holds at most `limit` admitted calls, provided that `w + d <= 60` and
      `w + e <= 65`. For stamps in order and up to 5 seconds of growth this is the plain guarantee of 60
      seconds. */
  lemma {:induction false} WindowLimit(limits: Limits, h: seq<Request>, tool: string, w: Time, d: Time, e: Time,
                                       from: Time, n: nat)
    requires tool in limits && n <= |h| && InOrder(h, tool, d) && Timely(h, tool, e)
    requires 0.0 <= d && w + d <= WINDOW && w + e <= KEY_TTL
    ensures |AdmittedIn(limits, h, tool, from, from + w, n)| <= Bound(limits, tool)
  {
    if n > 0 {
      WindowLimit(limits, h, tool, w, d, e, from, n - 1);
      if n - 1 in AdmittedIn(limits, h, tool, from, from + w, n) {
        OneMore(limits, h, tool, w, d, e, from, n - 1);
      }
      WindowStep(limits, h, tool, from, from + w, n - 1, Bound(limits, tool));
    } else {
      assert AdmittedIn(limits, h, tool, from, from + w, 0) == {};
    }
  }

  lemma {:induction false} SubsetSize<T>(a: set<T>, b: set<T>)
    requires a <= b
    ensures |a| <= |b|
  {
    if a != {} {
      var x :| x in a;
      SubsetSize(a - {x}, b - {x});
    }
  }

  /** The window of `w` seconds from `from` holds at most `limit` admitted requests of the tool. */
  predicate Kept(limits: Limits, h: seq<Request>, tool: string, from: Time, w: Time) {
    tool in limits ==> |AdmittedIn(limits, h, tool, from, from + w, |h|)| <= Bound(limits, tool)
  }

  /** In every history with at most these deviations every window of `w` seconds is kept. */
  ghost predicate Guaranteed(w: Time, d: Time, e: Time) {
    forall limits: Limits, h: seq<Request>, tool: string, from: Time
      :: InOrder(h, tool, d) && Steady(h, tool, e) ==> Kept(limits, h, tool, from, w)
  }

  /** Two requests to "t", `gap` apart by their stamps and 65 seconds by server time: the key has just
      expired, and both are admitted over a limit of one. */
  function ExpiredPair(gap: Time): seq<Request> {
    [Request("t", 0.0, 0.0), Request("t", gap, KEY_TTL)]
  }

  lemma ExpiredPairAdmitted(gap: Time)
    ensures var h := ExpiredPair(gap);
            Admitted(map["t" := 1], h, 0) && Admitted(map["t" := 1], h, 1)
  {
    var limits := map["t" := 1];
    var h := ExpiredPair(gap);
    assert h[..0] == [] && h[..1] == [h[0]] && [h[0]][..0] == [];
    assert Sets(limits, [h[0]]) == AfterCheck(map[], "t", 0.0, 0.0, 0);
    assert InWindow(Sets(limits, h[..0]), "t", 0.0, 0.0) == map[];
    assert InWindow(Sets(limits, h[..1]), "t", gap, KEY_TTL) == map[];
  }

  /** Two requests, one 60 seconds later that trims both, and one stamped `d` before that. */
  function Straggler(d: Time): seq<Request> {
    [Request("t", 0.0, 0.0), Request("t", 0.0, 0.0), Request("t", WINDOW, WINDOW), Request("t", WINDOW - d, WINDOW)]
  }

  lemma StragglerCounts(d: Time, n: nat, seen: set<nat>)
    requires 0.0 <= d <= WINDOW && n < 4
    requires forall i: nat :: Survives(Straggler(d), "t", i, n) ==> i in seen
    requires |seen| < 2
    ensures Admitted(map["t" := 2], Straggler(d), n)
  {
    var limits := map["t" := 2];
    var h := Straggler(d);
    assert Paced(h, "t");
    CountedExactly(limits, h, n);
    assert Counted(limits, h, n).Keys <= seen;
    SubsetSize(Counted(limits, h, n).Keys, seen);
  }

  lemma StragglerAdmitted(d: Time)
    requires 0.0 <= d <= WINDOW
    ensures var h := Straggler(d);
            Admitted(map["t" := 2], h, 0) && Admitted(map["t" := 2], h, 1) && Admitted(map["t" := 2], h, 3)
  {
    var h := Straggler(d);
    StragglerCounts(d, 0, {});
    StragglerCounts(d, 1, {0});
    assert h[2].tool == "t" && h[2].now - WINDOW == h[0].now == h[1].now;
    StragglerCounts(d, 3, {2});
  }

  lemma StragglerOverLimit(lag: Time, w: Time)
    requires 0.0 < w && 0.0 <= lag <= WINDOW && w + lag > WINDOW
    ensures !Kept(map["t" := 2], Straggler(lag), "t", 0.0, w)
  {
    var h, limits := Straggler(lag), map["t" := 2];
    StragglerAdmitted(lag);
    var admitted := AdmittedIn(limits, h, "t", 0.0, 0.0 + w, |h|);
    assert 0 in admitted && 1 in admitted && 3 in admitted;
    SubsetSize({0, 1, 3}, admitted);
  }

  lemma StragglerDeviates(lag: Time, d: Time, e: Time)
    requires 0.0 <= lag <= d && lag <= e
    ensures InOrder(Straggler(lag), "t", d) && Steady(Straggler(lag), "t", e)
  {
  }

  lemma OutOfOrderBreaks(w: Time, d: Time, e: Time)
    requires 0.0 < w && 0.0 <= d && 0.0 <= e && w + d > WINDOW && w + e > WINDOW
    ensures !Guaranteed(w, d, e)
  {
    var lag := if d <= e then d else e;
    lag := if lag <= WINDOW then lag else WINDOW;
    StragglerOverLimit(lag, w);
    StragglerDeviates(lag, d, e);
  }

  /** Requests executed in order whose time to the pipeline grows by at most `e` are at most `e` out of
      order. */
  lemma TimelyInOrder(h: seq<Request>, tool: string, e: Time)
    requires Timely(h, tool, e)
    ensures InOrder(h, tool, e)
  {
    forall i, j | 0 <= i < j < |h| && h[i].tool == h[j].tool == tool
      ensures h[i].now <= h[j].now + e
    {
      assert h[i].exec <= h[j].exec;
    }
  }

  lemma JitterBreaks(w: Time, d: Time, e: Time)
    requires 0.0 <= d && 0.0 <= e && 0.0 < w && w + e > KEY_TTL
    ensures !Guaranteed(w, d, e)
  {
    var gap := if e <= KEY_TTL then KEY_TTL - e else 0.0;
    var h, limits := ExpiredPair(gap), map["t" := 1];
    ExpiredPairAdmitted(gap);
    assert InOrder(h, "t", d) && Steady(h, "t", e);
    var admitted := AdmittedIn(limits, h, "t", 0.0, 0.0 + w, |h|);
    assert 0 in admitted && 1 in admitted;
    SubsetSize({0, 1}, admitted);
    assert !Kept(limits, h, "t", 0.0, w);
  }

  /** The window guarantee, exactly: both sums are sharp, for all deviations and every width. */
  lemma GuaranteedExactly(w: Time, d: Time, e: Time)
    requires 0.0 < w && 0.0 <= d && 0.0 <= e
    ensures Guaranteed(w, d, e) <==> (w + d <= 60.0 || w + e <= 60.0) && w + e <= 65.0
  {
    if w + d > WINDOW && w + e > WINDOW {
      OutOfOrderBreaks(w, d, e);
    } else if w + e > KEY_TTL {
      JitterBreaks(w, d, e);
    } else {
      forall limits: Limits, h: seq<Request>, tool: string, from: Time | InOrder(h, tool, d) && Steady(h, tool, e)
        ensures Kept(limits, h, tool, from, w)
      {
        TimelyInOrder(h, tool, e);
        if tool in limits {
          WindowLimit(limits, h, tool, w, if w + d <= WINDOW then d else e, e, from, |h|);
        }
      }
    }
  }

  // ---------------------------------------------------------------------------
  // The exact rule for stamps in order
  // ---------------------------------------------------------------------------

  /** Requests of the tool before request `n`, admitted or rejected, in the 60 seconds up to it. */
  function Recent(h: seq<Request>, n: nat): set<nat>
    requires n < |h|
  {
    set i: nat | i < n && h[i].tool == h[n].tool && h[n].now - 60.0 < h[i].now <= h[n].now
  }

  /** If the tool's stamps come in order and its requests are paced, a request is admitted if and only
      if fewer than `limit` requests came in the 60 seconds before it. */
  lemma AdmissionRule(limits: Limits, h: seq<Request>, n: nat)
    requires n < |h| && h[n].tool in limits && InOrder(h, h[n].tool, 0.0) && Paced(h, h[n].tool)
    ensures Admitted(limits, h, n) <==> |Recent(h, n)| < limits[h[n].tool]
  {
    CountedExactly(limits, h, n);
    assert Counted(limits, h, n).Keys == Recent(h, n);
  }

  /** The rule holds in every history of ordered stamps whose time to the pipeline varies by at most `e`. */
  ghost predicate RuleHolds(e: Time) {
    forall limits: Limits, h: seq<Request>, n: nat
      | n < |h| && h[n].tool in limits && InOrder(h, h[n].tool, 0.0) && Steady(h, h[n].tool, e)
      :: Admitted(limits, h, n) <==> |Recent(h, n)| < limits[h[n].tool]
  }

  /** The five seconds by which the key outlives the window are exactly what the rule tolerates. */
  lemma AdmissionRuleExactly(e: Time)
    ensures RuleHolds(e) <==> e <= 5.0
  {
    if e <= KEY_TTL - WINDOW {
      forall limits: Limits, h: seq<Request>, n: nat
        | n < |h| && h[n].tool in limits && InOrder(h, h[n].tool, 0.0) && Steady(h, h[n].tool, e)
        ensures Admitted(limits, h, n) <==> |Recent(h, n)| < limits[h[n].tool]
      {
        AdmissionRule(limits, h, n);
      }
    } else {
      var gap := if e <= KEY_TTL then KEY_TTL - e else 0.0;
      var h := ExpiredPair(gap);
      ExpiredPairAdmitted(gap);
      assert InOrder(h, "t", 0.0) && Steady(h, "t", e);
      assert Recent(h, 1) == {0};
    }
  }

  /** Somebody asks for the tool at the requests `calls`, `gap` seconds apart at most; other requests,
      to this tool or others, may come in between. */
  ghost predicate Polls(h: seq<Request>, tool: string, calls: seq<nat>, gap: Time) {
    && (forall k :: 0 <= k < |calls| ==> calls[k] < |h| && h[calls[k]].tool == tool)
    && (forall k, l :: 0 <= k && l == k + 1 < |calls| ==>
          calls[k] < calls[l] && h[calls[l]].now - h[calls[k]].now <= gap)
  }

  lemma {:induction false} Spaced(h: seq<Request>, tool: string, calls: seq<nat>, gap: Time, k: nat, l: nat)
    requires k <= l < |calls| && Polls(h, tool, calls, gap)
    ensures calls[k] <= calls[l] && (k < l ==> calls[k] < calls[l])
    ensures h[calls[l]].now - h[calls[k]].now <= (l - k) as real * gap
  {
    if k < l {
      Spaced(h, tool, calls, gap, k, l - 1);
      var c := (l - 1 - k) as real;
      assert (l - k) as real == c + 1.0;
      assert (c + 1.0) * gap == c * gap + gap;
    }
  }

  lemma ShortSpan(count: int, limit: int, gap: Time)
    requires 0 <= count <= limit && limit as real * gap < WINDOW
    ensures count as real * gap < WINDOW
  {
    if gap >= 0.0 {
      assert (limit - count) as real * gap >= 0.0;
      assert limit as real * gap == count as real * gap + (limit - count) as real * gap;
    } else {
      assert count as real * gap <= 0.0;
    }
  }

  /** Rejected requests count too: whoever keeps asking, with `limit` gaps shorter than the window, is
      never admitted again after the first `limit` requests. */
  lemma PersistentClientStarves(limits: Limits, h: seq<Request>, tool: string, calls: seq<nat>, gap: Time, k: nat)
    requires tool in limits && 0 <= limits[tool] <= k < |calls|
    requires InOrder(h, tool, 0.0) && Paced(h, tool)
    requires Polls(h, tool, calls, gap) && limits[tool] as real * gap < WINDOW
    ensures !Admitted(limits, h, calls[k])
  {
    var limit, n := limits[tool], calls[k];
    AdmissionRule(limits, h, n);
    forall l | k - limit <= l < k
      ensures calls[l] in Recent(h, n)
    {
      Spaced(h, tool, calls, gap, l, k);
      ShortSpan(k - l, limit, gap);
    }
    var recent := Positions(h, tool, calls, gap, k - limit, k);
    SubsetSize(recent, Recent(h, n));
  }

  lemma {:induction false} Positions(h: seq<Request>, tool: string, calls: seq<nat>, gap: Time, k: nat, l: nat)
    returns (ps: set<nat>)
    requires k <= l < |calls| && Polls(h, tool, calls, gap)
    ensures |ps| == l - k
    ensures forall p :: p in ps ==> exists m :: k <= m < l && calls[m] == p
  {
    ps := {};
    if k < l {
      ps := Positions(h, tool, calls, gap, k, l - 1);
      forall m | k <= m < l - 1
        ensures calls[m] != calls[l - 1]
      {
        Spaced(h, tool, calls, gap, m, l - 1);
      }
      ps := ps + {calls[l - 1]};
    }
  }
}
