/**
 The sliding-window rate limiter: a Redis sorted set per tool, trimmed, counted and extended in
 one atomic pipeline on every request.

 The timestamp of a request is taken before its pipeline runs, so stamps can arrive out of order;
 the key itself expires 65 seconds after the last pipeline, by the server's clock.
 */
module RateLimiter {
  import opened Common

  const WINDOW: Time := 60.0
  const KEY_TTL: Time := 65.0

  /** A member of a sorted set; every request adds a fresh one (a UUID in the program). */
  type Member = nat

  datatype Entry = Entry(scores: map<Member, Time>, expiresAt: Time)

  function Key(tool: string): string {
    "toolrate:" + tool
  }

  lemma KeyLayout(tool: string)
    ensures |Key(tool)| == 9 + |tool| && Key(tool)[..9] == "toolrate:" && Key(tool)[9..] == tool
  {
  }

  lemma KeyInjective(t1: string, t2: string)
    requires Key(t1) == Key(t2)
    ensures t1 == t2
  {
    assert Key(t1)[9..] == t1 && Key(t2)[9..] == t2;
  }

  // ---------------------------------------------------------------------------
  // One request, as a function of the tool's entry
  // ---------------------------------------------------------------------------

  /** The scores a command executed at server time `exec` finds under the tool's key. */
  function Present(sets: map<string, Entry>, tool: string, exec: Time): map<Member, Time> {
    var key := Key(tool);
    if key in sets && exec < sets[key].expiresAt then sets[key].scores else map[]
  }

  /** What `ZREMRANGEBYSCORE key -inf upTo` leaves: the bound itself is removed too. */
  function Above(scores: map<Member, Time>, upTo: Time): map<Member, Time> {
    map m | m in scores && upTo < scores[m] :: scores[m]
  }

  function InWindow(sets: map<string, Entry>, tool: string, now: Time, exec: Time): map<Member, Time> {
    Above(Present(sets, tool, exec), now - WINDOW)
  }

  function AfterCheck(sets: map<string, Entry>, tool: string, now: Time, exec: Time, m: Member): map<string, Entry> {
    sets[Key(tool) := Entry(InWindow(sets, tool, now, exec)[m := now], exec + KEY_TTL)]
  }

  class SortedSets {
    var up: bool
    var sets: map<string, Entry>

    constructor ()
      ensures up && sets == map[]
    {
      up, sets := true, map[];
    }

    /** The pipeline, executed as one transaction at server time `exec`: trim, count, add, expire. */
    method Pipeline(tool: string, upTo: Time, m: Member, score: Time, ttl: Time, exec: Time)
      returns (card: nat)
      modifies this`sets
      ensures var kept := Above(Present(old(sets), tool, exec), upTo);
              && card == |kept|
              && sets == old(sets)[Key(tool) := Entry(kept[m := score], exec + ttl)]
    {
      var scores := Present(sets, tool, exec);
      scores := Above(scores, upTo);
      card := |scores|;
      scores := scores[m := score];
      sets := sets[Key(tool) := Entry(scores, exec + ttl)];
    }
  }

  class ToolRateLimiter {
    const redis: SortedSets
    const limits: map<string, int>

    constructor (redis: SortedSets, limits: map<string, int>)
      ensures this.redis == redis && this.limits == limits
    {
      this.redis, this.limits := redis, limits;
    }

    /** One check: `now` is the stamp taken by the caller, `exec` the server time of the pipeline. A
        rejected request is recorded like an admitted one; a tool without a limit is not recorded at
        all, and neither is anything while Redis is down. */
    method Check(tool: string, now: Time, exec: Time, m: Member) returns (r: Option<Exn>)
      modifies redis`sets
      ensures tool !in limits || !redis.up ==> r == None && redis.sets == old(redis.sets)
      ensures tool in limits && redis.up ==>
                && redis.sets == AfterCheck(old(redis.sets), tool, now, exec, m)
                && r == if |InWindow(old(redis.sets), tool, now, exec)| < limits[tool]
                        then None else Some(ToolExecutionError(tool, true))
    {
      if tool !in limits || !redis.up {
        return None;
      }
      var limit := limits[tool];
      var count := redis.Pipeline(tool, now - WINDOW, m, now, KEY_TTL, exec);
      r := if count >= limit then Some(ToolExecutionError(tool, true)) else None;
    }
  }
}
