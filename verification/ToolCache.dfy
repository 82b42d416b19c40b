/**
 The tool result cache: write detection, argument normalisation, and the Redis entries.

 A key is the tool and the normal form of the arguments: the SHA-256 fingerprint of the sorted
 JSON text is taken to be injective.
 */
module ToolCache {
  import opened Common
  import opened Text

  /** A JSON-like argument value. Dictionary order is irrelevant, as everywhere below. */
  datatype Json =
    | Null
    | Bool(b: bool)
    | Int(n: int)
    | Float(r: real)
    | Str(s: string)
    | List(items: seq<Json>)
    | Dict(fields: Arguments)

  type Arguments = map<string, Json>

  datatype ToolResult = ToolResult(tool: string, success: bool, output: Option<Json>, error: Option<string>)

  // ---------------------------------------------------------------------------
  // Write detection and normalisation
  // ---------------------------------------------------------------------------

  const WRITE_PATTERNS: set<string> :=
    {"create", "post", "delete", "update", "put", "patch", "remove", "write"}

  predicate MentionsWrite(text: string) {
    Tokens(text) * WRITE_PATTERNS != {}
  }

  /** Looks at keys and string values of the top level only. */
  predicate IsWrite(arguments: Arguments) {
    || (exists k <- arguments :: arguments[k].Str? && MentionsWrite(arguments[k].s))
    || (exists k <- arguments :: MentionsWrite(k))
  }

  const TWO_53 := 0x20_0000_0000_0000

  /** The multiple of `unit` nearest to `n`; of two, the even one. */
  function NearestEven(n: nat, unit: nat): nat
    requires unit > 0
  {
    var q, r := n / unit, n % unit;
    if 2 * r < unit || (2 * r == unit && q % 2 == 0) then q * unit else (q + 1) * unit
  }

  /** `n` rounded to 53 bits, trying units from `unit` up. */
  function Rounded(n: nat, unit: nat): nat
    requires unit > 0
    decreases n - unit
  {
    if n < TWO_53 * unit then NearestEven(n, unit) else Rounded(n, 2 * unit)
  }

  /** Python's `float(n)`, for an integer that is not too large. */
  function ToFloat(n: int): real {
    if n < 0 then -(Rounded(-n, 1) as real) else Rounded(n, 1) as real
  }

  /** `float(n)` is a nearest multiple of a unit, the even one of two, for the one power of two with which
      it has 53 bits. */
  lemma {:induction false} RoundedMeaning(n: nat, e: nat) returns (q: nat, f: nat)
    requires e == 0 || n >= TWO_53 * Two(e - 1)
    ensures f >= e && Rounded(n, Two(e)) == q * Two(f)
    ensures var unit := Two(f);
            && n < TWO_53 * unit && (f == 0 || n >= TWO_53 * Two(f - 1))
            && Midway(n, q * unit, q, unit)
    decreases n - Two(e)
  {
    var unit := Two(e);
    if n < TWO_53 * unit {
      f := e;
      q := Nearest(n, unit);
    } else {
      assert Two(e + 1) == 2 * unit;
      q, f := RoundedMeaning(n, e + 1);
    }
  }

  /** Of the multiples of the unit, the one with `q` units, `m`, is nearest to `n`, and the even one of two. */
  predicate Midway(n: int, m: int, q: int, unit: int) {
    && 2 * n - 2 * m <= unit && 2 * m - 2 * n <= unit
    && (2 * n - 2 * m == unit || 2 * m - 2 * n == unit ==> q % 2 == 0)
  }

  lemma Choice(n: int, m: int, r: int, q: int, unit: int)
    requires n == m + r && 0 <= r < unit
    ensures 2 * r < unit || (2 * r == unit && q % 2 == 0) ==> Midway(n, m, q, unit)
    ensures !(2 * r < unit || (2 * r == unit && q % 2 == 0)) ==> Midway(n, m + unit, q + 1, unit)
  {
  }

  lemma ToFloatMeaning(n: int) returns (q: nat, f: nat)
    ensures ToFloat(n) == if n < 0 then -((q * Two(f)) as real) else (q * Two(f)) as real
    ensures var m := if n < 0 then -n else n;
            && m < TWO_53 * Two(f) && (f == 0 || m >= TWO_53 * Two(f - 1))
            && Midway(m, q * Two(f), q, Two(f))
  {
    q, f := RoundedMeaning(if n < 0 then -n else n, 0);
  }

  lemma Nearest(n: nat, unit: nat) returns (q: nat)
    requires unit > 0
    ensures NearestEven(n, unit) == q * unit && Midway(n, q * unit, q, unit)
  {
    var down, r := n / unit, n % unit;
    Choice(n, down * unit, r, down, unit);
    assert (down + 1) * unit == down * unit + unit;
    q := if 2 * r < unit || (2 * r == unit && down % 2 == 0) then down else down + 1;
  }

  function Two(n: nat): (p: nat)
    ensures p >= 1
  {
    if n == 0 then 1 else 2 * Two(n - 1)
  }

  /** Lists are left alone, whatever they hold. */
  function Normal(v: Json): Json {
    match v
    case Bool(_) => v
    case Str(s) => Str(Lower(Strip(s)))
    case Int(n) => Float(ToFloat(n))
    case Dict(fields) => Dict(map k | k in fields :: Normal(fields[k]))
    case _ => v
  }

  function NormalArguments(arguments: Arguments): Arguments {
    map k | k in arguments :: Normal(arguments[k])
  }

  const TWO_64 := 0x1_0000_0000_0000_0000
  const TWO_256 := TWO_64 * TWO_64 * TWO_64 * TWO_64

  /** 2^1024 - 2^970: the least integer that rounds to no finite double. */
  const FLOAT_LIMIT := 0x3F_FFFF_FFFF_FFFF * 0x400 * TWO_64 * TWO_64 * TWO_64 * TWO_256 * TWO_256 * TWO_256

  predicate TooLarge(n: int) {
    n >= FLOAT_LIMIT || n <= -FLOAT_LIMIT
  }

  /** Normalising the value raises `OverflowError`: it holds, outside lists, an integer that is too large. */
  predicate Overflows(v: Json) {
    match v
    case Int(n) => TooLarge(n)
    case Dict(fields) => exists k <- fields :: Overflows(fields[k])
    case _ => false
  }

  predicate OverflowsIn(arguments: Arguments) {
    exists k <- arguments :: Overflows(arguments[k])
  }

  /** `_normalize_arguments`: fills a new dictionary key by key, in whatever order the keys come; the
      result does not depend on that order. `None` stands for the exception. */
  method NormalizeArguments(arguments: Arguments) returns (r: Option<Arguments>)
    ensures r == if OverflowsIn(arguments) then None else Some(NormalArguments(arguments))
    decreases Dict(arguments)
  {
    var normalized: Arguments := map[];
    var keys := arguments.Keys;
    while keys != {}
      invariant keys <= arguments.Keys
      invariant normalized == map k | k in arguments.Keys - keys :: Normal(arguments[k])
      invariant forall k <- arguments.Keys - keys :: !Overflows(arguments[k])
      decreases keys
    {
      var k :| k in keys;
      keys := keys - {k};
      var v := arguments[k];
      match v {
        case Str(s) => v := Str(Lower(Strip(s)));
        case Int(n) =>
          if TooLarge(n) {
            assert Overflows(arguments[k]);
            return None;
          }
          v := Float(ToFloat(n));
        case Dict(fields) =>
          var inner := NormalizeArguments(fields);
          if inner.None? {
            assert Overflows(arguments[k]);
            return None;
          }
          v := Dict(inner.value);
        case _ =>
      }
      assert v == Normal(arguments[k]) && !Overflows(arguments[k]);
      normalized := normalized[k := v];
    }
    assert normalized == NormalArguments(arguments);
    assert !OverflowsIn(arguments);
    r := Some(normalized);
  }

  lemma {:induction false} NormalIdempotent(v: Json)
    ensures Normal(Normal(v)) == Normal(v)
  {
    match v
    case Str(s) => NormalizedIsFixed(s);
    case Dict(fields) =>
      forall k | k in fields
        ensures Normal(Normal(fields[k])) == Normal(fields[k])
      {
        NormalIdempotent(fields[k]);
      }
    case _ =>
  }

  /** Normalising twice is normalising once. */
  lemma NormalArgumentsIdempotent(arguments: Arguments)
    ensures NormalArguments(NormalArguments(arguments)) == NormalArguments(arguments)
  {
    forall k | k in arguments
      ensures Normal(Normal(arguments[k])) == Normal(arguments[k])
    {
      NormalIdempotent(arguments[k]);
    }
  }

  /** Normalisation never turns a write into a read or a read into a write. */
  lemma NormalKeepsWrite(arguments: Arguments)
    ensures IsWrite(NormalArguments(arguments)) <==> IsWrite(arguments)
  {
    var normal := NormalArguments(arguments);
    forall k | k in arguments
      ensures normal[k].Str? <==> arguments[k].Str?
      ensures arguments[k].Str? ==> (MentionsWrite(normal[k].s) <==> MentionsWrite(arguments[k].s))
    {
      if arguments[k].Str? {
        TokensOfNormalized(arguments[k].s);
      }
    }
    if exists k <- arguments :: arguments[k].Str? && MentionsWrite(arguments[k].s) {
      var k :| k in arguments && arguments[k].Str? && MentionsWrite(arguments[k].s);
      assert k in normal && normal[k].Str? && MentionsWrite(normal[k].s);
    }
    if exists k <- arguments :: MentionsWrite(k) {
      var k :| k in arguments && MentionsWrite(k);
      assert k in normal;
    }
    if exists k <- normal :: MentionsWrite(k) {
      var k :| k in normal && MentionsWrite(k);
      assert k in arguments;
    }
  }

  /** Calls that share a cache key are both writes or both reads. */
  lemma SameKeySameClass(a: Arguments, b: Arguments)
    requires NormalArguments(a) == NormalArguments(b)
    ensures IsWrite(a) <==> IsWrite(b)
  {
    NormalKeepsWrite(a);
    NormalKeepsWrite(b);
  }

  /** Two values are one to the cache: equal but for the case and outer white space of text, for numbers
      that convert to one float, and for such differences inside dictionaries. */
  ghost predicate SameValue(v: Json, w: Json) {
    match (v, w)
    case (Str(s), Str(t)) => Lower(Strip(s)) == Lower(Strip(t))
    case (Int(m), Int(n)) => ToFloat(m) == ToFloat(n)
    case (Int(m), Float(r)) => ToFloat(m) == r
    case (Float(r), Int(n)) => r == ToFloat(n)
    case (Dict(f), Dict(g)) => f.Keys == g.Keys && forall k <- f :: SameValue(f[k], g[k])
    case _ => v == w && !v.Dict? && !v.Int? && !v.Str?
  }

  lemma {:induction false} SameNormal(v: Json, w: Json)
    ensures Normal(v) == Normal(w) <==> SameValue(v, w)
  {
    if v.Dict? && w.Dict? {
      var f, g := v.fields, w.fields;
      forall k | k in f && k in g
        ensures Normal(f[k]) == Normal(g[k]) <==> SameValue(f[k], g[k])
      {
        SameNormal(f[k], g[k]);
      }
      SameFields(f, g);
    }
  }

  lemma SameFields(f: Arguments, g: Arguments)
    requires forall k | k in f && k in g :: Normal(f[k]) == Normal(g[k]) <==> SameValue(f[k], g[k])
    ensures NormalArguments(f) == NormalArguments(g)
            <==> f.Keys == g.Keys && forall k <- f :: SameValue(f[k], g[k])
  {
    var a, b := NormalArguments(f), NormalArguments(g);
    assert a.Keys == f.Keys && b.Keys == g.Keys;
    if a == b {
      forall k | k in f
        ensures SameValue(f[k], g[k])
      {
        assert a[k] == b[k];
      }
    }
  }

  /** Exactly which calls share a key: those of one tool whose arguments have the same names, with values
      that are one to the cache. */
  lemma SameKeyExactly(tool: string, f: Arguments, other: string, g: Arguments)
    ensures KeyOf(tool, f) == KeyOf(other, g)
            <==> tool == other && f.Keys == g.Keys && forall k <- f :: SameValue(f[k], g[k])
  {
    forall k | k in f && k in g
      ensures Normal(f[k]) == Normal(g[k]) <==> SameValue(f[k], g[k])
    {
      SameNormal(f[k], g[k]);
    }
    SameFields(f, g);
  }

  // ---------------------------------------------------------------------------
  // What a write is
  // ---------------------------------------------------------------------------

  /** A key or a string value of the top level. */
  ghost predicate TopLevelText(arguments: Arguments, text: string) {
    text in arguments || exists k <- arguments :: arguments[k] == Str(text)
  }

  /** Some top-level text holds one of eight words: a maximal run of letters, whatever their case. */
  ghost predicate Writes(arguments: Arguments) {
    exists text, w :: TopLevelText(arguments, text) && HasRun(Lower(text), w)
                      && w in ["create", "post", "delete", "update", "put", "patch", "remove", "write"]
  }

  lemma MentionsWriteMeaning(text: string)
    ensures MentionsWrite(text)
            <==> exists w :: HasRun(Lower(text), w)
                             && w in ["create", "post", "delete", "update", "put", "patch", "remove", "write"]
  {
    forall w
      ensures w in Tokens(text) <==> HasRun(Lower(text), w)
    {
      TokenMeaning(text, w);
    }
    if MentionsWrite(text) {
      var w :| w in Tokens(text) * WRITE_PATTERNS;
      assert HasRun(Lower(text), w);
    }
    if exists w :: HasRun(Lower(text), w)
                   && w in ["create", "post", "delete", "update", "put", "patch", "remove", "write"]
    {
      var w :| HasRun(Lower(text), w)
               && w in ["create", "post", "delete", "update", "put", "patch", "remove", "write"];
      assert w in Tokens(text) * WRITE_PATTERNS;
    }
  }

  lemma WriteMeaning(arguments: Arguments)
    ensures IsWrite(arguments) <==> Writes(arguments)
  {
    forall text
      ensures MentionsWrite(text)
              <==> exists w :: HasRun(Lower(text), w)
                               && w in ["create", "post", "delete", "update", "put", "patch", "remove", "write"]
    {
      MentionsWriteMeaning(text);
    }
    if IsWrite(arguments) {
      var text := WritingText(arguments);
      assert TopLevelText(arguments, text) && MentionsWrite(text);
    }
    if Writes(arguments) {
      var text, w :| TopLevelText(arguments, text) && HasRun(Lower(text), w)
                     && w in ["create", "post", "delete", "update", "put", "patch", "remove", "write"];
      assert MentionsWrite(text);
      if text !in arguments {
        var k :| k in arguments && arguments[k] == Str(text);
      }
    }
  }

  lemma WritingText(arguments: Arguments) returns (text: string)
    requires IsWrite(arguments)
    ensures TopLevelText(arguments, text) && MentionsWrite(text)
  {
    if exists k <- arguments :: MentionsWrite(k) {
      text :| text in arguments && MentionsWrite(text);
    } else {
      var k :| k in arguments && arguments[k].Str? && MentionsWrite(arguments[k].s);
      text := arguments[k].s;
    }
  }

  /** Integers up to 2^53 keep their value, so calls that differ in one of them differ in their key. */
  lemma SmallIntegersExact(n: int)
    requires -TWO_53 <= n <= TWO_53
    ensures Normal(Int(n)) == Float(n as real)
  {
    var m := if n < 0 then -n else n;
    if m == TWO_53 {
      assert Rounded(m, 1) == Rounded(m, 2) == NearestEven(m, 2);
    }
  }

  /** The integer after 2^53 shares the key of 2^53. */
  lemma LargeIntegersCollide(tool: string, name: string)
    ensures KeyOf(tool, map[name := Int(TWO_53 + 1)]) == KeyOf(tool, map[name := Int(TWO_53)])
  {
    var n := TWO_53 + 1;
    assert Rounded(n, 1) == Rounded(n, 2) == NearestEven(n, 2);
    assert n / 2 == TWO_53 / 2;
    SmallIntegersExact(TWO_53);
    assert Normal(Int(n)) == Normal(Int(TWO_53));
  }

  // ---------------------------------------------------------------------------
  // Entries
  // ---------------------------------------------------------------------------

  datatype CacheKey = CacheKey(tool: string, normal: Arguments)

  datatype CacheEntry = CacheEntry(result: ToolResult, expiresAt: Time)

  type Entries = map<CacheKey, CacheEntry>

  function KeyOf(tool: string, arguments: Arguments): CacheKey {
    CacheKey(tool, NormalArguments(arguments))
  }

  const OVERFLOW := OtherError("OverflowError")

  /** The cache raises instead of answering: it is asked about a read that has no normal form. */
  predicate Rejects(arguments: Arguments) {
    !IsWrite(arguments) && OverflowsIn(arguments)
  }

  function Lookup(entries: Entries, tool: string, arguments: Arguments, now: Time): Option<ToolResult> {
    var key := KeyOf(tool, arguments);
    if !IsWrite(arguments) && key in entries && now < entries[key].expiresAt
    then Some(entries[key].result) else None
  }

  /** Redis refuses a time-to-live that is not positive; the error is logged and nothing is stored. */
  function Store(entries: Entries, tool: string, arguments: Arguments, r: ToolResult, ttl: int, now: Time): Entries {
    if IsWrite(arguments) || ttl <= 0 then entries
    else entries[KeyOf(tool, arguments) := CacheEntry(r, now + ttl as real)]
  }

  class ToolResultCache {
    var up: bool
    var entries: Entries

    constructor ()
      ensures up && entries == map[]
    {
      up, entries := true, map[];
    }

    /** The key is computed outside the handler that catches the errors of Redis. */
    method Get(tool: string, arguments: Arguments, now: Time) returns (r: Outcome<Option<ToolResult>>)
      ensures r == if Rejects(arguments) then Raised(OVERFLOW)
                   else Returned(if up then Lookup(entries, tool, arguments, now) else None)
      ensures Writes(arguments) ==> r == Returned(None)
      ensures !Writes(arguments) && OverflowsIn(arguments) ==> r == Raised(OVERFLOW)
    {
      WriteMeaning(arguments);
      if IsWrite(arguments) {
        return Returned(None);
      }
      var normal := NormalizeArguments(arguments);
      if normal.None? {
        return Raised(OVERFLOW);
      }
      var key := CacheKey(tool, normal.value);
      if up && key in entries && now < entries[key].expiresAt {
        r := Returned(Some(entries[key].result));
      } else {
        r := Returned(None);
      }
    }

    method Set(tool: string, arguments: Arguments, result: ToolResult, ttl: int, now: Time) returns (r: Option<Exn>)
      modifies this`entries
      ensures r == if Rejects(arguments) then Some(OVERFLOW) else None
      ensures entries == if up && r.None? then Store(old(entries), tool, arguments, result, ttl, now)
                         else old(entries)
      ensures Writes(arguments) ==> r.None? && entries == old(entries)
      ensures up && !Writes(arguments) && !OverflowsIn(arguments) && ttl > 0 ==>
                entries == old(entries)[KeyOf(tool, arguments) := CacheEntry(result, now + ttl as real)]
    {
      WriteMeaning(arguments);
      if IsWrite(arguments) {
        return None;
      }
      var normal := NormalizeArguments(arguments);
      if normal.None? {
        return Some(OVERFLOW);
      }
      if up && ttl > 0 {
        entries := entries[CacheKey(tool, normal.value) := CacheEntry(result, now + ttl as real)];
      }
      r := None;
    }
  }
}
