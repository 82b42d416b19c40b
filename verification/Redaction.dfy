/** Secrets redaction for structured logs, on arbitrary trees of dictionaries and lists. */
module Redaction {
  import opened Text

  /** A Python value. Everything that is not a dictionary, list or string passes through. */
  datatype Value =
    | Str(s: string)
    | List(items: seq<Value>)
    | Dict(fields: map<string, Value>)
    | Other(id: int)

  const SENSITIVE: set<string> := {"key", "token", "secret", "password", "auth", "credential"}
  const MAX_STRING_LENGTH := 200
  const TRUNCATED_KEEP := 50
  const TRUNCATED_SUFFIX := "...[truncated]"
  const REDACTED := Str("[REDACTED]")

  /** Case-insensitive substring search. */
  predicate IsSensitive(key: string) {
    exists w <- SENSITIVE :: Contains(Lower(key), w)
  }

  predicate Contains(s: string, w: string) {
    exists i :: 0 <= i <= |s| && w <= s[i..]
  }

  function Truncate(s: string): string {
    if |s| > MAX_STRING_LENGTH then s[..TRUNCATED_KEEP] + TRUNCATED_SUFFIX else s
  }

  function Redact(v: Value): Value {
    match v
    case Dict(fields) => Dict(map k | k in fields :: if IsSensitive(k) then REDACTED else Redact(fields[k]))
    case List(items) => List(seq(|items|, i requires 0 <= i < |items| => Redact(items[i])))
    case Str(s) => Str(Truncate(s))
    case Other(_) => v
  }

  /** No string in a value position is longer than 200 characters. */
  predicate ShortStrings(v: Value) {
    match v
    case Dict(fields) => forall k <- fields :: ShortStrings(fields[k])
    case List(items) => forall i :: 0 <= i < |items| ==> ShortStrings(items[i])
    case Str(s) => |s| <= 200
    case Other(_) => true
  }

  /** Below a sensitive key there is nothing but the marker. */
  predicate NoSecrets(v: Value) {
    match v
    case Dict(fields) => forall k <- fields :: if IsSensitive(k) then fields[k] == REDACTED else NoSecrets(fields[k])
    case List(items) => forall i :: 0 <= i < |items| ==> NoSecrets(items[i])
    case _ => true
  }

  /** The trees have the same dictionaries, lists and other values outside sensitive keys, and agree on
      strings up to truncation: all that an observer of the log can tell them apart by. */
  predicate SameOutside(a: Value, b: Value) {
    match (a, b)
    case (Dict(f), Dict(g)) =>
      f.Keys == g.Keys && forall k <- f :: !IsSensitive(k) ==> SameOutside(f[k], g[k])
    case (List(xs), List(ys)) => |xs| == |ys| && forall i :: 0 <= i < |xs| ==> SameOutside(xs[i], ys[i])
    case (Str(s), Str(t)) => Truncate(s) == Truncate(t)
    case (Other(m), Other(n)) => m == n
    case _ => false
  }

  /** A key is sensitive exactly if one of six words occurs in it, in any case. */
  lemma SensitiveMeaning(key: string)
    ensures IsSensitive(key)
            <==> exists i: nat, w :: Spells(key, i, w)
                                     && w in ["key", "token", "secret", "password", "auth", "credential"]
  {
    forall i: nat, w: string
      ensures Spells(key, i, w) <==> i <= |key| && w <= Lower(key)[i..]
    {
      SpellsMeaning(key, i, w);
    }
    if IsSensitive(key) {
      var w :| w in SENSITIVE && Contains(Lower(key), w);
      var i :| 0 <= i <= |Lower(key)| && w <= Lower(key)[i..];
      assert Spells(key, i, w);
    }
    if exists i: nat, w :: Spells(key, i, w) && w in ["key", "token", "secret", "password", "auth", "credential"] {
      var i: nat, w :| Spells(key, i, w) && w in ["key", "token", "secret", "password", "auth", "credential"];
      assert w <= Lower(key)[i..];
      assert Contains(Lower(key), w) && w in SENSITIVE;
    }
  }

  /** From position `i` on the key spells the word, letter by letter in either case. */
  ghost predicate Spells(key: string, i: nat, w: string) {
    i + |w| <= |key| && forall m :: 0 <= m < |w| ==> SameLetter(key[i + m], w[m])
  }

  lemma SpellsMeaning(key: string, i: nat, w: string)
    ensures Spells(key, i, w) <==> i <= |key| && w <= Lower(key)[i..]
  {
    if i + |w| <= |key| {
      var rest := Lower(key)[i..];
      forall m | 0 <= m < |w|
        ensures rest[m] == w[m] <==> SameLetter(key[i + m], w[m])
      {
        LowerMeaning(key, i + m, w[m]);
      }
      assert w <= rest <==> forall m :: 0 <= m < |w| ==> rest[m] == w[m];
    }
  }

  /** What redaction makes of each string and each field. */
  lemma RedactedTexts(s: string, fields: map<string, Value>)
    ensures Redact(Str(s)) == Str(if |s| > 200 then s[..50] + "...[truncated]" else s)
    ensures Redact(Dict(fields)).fields.Keys == fields.Keys
    ensures forall k <- fields :: Redact(Dict(fields)).fields[k]
                                  == if IsSensitive(k) then Str("[REDACTED]") else Redact(fields[k])
  {
  }

  /** Redaction yields a clean tree. */
  lemma {:induction false} RedactCleans(v: Value)
    ensures NoSecrets(Redact(v)) && ShortStrings(Redact(v))
  {
    match v
    case Dict(fields) =>
      forall k | k in fields {
        RedactCleans(fields[k]);
      }
    case List(items) =>
      forall i | 0 <= i < |items| {
        RedactCleans(items[i]);
      }
    case _ =>
  }

  /** A tree is clean if and only if redaction leaves it alone; hence redaction is idempotent. */
  lemma {:induction false} CleanIffFixed(v: Value)
    ensures NoSecrets(v) && ShortStrings(v) <==> Redact(v) == v
  {
    RedactCleans(v);
    if NoSecrets(v) && ShortStrings(v) {
      match v
      case Dict(fields) =>
        forall k | k in fields {
          CleanIffFixed(fields[k]);
        }
        assert Redact(v).fields == fields;
      case List(items) =>
        forall i | 0 <= i < |items| {
          CleanIffFixed(items[i]);
        }
        assert Redact(v).items == items;
      case _ =>
    }
  }

  lemma RedactIdempotent(v: Value)
    ensures Redact(Redact(v)) == Redact(v)
  {
    RedactCleans(v);
    CleanIffFixed(Redact(v));
  }

  /** Redaction keeps everything an observer may see. */
  lemma {:induction false} RedactKeepsShape(v: Value)
    ensures SameOutside(v, Redact(v))
  {
    match v
    case Dict(fields) =>
      forall k | k in fields {
        RedactKeepsShape(fields[k]);
      }
    case List(items) =>
      forall i | 0 <= i < |items| {
        RedactKeepsShape(items[i]);
      }
    case _ =>
  }

  /** Non-interference, and no information lost besides: two trees redact to the same tree exactly if
      they differ only below sensitive keys and in what truncation cuts off. */
  lemma {:induction false} RedactSeparates(a: Value, b: Value)
    ensures Redact(a) == Redact(b) <==> SameOutside(a, b)
  {
    match (a, b)
    case (Dict(f), Dict(g)) =>
      forall k | k in f && k in g {
        RedactSeparates(f[k], g[k]);
      }
      if Redact(a) == Redact(b) {
        assert Redact(a).fields.Keys == f.Keys && Redact(b).fields.Keys == g.Keys;
        assert forall k <- f :: Redact(a).fields[k] == Redact(b).fields[k];
      }
      if SameOutside(a, b) {
        assert Redact(a).fields == Redact(b).fields;
      }
    case (List(xs), List(ys)) =>
      forall i | 0 <= i < |xs| && i < |ys| {
        RedactSeparates(xs[i], ys[i]);
      }
      if Redact(a) == Redact(b) {
        assert |Redact(a).items| == |xs| && |Redact(b).items| == |ys|;
        forall i | 0 <= i < |xs|
          ensures SameOutside(xs[i], ys[i])
        {
          assert Redact(xs[i]) == Redact(a).items[i] == Redact(b).items[i] == Redact(ys[i]);
        }
      }
      if SameOutside(a, b) {
        assert Redact(a).items == Redact(b).items;
      }
    case _ =>
  }
}
