/** The string operations the cache relies on, for ASCII text. */
module Text {

  predicate IsSpace(c: char) {
    c == ' ' || '\t' <= c <= '\r' || '\U{1C}' <= c <= '\U{1F}'
  }

  predicate IsLetter(c: char) {
    'a' <= c <= 'z'
  }

  function LowerChar(c: char): char {
    if 'A' <= c <= 'Z' then ((c as int) + 32) as char else c
  }

  function Lower(s: string): (t: string)
    ensures |t| == |s|
  {
    seq(|s|, i requires 0 <= i < |s| => LowerChar(s[i]))
  }

  function StripLeft(s: string): string {
    if s != [] && IsSpace(s[0]) then StripLeft(s[1..]) else s
  }

  function StripRight(s: string): string {
    if s != [] && IsSpace(s[|s| - 1]) then StripRight(s[..|s| - 1]) else s
  }

  function Strip(s: string): string {
    StripRight(StripLeft(s))
  }

  /** `re.findall("[a-z]+", s)` as a set, with `run` the letters matched just before `s`. */
  function Runs(s: string, run: string): set<string> {
    var ended := if run == [] then {} else {run};
    if s == [] then ended
    else if IsLetter(s[0]) then Runs(s[1..], run + [s[0]])
    else ended + Runs(s[1..], [])
  }

  function Tokens(text: string): set<string> {
    Runs(Lower(text), [])
  }

  // ---------------------------------------------------------------------------
  // Characters
  // ---------------------------------------------------------------------------

  const UPPER_CASE := "ABCDEFGHIJKLMNOPQRSTUVWXYZ"
  const LOWER_CASE := "abcdefghijklmnopqrstuvwxyz"

  /** `c` is the lower-case character `d` or the upper-case letter in the same place of the alphabet. */
  ghost predicate SameLetter(c: char, d: char) {
    (c == d && c !in UPPER_CASE) || exists p :: 0 <= p < 26 && c == UPPER_CASE[p] && d == LOWER_CASE[p]
  }

  lemma LetterAt(p: nat)
    requires p < 26
    ensures |UPPER_CASE| == |LOWER_CASE| == 26
    ensures UPPER_CASE[p] as int == 65 + p && LOWER_CASE[p] as int == 97 + p
  {
  }

  lemma UpperLetter(c: char)
    ensures c in UPPER_CASE <==> 'A' <= c <= 'Z'
  {
    if 'A' <= c <= 'Z' {
      LetterAt(c as int - 65);
      assert UPPER_CASE[c as int - 65] == c;
    }
    if c in UPPER_CASE {
      var p :| 0 <= p < |UPPER_CASE| && UPPER_CASE[p] == c;
      LetterAt(p);
    }
  }

  lemma LowerLetter(c: char)
    ensures c in LOWER_CASE <==> 'a' <= c <= 'z'
  {
    if 'a' <= c <= 'z' {
      LetterAt(c as int - 97);
      assert LOWER_CASE[c as int - 97] == c;
    }
    if c in LOWER_CASE {
      var p :| 0 <= p < |LOWER_CASE| && LOWER_CASE[p] == c;
      LetterAt(p);
    }
  }

  lemma SameLetterMeaning(c: char, d: char)
    ensures SameLetter(c, d) <==> LowerChar(c) == d
  {
    UpperLetter(c);
    if 'A' <= c <= 'Z' {
      var p := c as int - 65;
      LetterAt(p);
      assert c == UPPER_CASE[p];
    }
    if SameLetter(c, d) && c in UPPER_CASE {
      var p :| 0 <= p < 26 && c == UPPER_CASE[p] && d == LOWER_CASE[p];
      LetterAt(p);
    }
  }

  /** Lower-casing replaces each letter by its counterpart in the alphabet and keeps every other character. */
  lemma LowerMeaning(s: string, i: nat, d: char)
    requires i < |s|
    ensures Lower(s)[i] == d <==> SameLetter(s[i], d)
  {
    SameLetterMeaning(s[i], d);
  }

  lemma LettersAndSpaces(c: char)
    ensures IsLetter(c) <==> c in LOWER_CASE
    ensures IsSpace(c) <==> c in [' ', '\t', '\n', '\U{0B}', '\U{0C}', '\r', '\U{1C}', '\U{1D}', '\U{1E}', '\U{1F}']
  {
    LowerLetter(c);
  }

  /** Stripping leaves nothing exactly of a string of white space. */
  lemma StripToNothing(s: string)
    ensures Strip(s) == "" <==> forall m :: 0 <= m < |s| ==> IsSpace(s[m])
  {
    var i, j := StripMeaning(s);
    if Strip(s) != "" {
      assert s[i] == Strip(s)[0];
    }
  }

  // ---------------------------------------------------------------------------
  // What a token is
  // ---------------------------------------------------------------------------

  predicate IsRun(s: string, i: nat, j: nat) {
    && i < j <= |s|
    && (forall m :: i <= m < j ==> IsLetter(s[m]))
    && (i > 0 ==> !IsLetter(s[i - 1]))
    && (j < |s| ==> !IsLetter(s[j]))
  }

  ghost predicate HasRun(s: string, w: string) {
    exists i: nat, j: nat :: IsRun(s, i, j) && s[i..j] == w
  }

  /** Where the runs of `run + [c] + rest` are, for a separator `c` after letters only. */
  lemma RunInSplit(run: string, c: char, rest: string, i: nat, j: nat)
    requires (forall m :: 0 <= m < |run| ==> IsLetter(run[m])) && !IsLetter(c)
    ensures IsRun(run + [c] + rest, i, j)
            <==> if i <= |run| then i == 0 && j == |run| && run != []
                 else j > |run| && IsRun(rest, i - |run| - 1, j - |run| - 1)
  {
    var s, n := run + [c] + rest, |run|;
    assert s[n] == c;
    if i <= n {
      assert forall m :: 0 <= m < n ==> s[m] == run[m];
      if IsRun(s, i, j) {
        assert j <= n;
      }
    } else if j > n {
      assert forall m :: 0 <= m < |rest| ==> s[m + n + 1] == rest[m];
      if IsRun(s, i, j) {
        assert forall m :: i - n - 1 <= m < j - n - 1 ==> rest[m] == s[m + n + 1];
      }
      if IsRun(rest, i - n - 1, j - n - 1) {
        assert forall m :: i <= m < j ==> s[m] == rest[m - n - 1];
      }
    }
  }

  lemma SliceOfRest(run: string, c: char, rest: string, i: nat, j: nat)
    requires i <= j <= |rest|
    ensures (run + [c] + rest)[i + |run| + 1..j + |run| + 1] == rest[i..j]
  {
  }

  lemma RunSplitForward(run: string, c: char, rest: string, w: string)
    requires (forall m :: 0 <= m < |run| ==> IsLetter(run[m])) && !IsLetter(c)
    requires HasRun(run + [c] + rest, w)
    ensures (run != [] && w == run) || HasRun(rest, w)
  {
    var s, n := run + [c] + rest, |run|;
    var i: nat, j: nat :| IsRun(s, i, j) && s[i..j] == w;
    RunInSplit(run, c, rest, i, j);
    if i > n {
      var i', j' := i - n - 1, j - n - 1;
      assert IsRun(rest, i', j');
      SliceOfRest(run, c, rest, i', j');
      assert rest[i'..j'] == w;
    } else {
      assert s[0..n] == run;
    }
  }

  lemma RunSplitBack(run: string, c: char, rest: string, w: string)
    requires (forall m :: 0 <= m < |run| ==> IsLetter(run[m])) && !IsLetter(c)
    requires (run != [] && w == run) || HasRun(rest, w)
    ensures HasRun(run + [c] + rest, w)
  {
    var s, n := run + [c] + rest, |run|;
    if run != [] && w == run {
      RunInSplit(run, c, rest, 0, n);
      assert s[0..n] == run;
    } else {
      var i: nat, j: nat :| IsRun(rest, i, j) && rest[i..j] == w;
      RunInSplit(run, c, rest, i + n + 1, j + n + 1);
      SliceOfRest(run, c, rest, i, j);
    }
  }

  lemma {:induction false} RunsMeaning(s: string, run: string, w: string)
    requires forall m :: 0 <= m < |run| ==> IsLetter(run[m])
    ensures w in Runs(s, run) <==> HasRun(run + s, w)
    decreases |s|
  {
    if s == [] {
      assert run + s == run;
      if run != [] {
        assert IsRun(run, 0, |run|) && run[0..|run|] == run;
      }
      if HasRun(run, w) {
        var i: nat, j: nat :| IsRun(run, i, j) && run[i..j] == w;
        assert i == 0 && j == |run|;
      }
    } else if IsLetter(s[0]) {
      RunsMeaning(s[1..], run + [s[0]], w);
      assert run + [s[0]] + s[1..] == run + s;
    } else {
      RunsMeaning(s[1..], [], w);
      assert [] + s[1..] == s[1..];
      assert run + [s[0]] + s[1..] == run + s;
      if HasRun(run + s, w) {
        RunSplitForward(run, s[0], s[1..], w);
      }
      if (run != [] && w == run) || HasRun(s[1..], w) {
        RunSplitBack(run, s[0], s[1..], w);
      }
    }
  }

  /** A token is a maximal run of letters of the lower-cased text. */
  lemma TokenMeaning(text: string, w: string)
    ensures w in Tokens(text) <==> HasRun(Lower(text), w)
  {
    RunsMeaning(Lower(text), [], w);
    assert [] + Lower(text) == Lower(text);
  }

  // ---------------------------------------------------------------------------
  // Lower-casing and stripping
  // ---------------------------------------------------------------------------

  lemma LowerIdempotent(s: string)
    ensures Lower(Lower(s)) == Lower(s)
  {
  }

  lemma {:induction false} RunsDropLast(s: string, run: string)
    requires s != [] && !IsLetter(s[|s| - 1])
    ensures Runs(s[..|s| - 1], run) == Runs(s, run)
    decreases |s|
  {
    if |s| > 1 {
      assert s[..|s| - 1][1..] == s[1..][..|s| - 2];
      RunsDropLast(s[1..], if IsLetter(s[0]) then run + [s[0]] else []);
    } else {
      assert s[1..] == [];
    }
  }

  lemma {:induction false} TokensStripRight(s: string)
    ensures Tokens(StripRight(s)) == Tokens(s)
    decreases |s|
  {
    if s != [] && IsSpace(s[|s| - 1]) {
      assert Lower(s[..|s| - 1]) == Lower(s)[..|s| - 1];
      RunsDropLast(Lower(s), []);
      TokensStripRight(s[..|s| - 1]);
    }
  }

  lemma {:induction false} TokensStripLeft(s: string)
    ensures Tokens(StripLeft(s)) == Tokens(s)
    decreases |s|
  {
    if s != [] && IsSpace(s[0]) {
      assert Lower(s[1..]) == Lower(s)[1..];
      TokensStripLeft(s[1..]);
    }
  }

  /** Normalising a string leaves its tokens unchanged. */
  lemma TokensOfNormalized(s: string)
    ensures Tokens(Lower(Strip(s))) == Tokens(s)
  {
    LowerIdempotent(Strip(s));
    TokensStripLeft(s);
    TokensStripRight(StripLeft(s));
  }

  /** `t` neither starts nor ends with white space. */
  predicate Trimmed(t: string) {
    t != [] ==> !IsSpace(t[0]) && !IsSpace(t[|t| - 1])
  }

  lemma {:induction false} StripRightKeepsStart(s: string)
    requires s != [] ==> !IsSpace(s[0])
    ensures Trimmed(StripRight(s))
    ensures StripRight(s) <= s
    decreases |s|
  {
    if s != [] && IsSpace(s[|s| - 1]) {
      StripRightKeepsStart(s[..|s| - 1]);
    }
  }

  lemma {:induction false} StripLeftTrims(s: string)
    ensures StripLeft(s) != [] ==> !IsSpace(StripLeft(s)[0])
    decreases |s|
  {
    if s != [] && IsSpace(s[0]) {
      StripLeftTrims(s[1..]);
    }
  }

  lemma StripTrims(s: string)
    ensures Trimmed(Strip(s))
  {
    StripLeftTrims(s);
    StripRightKeepsStart(StripLeft(s));
  }

  lemma {:induction false} StripRightMeaning(s: string)
    ensures StripRight(s) <= s
    ensures forall m :: |StripRight(s)| <= m < |s| ==> IsSpace(s[m])
    decreases |s|
  {
    if s != [] && IsSpace(s[|s| - 1]) {
      StripRightMeaning(s[..|s| - 1]);
    }
  }

  lemma {:induction false} StripLeftMeaning(s: string) returns (i: nat)
    ensures i <= |s| && StripLeft(s) == s[i..]
    ensures forall m :: 0 <= m < i ==> IsSpace(s[m])
    decreases |s|
  {
    i := 0;
    if s != [] && IsSpace(s[0]) {
      i := StripLeftMeaning(s[1..]);
      i := i + 1;
    }
  }

  /** Stripping cuts white space off both ends, all of it, and nothing else. */
  lemma StripMeaning(s: string) returns (i: nat, j: nat)
    ensures i <= j <= |s| && Strip(s) == s[i..j] && Trimmed(Strip(s))
    ensures forall m :: 0 <= m < i || j <= m < |s| ==> IsSpace(s[m])
  {
    i := StripLeftMeaning(s);
    var t := s[i..];
    StripRightMeaning(t);
    StripTrims(s);
    j := i + |StripRight(t)|;
    forall m | j <= m < |s|
      ensures IsSpace(s[m])
    {
      assert s[m] == t[m - i];
    }
  }

  lemma NormalizedIsFixed(s: string)
    ensures Lower(Strip(Lower(Strip(s)))) == Lower(Strip(s))
  {
    StripTrims(s);
    var t := Lower(Strip(s));
    assert Trimmed(t);
    assert StripLeft(t) == t && StripRight(t) == t;
    LowerIdempotent(Strip(s));
  }
}
