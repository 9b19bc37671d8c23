/** Source-filter globs: the gateway's single-star backtracking loop against the declarative
    meaning of `*` and `?`. */
module Glob {
  import opened Options

  /** `*` stands for any run of characters, `?` for any one, everything else for itself. */
  ghost predicate Matches(pattern: string, value: string)
    decreases |pattern|
  {
    if pattern == [] then value == []
    else if pattern[0] == '*' then exists k :: 0 <= k <= |value| && Matches(pattern[1..], value[k..])
    else value != [] && (pattern[0] == '?' || pattern[0] == value[0]) && Matches(pattern[1..], value[1..])
  }

  /** One pattern character facing one value character, literal equality first. */
  predicate Accepts(p: char, c: char) {
    p == '?' || p == c
  }

  predicate InRange(pattern: string, value: string, p: nat, v: nat, star: Option<nat>, starValue: nat) {
    && p <= |pattern| && v <= |value| && starValue <= v
    && (star.Some? ==> star.value < p && pattern[star.value] == '*')
  }

  predicate AllStars(s: string) {
    forall i :: 0 <= i < |s| ==> s[i] == '*'
  }

  /** What the loop answers from a given position, with at most one star to return to. */
  predicate Scan(pattern: string, value: string, p: nat, v: nat, star: Option<nat>, starValue: nat)
    requires InRange(pattern, value, p, v, star, starValue)
    decreases |value| - starValue, |value| - v, |pattern| - p
  {
    if v == |value| then AllStars(pattern[p..])
    else if p < |pattern| && Accepts(pattern[p], value[v]) then Scan(pattern, value, p + 1, v + 1, star, starValue)
    else if p < |pattern| && pattern[p] == '*' then Scan(pattern, value, p + 1, v, Some(p), v)
    else if star.Some? then Scan(pattern, value, star.value + 1, starValue + 1, star, starValue + 1)
    else false
  }

  predicate GlobMatches(pattern: string, value: string) {
    Scan(pattern, value, 0, 0, None, 0)
  }

  method GlobMatch(pattern: string, value: string) returns (matched: bool)
    ensures matched == GlobMatches(pattern, value)
    ensures matched ==> Matches(pattern, value)
    ensures '*' !in value ==> matched == Matches(pattern, value)
  {
    GlobIsSound(pattern, value);
    if '*' !in value {
      GlobIsComplete(pattern, value);
    }
    var p: nat, v: nat := 0, 0;
    var star: Option<nat>, starValue: nat := None, 0;
    while v < |value|
      invariant InRange(pattern, value, p, v, star, starValue)
      invariant Scan(pattern, value, p, v, star, starValue) == GlobMatches(pattern, value)
      decreases |value| - starValue, |value| - v, |pattern| - p
    {
      if p < |pattern| && (pattern[p] == '?' || pattern[p] == value[v]) {
        p := p + 1;
        v := v + 1;
      } else if p < |pattern| && pattern[p] == '*' {
        star := Some(p);
        p := p + 1;
        starValue := v;
      } else if star.Some? {
        p := star.value + 1;
        starValue := starValue + 1;
        v := starValue;
      } else {
        return false;
      }
    }
    ghost var rest := pattern[p..];
    while p < |pattern| && pattern[p] == '*'
      invariant p <= |pattern| && AllStars(pattern[p..]) == AllStars(rest)
      decreases |pattern| - p
    {
      assert pattern[p..] == [pattern[p]] + pattern[p + 1..];
      p := p + 1;
    }
    assert p < |pattern| ==> pattern[p..][0] != '*';
    return p == |pattern|;
  }

  // ---------------------------------------------------------------- facts about the meaning

  lemma StarAbsorbs(pattern: string, value: string, k: nat)
    requires pattern != [] && pattern[0] == '*' && k <= |value| && Matches(pattern, value[k..])
    ensures Matches(pattern, value)
  {
    var j :| 0 <= j <= |value[k..]| && Matches(pattern[1..], value[k..][j..]);
    assert value[k..][j..] == value[k + j..];
  }

  lemma StarIsEmpty(pattern: string, value: string)
    requires pattern != [] && pattern[0] == '*' && Matches(pattern[1..], value)
    ensures Matches(pattern, value)
  {
    assert value[0..] == value;
  }

  lemma {:induction false} OnlyStarsMatchNothing(pattern: string)
    ensures Matches(pattern, []) <==> AllStars(pattern)
    decreases |pattern|
  {
    if pattern != [] {
      OnlyStarsMatchNothing(pattern[1..]);
      assert pattern == [pattern[0]] + pattern[1..];
      if pattern[0] == '*' {
        var e: string := [];
        assert e[0..] == e;
        assert Matches(pattern, []) <==> Matches(pattern[1..], []);
      }
    }
  }

  // ---------------------------------------------------------------- soundness, for every value

  /** The run so far can be undone: matching from the current position matches the whole, and so
      does matching from the remembered star. */
  ghost predicate Sound(pattern: string, value: string, p: nat, v: nat, star: Option<nat>, starValue: nat)
    requires InRange(pattern, value, p, v, star, starValue)
  {
    && (Matches(pattern[p..], value[v..]) ==> Matches(pattern, value))
    && (star.Some? ==> (Matches(pattern[star.value..], value[starValue..]) ==> Matches(pattern, value)))
  }

  lemma Accepted(pattern: string, value: string, p: nat, v: nat)
    requires p < |pattern| && v < |value| && Accepts(pattern[p], value[v])
    requires Matches(pattern[p + 1..], value[v + 1..])
    ensures Matches(pattern[p..], value[v..])
  {
    assert pattern[p..][1..] == pattern[p + 1..] && value[v..][1..] == value[v + 1..];
    if pattern[p] == '*' {
      StarIsEmpty(pattern[p..], value[v + 1..]);
      StarAbsorbs(pattern[p..], value[v..], 1);
    }
  }

  lemma {:induction false} ScanIsSound(pattern: string, value: string, p: nat, v: nat, star: Option<nat>, starValue: nat)
    requires InRange(pattern, value, p, v, star, starValue) && Sound(pattern, value, p, v, star, starValue)
    requires Scan(pattern, value, p, v, star, starValue)
    ensures Matches(pattern, value)
    decreases |value| - starValue, |value| - v, |pattern| - p
  {
    if v == |value| {
      assert value[v..] == [];
      OnlyStarsMatchNothing(pattern[p..]);
    } else if p < |pattern| && Accepts(pattern[p], value[v]) {
      if Matches(pattern[p + 1..], value[v + 1..]) {
        Accepted(pattern, value, p, v);
      }
      ScanIsSound(pattern, value, p + 1, v + 1, star, starValue);
    } else if p < |pattern| && pattern[p] == '*' {
      assert pattern[p..][1..] == pattern[p + 1..];
      if Matches(pattern[p + 1..], value[v..]) {
        StarIsEmpty(pattern[p..], value[v..]);
      }
      ScanIsSound(pattern, value, p + 1, v, Some(p), v);
    } else {
      var s := star.value;
      assert pattern[s..][1..] == pattern[s + 1..];
      assert value[starValue..][1..] == value[starValue + 1..];
      if Matches(pattern[s + 1..], value[starValue + 1..]) {
        StarIsEmpty(pattern[s..], value[starValue + 1..]);
      }
      if Matches(pattern[s..], value[starValue + 1..]) {
        StarAbsorbs(pattern[s..], value[starValue..], 1);
      }
      ScanIsSound(pattern, value, s + 1, starValue + 1, star, starValue + 1);
    }
  }

  /** The loop never answers yes wrongly, whatever the value. */
  lemma GlobIsSound(pattern: string, value: string)
    ensures GlobMatches(pattern, value) ==> Matches(pattern, value)
  {
    assert pattern[0..] == pattern && value[0..] == value;
    if GlobMatches(pattern, value) {
      ScanIsSound(pattern, value, 0, 0, None, 0);
    }
  }

  // ---------------------------------------------------------------- completeness, for values without a star

  /** Since the last star the pattern had no star, consumed one value character each, and only the
      leftmost placement of that segment has been tried: nothing to the left is lost. */
  ghost predicate Complete(pattern: string, value: string, p: nat, v: nat, star: Option<nat>, starValue: nat)
    requires InRange(pattern, value, p, v, star, starValue)
  {
    match star
    case None => Matches(pattern, value) ==> Matches(pattern[p..], value[v..])
    case Some(s) =>
      && v - starValue == p - (s + 1)
      && (forall i :: s < i < p ==> pattern[i] != '*')
      && (Matches(pattern, value) ==> Matches(pattern[s..], value[starValue..]))
      && (Matches(pattern[s + 1..], value[starValue..]) ==> Matches(pattern[p..], value[v..]))
  }

  /** A star-free segment of length n takes exactly n characters. */
  lemma {:induction false} SegmentTakes(pattern: string, value: string, n: nat)
    requires n <= |pattern| && (forall i :: 0 <= i < n ==> pattern[i] != '*')
    requires Matches(pattern, value)
    ensures n <= |value| && Matches(pattern[n..], value[n..])
    decreases n
  {
    if n == 0 {
      assert pattern[0..] == pattern && value[0..] == value;
    } else {
      SegmentTakes(pattern[1..], value[1..], n - 1);
      assert pattern[1..][n - 1..] == pattern[n..] && value[1..][n - 1..] == value[n..];
    }
  }

  lemma StepInside(pattern: string, value: string, p: nat, v: nat)
    requires p < |pattern| && v < |value| && pattern[p] != '*' && Matches(pattern[p..], value[v..])
    ensures Accepts(pattern[p], value[v]) && Matches(pattern[p + 1..], value[v + 1..])
  {
    assert pattern[p..][1..] == pattern[p + 1..] && value[v..][1..] == value[v + 1..];
  }

  /** At a new star the earlier one can be forgotten: the segment between them was placed as
      far left as possible, and the new star absorbs whatever a later placement would leave. */
  lemma NewStarSuffices(pattern: string, value: string, p: nat, v: nat, star: Option<nat>, starValue: nat)
    requires InRange(pattern, value, p, v, star, starValue) && Complete(pattern, value, p, v, star, starValue)
    requires p < |pattern| && pattern[p] == '*' && Matches(pattern, value)
    ensures Matches(pattern[p..], value[v..])
  {
    if star.Some? {
      var s := star.value;
      var rest := value[starValue..];
      assert pattern[s..][1..] == pattern[s + 1..];
      var k :| 0 <= k <= |rest| && Matches(pattern[s + 1..], rest[k..]);
      var n := p - (s + 1);
      SegmentTakes(pattern[s + 1..], rest[k..], n);
      assert pattern[s + 1..][n..] == pattern[p..];
      assert rest[k..][n..] == value[v..][k..];
      StarAbsorbs(pattern[p..], value[v..], k);
    }
  }

  /** When the current placement fails, the match must lie further right. */
  lemma RestartSuffices(pattern: string, value: string, s: nat, starValue: nat)
    requires s < |pattern| && pattern[s] == '*' && starValue < |value|
    requires Matches(pattern[s..], value[starValue..]) && !Matches(pattern[s + 1..], value[starValue..])
    ensures Matches(pattern[s..], value[starValue + 1..])
  {
    var rest := value[starValue..];
    assert pattern[s..][1..] == pattern[s + 1..];
    var k :| 0 <= k <= |rest| && Matches(pattern[s + 1..], rest[k..]);
    assert rest[0..] == rest;
    assert rest[k..] == value[starValue + 1..][k - 1..];
  }

  /** At the end of the value no later placement fits. */
  lemma EndSuffices(pattern: string, value: string, p: nat, v: nat, star: Option<nat>, starValue: nat)
    requires InRange(pattern, value, p, v, star, starValue) && Complete(pattern, value, p, v, star, starValue)
    requires v == |value| && Matches(pattern, value)
    ensures Matches(pattern[p..], [])
  {
    assert value[v..] == [];
    if star.Some? {
      var s := star.value;
      var rest := value[starValue..];
      assert pattern[s..][1..] == pattern[s + 1..];
      var k :| 0 <= k <= |rest| && Matches(pattern[s + 1..], rest[k..]);
      SegmentTakes(pattern[s + 1..], rest[k..], p - (s + 1));
      assert rest[0..] == rest;
    }
  }

  lemma {:induction false} ScanIsComplete(pattern: string, value: string, p: nat, v: nat, star: Option<nat>, starValue: nat)
    requires '*' !in value
    requires InRange(pattern, value, p, v, star, starValue) && Complete(pattern, value, p, v, star, starValue)
    requires Matches(pattern, value)
    ensures Scan(pattern, value, p, v, star, starValue)
    decreases |value| - starValue, |value| - v, |pattern| - p
  {
    if v == |value| {
      EndSuffices(pattern, value, p, v, star, starValue);
      OnlyStarsMatchNothing(pattern[p..]);
    } else if p < |pattern| && Accepts(pattern[p], value[v]) {
      assert value[v] in value;
      if Matches(pattern[p..], value[v..]) {
        StepInside(pattern, value, p, v);
      }
      ScanIsComplete(pattern, value, p + 1, v + 1, star, starValue);
    } else if p < |pattern| && pattern[p] == '*' {
      NewStarSuffices(pattern, value, p, v, star, starValue);
      ScanIsComplete(pattern, value, p + 1, v, Some(p), v);
    } else {
      if p < |pattern| && Matches(pattern[p..], value[v..]) {
        StepInside(pattern, value, p, v);
        assert false;
      }
      assert p == |pattern| ==> pattern[p..] == [] && value[v..] != [];
      RestartSuffices(pattern, value, star.value, starValue);
      ScanIsComplete(pattern, value, star.value + 1, starValue + 1, star, starValue + 1);
    }
  }

  lemma GlobIsComplete(pattern: string, value: string)
    requires '*' !in value
    ensures Matches(pattern, value) ==> GlobMatches(pattern, value)
  {
    assert pattern[0..] == pattern && value[0..] == value;
    if Matches(pattern, value) {
      ScanIsComplete(pattern, value, 0, 0, None, 0);
    }
  }

  // ---------------------------------------------------------------- the exact condition

  function Repeat(c: char, n: nat): (s: string)
    ensures |s| == n && forall i :: 0 <= i < n ==> s[i] == c
  {
    seq(n, _ => c)
  }

  lemma {:induction false} QuestionMarksMatch(value: string)
    ensures Matches(Repeat('?', |value|), value)
    decreases |value|
  {
    if value != [] {
      QuestionMarksMatch(value[1..]);
      assert Repeat('?', |value|)[1..] == Repeat('?', |value| - 1);
    }
  }

  lemma {:induction false} LiteralPrefixMatches(prefix: string, pattern: string, value: string)
    requires '*' !in prefix && Matches(pattern, value)
    ensures Matches(prefix + pattern, prefix + value)
    decreases |prefix|
  {
    if prefix == [] {
      assert prefix + pattern == pattern && prefix + value == value;
    } else {
      LiteralPrefixMatches(prefix[1..], pattern, value);
      assert prefix[0] in prefix;
      assert (prefix + pattern)[1..] == prefix[1..] + pattern;
      assert (prefix + value)[1..] == prefix[1..] + value;
    }
  }

  /** Faced character by character, a pattern that accepts a whole value but is one `?` longer
      is refused when no star was remembered. */
  lemma {:induction false} TooLongIsRefused(pattern: string, value: string, v: nat)
    requires |pattern| == |value| + 1 && pattern[|value|] == '?' && v <= |value|
    requires forall i :: v <= i < |value| ==> Accepts(pattern[i], value[i])
    ensures !Scan(pattern, value, v, v, None, 0)
    decreases |value| - v
  {
    if v == |value| {
      assert pattern[v..][0] == '?';
    } else {
      TooLongIsRefused(pattern, value, v + 1);
    }
  }

  /** The pattern that shows the literal test going first: it reads the first star of the value
      literally and then lacks one character. */
  function Refuting(value: string, star: nat): string
    requires star < |value|
  {
    value[..star] + ['*'] + Repeat('?', |value| - star)
  }

  lemma RefutingIsRefused(value: string, star: nat)
    requires star < |value| && value[star] == '*' && '*' !in value[..star]
    ensures Matches(Refuting(value, star), value) && !GlobMatches(Refuting(value, star), value)
  {
    hide *;
    RefutingMatches(value, star);
    RefutingIsScanned(value, star);
  }

  lemma RefutingIsScanned(value: string, star: nat)
    requires star < |value| && value[star] == '*'
    ensures !GlobMatches(Refuting(value, star), value)
  {
    hide Scan;
    TooLongIsRefused(Refuting(value, star), value, 0);
  }

  lemma RefutingMatches(value: string, star: nat)
    requires star < |value| && '*' !in value[..star]
    ensures Matches(Refuting(value, star), value)
  {
    hide *;
    RefutingShape(value, star);
    StarAndMarksMatch(value[star..]);
    LiteralPrefixMatches(value[..star], ['*'] + Repeat('?', |value| - star), value[star..]);
  }

  lemma RefutingShape(value: string, star: nat)
    requires star < |value|
    ensures Refuting(value, star) == value[..star] + (['*'] + Repeat('?', |value| - star))
    ensures value[..star] + value[star..] == value && |value[star..]| == |value| - star
  {
    hide Repeat;
  }

  lemma StarAndMarksMatch(tail: string)
    ensures Matches(['*'] + Repeat('?', |tail|), tail)
  {
    var marks := Repeat('?', |tail|);
    hide Matches, Repeat;
    QuestionMarksMatch(tail);
    assert (['*'] + marks)[1..] == marks;
    StarIsEmpty(['*'] + marks, tail);
  }

  lemma {:induction false} FirstStar(value: string) returns (star: nat)
    requires '*' in value
    ensures star < |value| && value[star] == '*' && '*' !in value[..star]
    decreases |value|
  {
    if value[0] == '*' {
      star := 0;
    } else {
      assert value == [value[0]] + value[1..];
      var k := FirstStar(value[1..]);
      star := k + 1;
      assert value[..star] == [value[0]] + value[1..][..k];
    }
  }

  /** A value is matched correctly by every pattern exactly when it holds no star. */
  lemma GlobIsExact(value: string)
    ensures (forall pattern :: GlobMatches(pattern, value) == Matches(pattern, value)) <==> '*' !in value
  {
    if '*' in value {
      var star := FirstStar(value);
      RefutingIsRefused(value, star);
    } else {
      forall pattern
        ensures GlobMatches(pattern, value) == Matches(pattern, value)
      {
        GlobIsSound(pattern, value);
        GlobIsComplete(pattern, value);
      }
    }
  }
}
