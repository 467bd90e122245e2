/**
 * Python's string primitives as the extractor uses them: `startswith`,
 * `endswith`, `in`, and the left-to-right, non-overlapping scan shared by
 * `str.replace`, `str.split` and `str.count` for a non-empty pattern.
 */
module Text {

  predicate StartsWith(s: string, prefix: string)
  {
    |prefix| <= |s| && s[..|prefix|] == prefix
  }

  predicate EndsWith(s: string, suffix: string)
  {
    |suffix| <= |s| && s[|s| - |suffix|..] == suffix
  }

  /** `pat in s` */
  predicate Contains(s: string, pat: string)
    requires |pat| > 0
    decreases |s|
  {
    StartsWith(s, pat) || (|s| > 0 && Contains(s[1..], pat))
  }

  /** `s.replace(pat, rep)`: every non-overlapping occurrence, scanning left to right. */
  function ReplaceAll(s: string, pat: string, rep: string): string
    requires |pat| > 0
    decreases |s|
  {
    if |s| < |pat| then s
    else if StartsWith(s, pat) then rep + ReplaceAll(s[|pat|..], pat, rep)
    else [s[0]] + ReplaceAll(s[1..], pat, rep)
  }

  /** `s.count(pat)`: the number of occurrences the same scan finds. */
  function CountMatches(s: string, pat: string): nat
    requires |pat| > 0
    decreases |s|
  {
    if |s| < |pat| then 0
    else if StartsWith(s, pat) then 1 + CountMatches(s[|pat|..], pat)
    else CountMatches(s[1..], pat)
  }

  /** `s.split(sep)`: the pieces between the occurrences the same scan finds. */
  function SplitOn(s: string, sep: string): (parts: seq<string>)
    requires |sep| > 0
    ensures |parts| >= 1
    decreases |s|
  {
    if |s| < |sep| then [s]
    else if StartsWith(s, sep) then [""] + SplitOn(s[|sep|..], sep)
    else
      var rest := SplitOn(s[1..], sep);
      [[s[0]] + rest[0]] + rest[1..]
  }

  /** `sep.join(parts)` */
  function JoinWith(parts: seq<string>, sep: string): string
    requires |parts| >= 1
  {
    if |parts| == 1 then parts[0] else parts[0] + sep + JoinWith(parts[1..], sep)
  }

  lemma {:induction false} JoinWithFirst(x: string, parts: seq<string>, sep: string)
    requires |parts| >= 1
    ensures JoinWith([x + parts[0]] + parts[1..], sep) == x + JoinWith(parts, sep)
  {
    var q := [x + parts[0]] + parts[1..];
    assert q[1..] == parts[1..];
  }

  /** Python's identity `s.replace(p, r) == r.join(s.split(p))`. */
  lemma {:induction false} ReplaceIsJoinOfSplit(s: string, pat: string, rep: string)
    requires |pat| > 0
    ensures ReplaceAll(s, pat, rep) == JoinWith(SplitOn(s, pat), rep)
    decreases |s|
  {
    if |s| < |pat| {
    } else if StartsWith(s, pat) {
      ReplaceIsJoinOfSplit(s[|pat|..], pat, rep);
      var parts := [""] + SplitOn(s[|pat|..], pat);
      assert parts[1..] == SplitOn(s[|pat|..], pat);
    } else {
      ReplaceIsJoinOfSplit(s[1..], pat, rep);
      var rest := SplitOn(s[1..], pat);
      JoinWithFirst([s[0]], rest, rep);
    }
  }

  lemma {:induction false} ReplaceBySelf(s: string, pat: string)
    requires |pat| > 0
    ensures ReplaceAll(s, pat, pat) == s
    decreases |s|
  {
    if |s| < |pat| {
    } else if StartsWith(s, pat) {
      ReplaceBySelf(s[|pat|..], pat);
      assert s == s[..|pat|] + s[|pat|..];
    } else {
      ReplaceBySelf(s[1..], pat);
      assert s == [s[0]] + s[1..];
    }
  }

  /** Splitting and joining back with the same separator gives the text back. */
  lemma SplitJoinRoundTrip(s: string, sep: string)
    requires |sep| > 0
    ensures JoinWith(SplitOn(s, sep), sep) == s
  {
    ReplaceIsJoinOfSplit(s, sep, sep);
    ReplaceBySelf(s, sep);
  }

  /** `str.split` yields one more piece than `str.count` finds separators. */
  lemma {:induction false} SplitPieceCount(s: string, sep: string)
    requires |sep| > 0
    ensures |SplitOn(s, sep)| == CountMatches(s, sep) + 1
    decreases |s|
  {
    if |s| < |sep| {
    } else if StartsWith(s, sep) {
      SplitPieceCount(s[|sep|..], sep);
    } else {
      SplitPieceCount(s[1..], sep);
    }
  }

  /** No piece of a split on a one-character separator contains that character. */
  lemma {:induction false} SplitPiecesLackSeparator(s: string, sep: string)
    requires |sep| == 1
    ensures forall k :: 0 <= k < |SplitOn(s, sep)| ==> sep[0] !in SplitOn(s, sep)[k]
    decreases |s|
  {
    if |s| < |sep| {
    } else if StartsWith(s, sep) {
      SplitPiecesLackSeparator(s[1..], sep);
    } else {
      SplitPiecesLackSeparator(s[1..], sep);
      assert s[..1] == [s[0]];
    }
  }

  /** Each replacement trades |pat| characters for |rep| characters. */
  lemma {:induction false} ReplaceLength(s: string, pat: string, rep: string)
    requires |pat| > 0
    ensures |ReplaceAll(s, pat, rep)| + CountMatches(s, pat) * |pat|
         == |s| + CountMatches(s, pat) * |rep|
    decreases |s|
  {
    if |s| < |pat| {
      assert CountMatches(s, pat) == 0;
    } else if StartsWith(s, pat) {
      var rest := s[|pat|..];
      ReplaceLength(rest, pat, rep);
      assert |ReplaceAll(s, pat, rep)| == |rep| + |ReplaceAll(rest, pat, rep)|;
      assert CountMatches(s, pat) == 1 + CountMatches(rest, pat);
      OneMoreMatch(|ReplaceAll(rest, pat, rep)|, |rest|, CountMatches(rest, pat), |pat|, |rep|);
    } else {
      var rest := s[1..];
      ReplaceLength(rest, pat, rep);
      assert |ReplaceAll(s, pat, rep)| == 1 + |ReplaceAll(rest, pat, rep)|;
      assert CountMatches(s, pat) == CountMatches(rest, pat);
    }
  }

  /** The arithmetic of one more replaced match. */
  lemma OneMoreMatch(r: int, n: int, c: int, p: int, q: int)
    requires r + c * p == n + c * q
    ensures (q + r) + (1 + c) * p == (n + p) + (1 + c) * q
  {
    assert (1 + c) * p == p + c * p;
    assert (1 + c) * q == q + c * q;
  }

  /** The scan finds an occurrence exactly when the pattern occurs. */
  lemma {:induction false} CountPositiveIffContains(s: string, pat: string)
    requires |pat| > 0
    ensures CountMatches(s, pat) > 0 <==> Contains(s, pat)
    decreases |s|
  {
    if |s| < |pat| {
      if |s| > 0 {
        CountPositiveIffContains(s[1..], pat);
      }
    } else if StartsWith(s, pat) {
    } else {
      CountPositiveIffContains(s[1..], pat);
    }
  }

  /** Text without the pattern comes back unchanged. */
  lemma {:induction false} ReplaceWithoutMatch(s: string, pat: string, rep: string)
    requires |pat| > 0
    requires !Contains(s, pat)
    ensures ReplaceAll(s, pat, rep) == s
    decreases |s|
  {
    if |s| < |pat| {
    } else {
      ReplaceWithoutMatch(s[1..], pat, rep);
      assert s == [s[0]] + s[1..];
    }
  }

  /** Replacing a character by text that lacks it leaves none of that character. */
  lemma {:induction false} ReplaceRemovesChar(s: string, c: char, rep: string)
    requires c !in rep
    ensures c !in ReplaceAll(s, [c], rep)
    decreases |s|
  {
    if |s| < 1 {
    } else if StartsWith(s, [c]) {
      ReplaceRemovesChar(s[1..], c, rep);
    } else {
      ReplaceRemovesChar(s[1..], c, rep);
      assert s[..1] == [s[0]];
    }
  }
}
