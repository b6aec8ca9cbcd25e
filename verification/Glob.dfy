/** The pattern matcher of the relay's policy (src/auth/policy.rs).

    Text is a sequence of Unicode characters, so every index is a character
    boundary. */
module Glob {
  import opened Text
  import opened Wrappers

  const STAR := '*'

  predicate EndsWith(s: string, tail: string) {
    |tail| <= |s| && s[|s| - |tail|..] == tail
  }

  /** The matcher as the program runs it: literal head, an ends-with shortcut
      for the last star, otherwise a recursion over all suffixes. */
  predicate Matches(pattern: string, s: string)
    decreases |pattern|
  {
    match SplitOnce(pattern, STAR)
    case None => pattern == s
    case Some((head, tail)) =>
      && head <= s
      && var rest := s[|head|..];
         if STAR !in tail then EndsWith(rest, tail)
         else exists k | 0 <= k <= |rest| :: Matches(tail, rest[k..])
  }

  /** The number of stars in a pattern. */
  function Stars(pattern: string): nat {
    if pattern == [] then 0 else (if pattern[0] == '*' then 1 else 0) + Stars(pattern[1..])
  }

  /** The pattern with its k-th star replaced by the k-th run. */
  function Fill(pattern: string, runs: seq<string>): string
    requires |runs| == Stars(pattern)
  {
    if pattern == [] then []
    else if pattern[0] == '*' then runs[0] + Fill(pattern[1..], runs[1..])
    else [pattern[0]] + Fill(pattern[1..], runs)
  }

  lemma {:induction false} Literal(pattern: string)
    requires STAR !in pattern
    ensures Stars(pattern) == 0 && Fill(pattern, []) == pattern
  {
    if pattern != [] {
      assert pattern[0] in pattern;
      assert forall c | c in pattern[1..] :: c in pattern;
      Literal(pattern[1..]);
      assert pattern == [pattern[0]] + pattern[1..];
    }
  }

  /** A literal head, a star and a tail: the star takes the first run. */
  lemma {:induction false} FirstStar(head: string, tail: string, runs: seq<string>)
    requires STAR !in head
    ensures Stars(head + [STAR] + tail) == 1 + Stars(tail)
    ensures |runs| == 1 + Stars(tail) ==>
      Fill(head + [STAR] + tail, runs) == head + (runs[0] + Fill(tail, runs[1..]))
  {
    var pattern := head + [STAR] + tail;
    if head == [] {
      assert pattern[0] == STAR && pattern[1..] == tail;
    } else {
      var rest := head[1..];
      assert head[0] in head && forall c | c in rest :: c in head;
      assert pattern[1..] == rest + [STAR] + tail;
      FirstStar(rest, tail, runs);
      if |runs| == 1 + Stars(tail) {
        var filled := runs[0] + Fill(tail, runs[1..]);
        assert [head[0]] + (rest + filled) == head + filled;
      }
    }
  }

  /** The shortcut for the last star is only that: a pattern matches when its
      head is a prefix and its tail matches some suffix after the head. */
  lemma SuffixMatches(pattern: string, head: string, tail: string, s: string) returns (j: nat)
    requires SplitOnce(pattern, STAR) == Some((head, tail)) && Matches(pattern, s)
    ensures head <= s && |head| <= j <= |s| && Matches(tail, s[j..])
  {
    var rest := s[|head|..];
    if STAR !in tail {
      j := |s| - |tail|;
      assert rest[|rest| - |tail|..] == s[j..];
    } else {
      var k :| 0 <= k <= |rest| && Matches(tail, rest[k..]);
      j := |head| + k;
      assert rest[k..] == s[j..];
    }
  }

  lemma MatchesBySuffix(pattern: string, head: string, tail: string, s: string, j: nat)
    requires SplitOnce(pattern, STAR) == Some((head, tail))
    requires head <= s && |head| <= j <= |s| && Matches(tail, s[j..])
    ensures Matches(pattern, s)
  {
    var rest, k := s[|head|..], j - |head|;
    assert rest[k..] == s[j..];
    if STAR !in tail {
      assert EndsWith(rest, tail);
    }
  }

  /** `s` is the pattern with its stars replaced by the runs. */
  predicate Fills(pattern: string, runs: seq<string>, s: string) {
    |runs| == Stars(pattern) && Fill(pattern, runs) == s
  }

  lemma AddRun(head: string, tail: string, more: seq<string>, s: string, j: nat)
    requires STAR !in head && head <= s && |head| <= j <= |s|
    requires Fills(tail, more, s[j..])
    ensures Fills(head + [STAR] + tail, [s[|head|..j]] + more, s)
  {
    var runs := [s[|head|..j]] + more;
    FirstStar(head, tail, runs);
    assert runs[1..] == more;
    assert s == head + (s[|head|..j] + s[j..]);
  }

  /** A match always comes from a choice of one run per star. */
  lemma {:induction false} MatchFills(pattern: string, s: string) returns (runs: seq<string>)
    requires Matches(pattern, s)
    ensures Fills(pattern, runs, s)
    decreases |pattern|
  {
    match SplitOnce(pattern, STAR)
    case None =>
      Literal(pattern);
      runs := [];
    case Some((head, tail)) =>
      hide *;
      var j := SuffixMatches(pattern, head, tail, s);
      var more := MatchFills(tail, s[j..]);
      AddRun(head, tail, more, s, j);
      runs := [s[|head|..j]] + more;
  }

  /** And every choice of runs gives a match. */
  lemma {:induction false} FillMatches(pattern: string, runs: seq<string>)
    requires |runs| == Stars(pattern)
    ensures Matches(pattern, Fill(pattern, runs))
    decreases |pattern|
  {
    match SplitOnce(pattern, STAR)
    case None =>
      Literal(pattern);
      assert runs == [];
    case Some((head, tail)) =>
      hide *;
      FirstStar(head, tail, runs);
      FillMatches(tail, runs[1..]);
      var filled := Fill(tail, runs[1..]);
      var s, j := head + (runs[0] + filled), |head| + |runs[0]|;
      assert s[j..] == filled;
      MatchesBySuffix(pattern, head, tail, s, j);
  }

  /** The matcher accepts exactly what the comment on it promises: every `*`
      stands for some run of characters and everything else is literal. */
  lemma MatchesIffFilled(pattern: string, s: string)
    ensures Matches(pattern, s)
       <==> exists runs :: Fills(pattern, runs, s)
  {
    if Matches(pattern, s) {
      var runs := MatchFills(pattern, s);
    }
    forall runs | Fills(pattern, runs, s)
      ensures Matches(pattern, s)
    {
      FillMatches(pattern, runs);
    }
  }
}
