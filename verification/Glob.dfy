// The event-pattern matcher: a greedy left-to-right loop over the pieces between
// the stars, proved equal to the meaning of the pattern.

module Glob {
  import opened Options
  import opened Texts

  // ------------------------------------------------------- what a pattern means

  function Stars(pattern: string): nat {
    Count(pattern, '*')
  }

  /** The pattern with its i-th star replaced by fillers[i]. */
  function Fill(pattern: string, fillers: seq<string>): string
    requires |fillers| == Stars(pattern)
  {
    if pattern == "" then ""
    else if pattern[0] == '*' then fillers[0] + Fill(pattern[1..], fillers[1..])
    else [pattern[0]] + Fill(pattern[1..], fillers)
  }

  ghost predicate Matches(pattern: string, event: string) {
    exists fillers: seq<string> :: |fillers| == Stars(pattern) && Fill(pattern, fillers) == event
  }

  // ------------------------------------------------ the library calls of the loop

  predicate StartsWith(s: string, prefix: string) {
    |prefix| <= |s| && s[..|prefix|] == prefix
  }

  predicate EndsWith(s: string, suffix: string) {
    |suffix| <= |s| && s[|s| - |suffix|..] == suffix
  }

  /** str::find. */
  function Find(s: string, part: string): Option<nat> {
    if StartsWith(s, part) then Some(0)
    else if s == "" then None
    else
      match Find(s[1..], part)
      case Some(p) => Some(p + 1)
      case None => None
  }

  /** Find answers the leftmost occurrence, if there is one. */
  lemma {:induction false} FindIsLeftmost(s: string, part: string)
    ensures var r := Find(s, part);
      && (r.Some? ==> r.value + |part| <= |s| && StartsWith(s[r.value..], part))
      && (forall i :: 0 <= i <= |s| && (r.Some? ==> i < r.value) ==> !StartsWith(s[i..], part))
  {
    if StartsWith(s, part) {
      assert s[0..] == s;
    } else if s == "" {
      assert s[0..] == s;
    } else {
      FindIsLeftmost(s[1..], part);
      assert forall i :: 1 <= i <= |s| ==> s[i..] == s[1..][i - 1..];
      assert s[0..] == s;
    }
  }

  // ---------------------------------------------------- the meaning, on the parts

  /** The event is a gap, parts[0], a gap, parts[1], ..., ending with the last part. */
  ghost predicate FitsAfterGap(parts: seq<string>, s: string)
    decreases |parts|, 1
  {
    if parts == [] then s == ""
    else if |parts| == 1 then EndsWith(s, parts[0])
    else exists q: nat :: FitsAt(parts, s, q)
  }

  /** The same with the first gap q characters long. */
  ghost predicate FitsAt(parts: seq<string>, s: string, q: nat)
    decreases |parts|, 0
  {
    && |parts| >= 1 && q + |parts[0]| <= |s|
    && StartsWith(s[q..], parts[0])
    && FitsAfterGap(parts[1..], s[q + |parts[0]|..])
  }

  lemma FirstGap(parts: seq<string>, s: string) returns (q: nat)
    requires |parts| > 1 && FitsAfterGap(parts, s)
    ensures FitsAt(parts, s, q)
  {
    q :| FitsAt(parts, s, q);
  }

  ghost predicate Fits(parts: seq<string>, s: string)
    requires |parts| >= 1
  {
    StartsWith(s, parts[0])
    && if |parts| == 1 then s == parts[0] else FitsAfterGap(parts[1..], s[|parts[0]|..])
  }

  /** Fill, expressed on the parts. */
  function Join(parts: seq<string>, fillers: seq<string>): string
    requires |parts| == |fillers| + 1
  {
    if fillers == [] then parts[0] else parts[0] + (fillers[0] + Join(parts[1..], fillers[1..]))
  }

  lemma JoinCons(c: char, parts: seq<string>, fillers: seq<string>)
    requires |parts| == |fillers| + 1
    ensures Join([[c] + parts[0]] + parts[1..], fillers) == [c] + Join(parts, fillers)
  {
    var longer := [[c] + parts[0]] + parts[1..];
    assert longer[1..] == parts[1..];
    if fillers != [] {
      Reassociate([c], parts[0], fillers[0] + Join(parts[1..], fillers[1..]));
    }
  }

  lemma Reassociate(a: string, b: string, c: string)
    ensures (a + b) + c == a + (b + c)
  {
  }

  lemma DropDrop(s: string, a: nat, b: nat)
    requires a + b <= |s|
    ensures s[a..][b..] == s[a + b..]
  {
  }

  lemma TakeDrop(a: string, b: string)
    ensures (a + b)[|a|..] == b && (a + b)[..|a|] == a
  {
  }

  lemma {:induction false} FillIsJoin(pattern: string, fillers: seq<string>)
    requires |fillers| == Stars(pattern)
    ensures Fill(pattern, fillers) == Join(Split(pattern, '*'), fillers)
  {
    if pattern == "" {
    } else if pattern[0] == '*' {
      FillIsJoin(pattern[1..], fillers[1..]);
      assert Split(pattern, '*')[1..] == Split(pattern[1..], '*');
    } else {
      FillIsJoin(pattern[1..], fillers);
      JoinCons(pattern[0], Split(pattern[1..], '*'), fillers);
    }
  }

  lemma {:induction false} JoinFits(parts: seq<string>, fillers: seq<string>, gap: string)
    requires |parts| == |fillers| + 1
    ensures FitsAfterGap(parts, gap + Join(parts, fillers))
    decreases |parts|
  {
    var s := gap + Join(parts, fillers);
    TakeDrop(gap, Join(parts, fillers));
    if fillers != [] {
      var rest := fillers[0] + Join(parts[1..], fillers[1..]);
      TakeDrop(parts[0], rest);
      DropDrop(s, |gap|, |parts[0]|);
      JoinFits(parts[1..], fillers[1..], fillers[0]);
      assert FitsAt(parts, s, |gap|);
    }
  }

  lemma {:induction false} FitsJoins(parts: seq<string>, s: string) returns (gap: string, fillers: seq<string>)
    requires parts != [] && FitsAfterGap(parts, s)
    ensures |parts| == |fillers| + 1 && s == gap + Join(parts, fillers)
    decreases |parts|
  {
    if |parts| == 1 {
      gap, fillers := s[..|s| - |parts[0]|], [];
    } else {
      var q := FirstGap(parts, s);
      var rest := s[q + |parts[0]|..];
      var first, others := FitsJoins(parts[1..], rest);
      gap, fillers := s[..q], [first] + others;
      assert fillers[1..] == others;
      PrefixRest(s[q..], parts[0]);
      DropDrop(s, q, |parts[0]|);
      assert Join(parts, fillers) == parts[0] + (first + Join(parts[1..], others));
    }
  }

  lemma PrefixRest(s: string, prefix: string)
    requires StartsWith(s, prefix)
    ensures s == prefix + s[|prefix|..]
  {
  }

  lemma FilledFits(pattern: string, fillers: seq<string>)
    requires |fillers| == Stars(pattern)
    ensures Fits(Split(pattern, '*'), Fill(pattern, fillers))
  {
    var parts := Split(pattern, '*');
    FillIsJoin(pattern, fillers);
    if fillers != [] {
      JoinFits(parts[1..], fillers[1..], fillers[0]);
      TakeDrop(parts[0], fillers[0] + Join(parts[1..], fillers[1..]));
    }
  }

  lemma FitsFilled(pattern: string, event: string) returns (fillers: seq<string>)
    requires Fits(Split(pattern, '*'), event)
    ensures |fillers| == Stars(pattern) && Fill(pattern, fillers) == event
  {
    var parts := Split(pattern, '*');
    PrefixRest(event, parts[0]);
    fillers := [];
    if |parts| > 1 {
      var gap, rest := FitsJoins(parts[1..], event[|parts[0]|..]);
      fillers := [gap] + rest;
      assert fillers[1..] == rest;
    }
    FillIsJoin(pattern, fillers);
  }

  lemma MatchesIsFits(pattern: string, event: string)
    ensures Matches(pattern, event) <==> Fits(Split(pattern, '*'), event)
  {
    if Matches(pattern, event) {
      var fillers: seq<string> :| |fillers| == Stars(pattern) && Fill(pattern, fillers) == event;
      FilledFits(pattern, fillers);
    }
    if Fits(Split(pattern, '*'), event) {
      var fillers := FitsFilled(pattern, event);
    }
  }

  // --------------------------------------------------------- the exchange argument

  /** A longer gap never hurts: whatever fits a suffix fits the whole. */
  lemma GapAbsorbs(parts: seq<string>, s: string, a: nat)
    requires parts != [] && a <= |s| && FitsAfterGap(parts, s[a..])
    ensures FitsAfterGap(parts, s)
  {
    var t := s[a..];
    if |parts| == 1 {
      DropDrop(s, a, |t| - |parts[0]|);
    } else {
      var q := FirstGap(parts, t);
      DropDrop(s, a, q);
      DropDrop(s, a, q + |parts[0]|);
      assert FitsAt(parts, s, a + q);
    }
  }

  lemma LeftmostKeepsSolutions(parts: seq<string>, s: string, p: nat, q: nat)
    requires |parts| > 1 && FitsAt(parts, s, q) && p <= q
    ensures FitsAfterGap(parts[1..], s[p + |parts[0]|..])
  {
    DropDrop(s, p + |parts[0]|, q - p);
    GapAbsorbs(parts[1..], s[p + |parts[0]|..], q - p);
  }

  /** Taking the leftmost occurrence of the next part loses no solution. */
  lemma LeftmostIsEnough(parts: seq<string>, s: string, p: nat)
    requires |parts| > 1 && Find(s, parts[0]) == Some(p)
    ensures p + |parts[0]| <= |s|
    ensures FitsAfterGap(parts, s) <==> FitsAfterGap(parts[1..], s[p + |parts[0]|..])
  {
    FindIsLeftmost(s, parts[0]);
    if FitsAfterGap(parts, s) {
      var q := FirstGap(parts, s);
      assert p <= q;
      LeftmostKeepsSolutions(parts, s, p, q);
    } else {
      assert !FitsAt(parts, s, p);
    }
  }

  /** An empty part (two adjacent stars) asks for nothing. */
  lemma EmptyPartSkipped(parts: seq<string>, s: string)
    requires |parts| > 1 && parts[0] == ""
    ensures FitsAfterGap(parts, s) <==> FitsAfterGap(parts[1..], s)
  {
    assert StartsWith(s, parts[0]);
    LeftmostIsEnough(parts, s, 0);
    assert s[0..] == s;
  }

  // ----------------------------------------------------------------- the matcher

  /** What is still to be decided when the loop stands before part i at pos. */
  ghost predicate Remaining(parts: seq<string>, event: string, i: nat, pos: nat)
    requires |parts| >= 2 && i <= |parts| && pos <= |event|
  {
    if i == 0 then Fits(parts, event)
    else if i == |parts| then true
    else FitsAfterGap(parts[i..], event[pos..])
  }

  lemma EmptyPart(parts: seq<string>, event: string, i: nat, pos: nat)
    requires |parts| >= 2 && i < |parts| && pos <= |event| && parts[i] == "" && (i == 0 ==> pos == 0)
    ensures Remaining(parts, event, i, pos) <==> Remaining(parts, event, i + 1, pos)
  {
    if 0 < i < |parts| - 1 {
      EmptyPartSkipped(parts[i..], event[pos..]);
      assert parts[i..][1..] == parts[i + 1..];
    } else if i == 0 {
      assert event[0..] == event;
    }
  }

  lemma MiddlePart(parts: seq<string>, event: string, i: nat, pos: nat, p: nat)
    requires 0 < i < |parts| - 1 && pos <= |event| && Find(event[pos..], parts[i]) == Some(p)
    ensures pos + (p + |parts[i]|) <= |event|
    ensures Remaining(parts, event, i, pos) <==> Remaining(parts, event, i + 1, pos + (p + |parts[i]|))
  {
    LeftmostIsEnough(parts[i..], event[pos..], p);
    assert parts[i..][1..] == parts[i + 1..];
    assert event[pos..][p + |parts[i]|..] == event[pos + (p + |parts[i]|)..];
  }

  lemma MissingPart(parts: seq<string>, event: string, i: nat, pos: nat)
    requires 0 < i < |parts| - 1 && pos <= |event| && Find(event[pos..], parts[i]).None?
    ensures !Remaining(parts, event, i, pos)
  {
    FindIsLeftmost(event[pos..], parts[i]);
    if Remaining(parts, event, i, pos) {
      var q := FirstGap(parts[i..], event[pos..]);
      assert false;
    }
  }

  lemma LastPart(parts: seq<string>, event: string, pos: nat)
    requires |parts| >= 2 && pos <= |event|
    ensures Remaining(parts, event, |parts| - 1, pos) <==> EndsWith(event[pos..], parts[|parts| - 1])
  {
  }

  lemma FirstPart(parts: seq<string>, event: string)
    requires |parts| >= 2
    ensures Remaining(parts, event, 0, 0)
            <==> StartsWith(event, parts[0]) && Remaining(parts, event, 1, |parts[0]|)
  {
  }

  /** The loop of pattern_matches, over the pieces between the stars. */
  method PartsMatch(parts: seq<string>, event: string) returns (matched: bool)
    requires |parts| >= 2
    ensures matched <==> Remaining(parts, event, 0, 0)
  {
    ghost var answer := Remaining(parts, event, 0, 0);
    var pos := 0;
    var i := 0;
    while i < |parts|
      invariant 0 <= i <= |parts|
      invariant 0 <= pos <= |event|
      invariant i == 0 ==> pos == 0
      invariant answer <==> Remaining(parts, event, i, pos)
    {
      var part := parts[i];
      if part == "" {
        EmptyPart(parts, event, i, pos);
      } else if i == 0 {
        FirstPart(parts, event);
        assert event[pos..] == event;
        if !StartsWith(event[pos..], part) {
          return false;
        }
        pos := pos + |part|;
      } else if i == |parts| - 1 {
        LastPart(parts, event, pos);
        return EndsWith(event[pos..], part);
      } else {
        var found := Find(event[pos..], part);
        if found.None? {
          MissingPart(parts, event, i, pos);
          return false;
        }
        MiddlePart(parts, event, i, pos, found.value);
        pos := pos + (found.value + |part|);
      }
      i := i + 1;
    }
    return true;
  }

  method PatternMatches(pattern: string, event: string) returns (matched: bool)
    ensures matched <==> Matches(pattern, event)
  {
    MatchesIsFits(pattern, event);
    if pattern == "*" {
      LoneStar(event);
      return true;
    }
    if '*' !in pattern {
      NoStars(pattern);
      return pattern == event;
    }
    HasStar(pattern);
    matched := PartsMatch(Split(pattern, '*'), event);
  }

  lemma LoneStar(event: string)
    ensures Fits(Split("*", '*'), event)
  {
    var p := "*";
    assert p[1..] == "";
    assert Split(p, '*') == ["", ""];
    assert Split(p, '*')[1..] == [""];
  }

  lemma NoStars(pattern: string)
    requires '*' !in pattern
    ensures Split(pattern, '*') == [pattern]
  {
    if pattern != "" {
      NoStars(pattern[1..]);
      assert pattern == [pattern[0]] + pattern[1..];
    }
  }

  lemma HasStar(pattern: string)
    requires '*' in pattern
    ensures |Split(pattern, '*')| >= 2
  {
    if pattern[0] != '*' {
      HasStar(pattern[1..]);
    }
  }

  /** Without a star the pattern is the one event it matches. */
  lemma PlainPattern(pattern: string, event: string)
    requires '*' !in pattern
    ensures Matches(pattern, event) <==> event == pattern
  {
    MatchesIsFits(pattern, event);
    NoStars(pattern);
  }

  lemma FitsTwo(a: string, b: string, event: string)
    ensures Fits([a, b], event) <==> |a| + |b| <= |event| && event[..|a|] == a && event[|event| - |b|..] == b
  {
    assert [a, b][1..] == [b];
    if |a| + |b| <= |event| {
      EndOfRest(event, |a|, |b|);
    }
  }

  lemma EndOfRest(s: string, a: nat, b: nat)
    requires a + b <= |s|
    ensures s[a..][|s| - a - b..] == s[|s| - b..]
  {
  }

  /** One star stands for anything between the two ends. */
  lemma OneStar(a: string, b: string, event: string)
    requires '*' !in a && '*' !in b
    ensures Matches(a + "*" + b, event)
            <==> |a| + |b| <= |event| && event[..|a|] == a && event[|event| - |b|..] == b
  {
    MatchesIsFits(a + "*" + b, event);
    SplitAtStar(a, b);
    FitsTwo(a, b, event);
  }

  lemma {:induction false} SplitAtStar(a: string, b: string)
    requires '*' !in a && '*' !in b
    ensures Split(a + "*" + b, '*') == [a, b]
  {
    var p := a + "*" + b;
    if a == "" {
      NoStars(b);
      assert p[1..] == b;
    } else {
      assert p[1..] == a[1..] + "*" + b;
      SplitAtStar(a[1..], b);
      assert [a[0]] + a[1..] == a;
    }
  }
}
