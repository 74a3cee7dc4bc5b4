// sanitize_description: markup is cut out by one left-to-right pass of the pattern
// <[^>]*>, then the text is cut to 500 characters.

module Sanitize {
  const MAX_LENGTH: nat := 500

  predicate Differs(s: string, x: int, c: char)
    requires 0 <= x < |s|
  {
    s[x] != c
  }

  predicate Free(s: string, from: int, to: int, c: char)
    requires 0 <= from <= to <= |s|
  {
    forall x :: from <= x < to ==> Differs(s, x, c)
  }

  lemma FreeMeans(s: string, from: int, to: int, c: char)
    requires 0 <= from <= to <= |s|
    ensures Free(s, from, to, c) <==> forall x :: from <= x < to ==> s[x] != c
  {
    if forall x :: from <= x < to ==> s[x] != c {
      assert forall x :: from <= x < to ==> Differs(s, x, c);
    }
    if Free(s, from, to, c) {
      assert forall x :: from <= x < to ==> Differs(s, x, c) ==> s[x] != c;
    }
  }

  /** The first c at or after a position, or the length. */
  function Find(s: string, from: nat, c: char): (i: nat)
    requires from <= |s|
    ensures from <= i <= |s| && (i < |s| ==> s[i] == c)
    decreases |s| - from
  {
    if from == |s| || s[from] == c then from else Find(s, from + 1, c)
  }

  lemma {:induction false} FindIsFirst(s: string, from: nat, c: char)
    requires from <= |s|
    ensures Free(s, from, Find(s, from, c), c)
    decreases |s| - from
  {
    if from < |s| && s[from] != c {
      FindIsFirst(s, from + 1, c);
    }
  }

  /** replace_all from a position on: the leftmost match starts at the first '<',
      ends at the first '>' after it, and the search goes on behind it. */
  function StripFrom(s: string, from: nat): string
    requires from <= |s|
    decreases |s| - from
  {
    var i := Find(s, from, '<');
    if i == |s| then s[from..]
    else
      var j := Find(s, i + 1, '>');
      if j == |s| then s[from..] else s[from..i] + StripFrom(s, j + 1)
  }

  function Strip(s: string): string {
    StripFrom(s, 0)
  }

  function Truncate(s: string): string {
    if |s| > MAX_LENGTH then s[..MAX_LENGTH] else s
  }

  function Sanitize(description: string): string {
    Truncate(Strip(description))
  }

  // ------------------------------------------------------- what a tag is, position-wise

  predicate Encloses(s: string, i: int, j: int, k: int) {
    0 <= i <= k <= j < |s| && i < j && s[i] == '<' && s[j] == '>' && (i < k ==> Free(s, i + 1, k, '>'))
  }

  /** Position k belongs to a tag: some '<' at or before it with no '>' in between,
      and some '>' at or after it. */
  ghost predicate InTag(s: string, k: int) {
    exists i, j :: Encloses(s, i, j, k)
  }

  /** The characters from k on that belong to no tag. */
  ghost function Kept(s: string, k: nat): string
    requires k <= |s|
    decreases |s| - k
  {
    if k == |s| then "" else (if InTag(s, k) then "" else [s[k]]) + Kept(s, k + 1)
  }

  predicate Clean(s: string) {
    forall i, j :: 0 <= i < j < |s| && s[i] == '<' ==> s[j] != '>'
  }

  lemma Cons(s: string, k: nat, m: nat, rest: string)
    requires k < m <= |s|
    ensures s[k..m] + rest == [s[k]] + (s[k + 1..m] + rest)
  {
  }

  lemma {:induction false} KeptPlain(s: string, k: nat, m: nat)
    requires k <= m <= |s|
    requires forall x :: k <= x < m ==> !InTag(s, x)
    ensures Kept(s, k) == s[k..m] + Kept(s, m)
    decreases m - k
  {
    if k < m {
      KeptPlain(s, k + 1, m);
      Cons(s, k, m, Kept(s, m));
      assert !InTag(s, k);
    }
  }

  lemma {:induction false} KeptTag(s: string, k: nat, m: nat)
    requires k <= m <= |s|
    requires forall x :: k <= x < m ==> InTag(s, x)
    ensures Kept(s, k) == Kept(s, m)
    decreases m - k
  {
    if k < m {
      KeptTag(s, k + 1, m);
    }
  }

  lemma Unopened(s: string, k: nat, x: nat)
    requires k <= x < |s| && (k == 0 || s[k - 1] == '>') && (forall y :: k <= y <= x ==> s[y] != '<')
    ensures !InTag(s, x)
  {
    assert k > 0 ==> !Differs(s, k - 1, '>');
  }

  /** Behind a '>' no tag is open, so none starts before the next '<'. */
  lemma Outside(s: string, k: nat, i: nat)
    requires k <= i <= |s| && (k == 0 || s[k - 1] == '>') && Free(s, k, i, '<')
    ensures forall x :: k <= x < i ==> !InTag(s, x)
    ensures Kept(s, k) == s[k..i] + Kept(s, i)
  {
    FreeMeans(s, k, i, '<');
    forall x | k <= x < i
      ensures !InTag(s, x)
    {
      Unopened(s, k, x);
    }
    KeptPlain(s, k, i);
  }

  lemma Inside(s: string, i: nat, j: nat)
    requires i < j < |s| && s[i] == '<' && s[j] == '>' && Free(s, i + 1, j, '>')
    ensures Kept(s, i) == Kept(s, j + 1)
  {
    forall x | i <= x < j + 1
      ensures InTag(s, x)
    {
      assert Encloses(s, i, j, x);
    }
    KeptTag(s, i, j + 1);
  }

  /** No '<' before i and no '>' behind it: no tag at all. */
  lemma NoTag(s: string, k: nat, i: nat)
    requires k <= i <= |s| && (k == 0 || s[k - 1] == '>') && Free(s, k, i, '<')
    requires i < |s| ==> Free(s, i, |s|, '>')
    ensures forall x :: k <= x < |s| ==> !InTag(s, x)
  {
    FreeMeans(s, k, i, '<');
    FreeMeans(s, i, |s|, '>');
    assert k > 0 ==> !Differs(s, k - 1, '>');
  }

  lemma KeptAll(s: string, k: nat)
    requires k <= |s| && forall x :: k <= x < |s| ==> !InTag(s, x)
    ensures Kept(s, k) == s[k..]
  {
    KeptPlain(s, k, |s|);
    assert Kept(s, |s|) == "";
  }

  lemma KeptTail(s: string, k: nat)
    requires k <= |s| && (k == 0 || s[k - 1] == '>')
    requires var i := Find(s, k, '<'); i < |s| ==> Find(s, i + 1, '>') == |s|
    ensures Kept(s, k) == s[k..]
  {
    var i := Find(s, k, '<');
    FindIsFirst(s, k, '<');
    if i < |s| {
      FindIsFirst(s, i + 1, '>');
    }
    NoTag(s, k, i);
    KeptAll(s, k);
  }

  lemma KeptAround(s: string, k: nat, i: nat, j: nat, rest: string)
    requires k <= |s| && (k == 0 || s[k - 1] == '>')
    requires i == Find(s, k, '<') && i < |s| && j == Find(s, i + 1, '>') && j < |s|
    requires Kept(s, j + 1) == rest
    ensures Kept(s, k) == s[k..i] + rest
  {
    FindIsFirst(s, k, '<');
    FindIsFirst(s, i + 1, '>');
    Outside(s, k, i);
    Inside(s, i, j);
  }

  lemma StripAround(s: string, k: nat, i: nat, j: nat, rest: string)
    requires k <= |s| && i == Find(s, k, '<') && i < |s| && j == Find(s, i + 1, '>') && j < |s|
    requires StripFrom(s, j + 1) == rest
    ensures StripFrom(s, k) == s[k..i] + rest
  {
  }

  ghost predicate Agree(s: string, k: nat)
    requires k <= |s|
  {
    StripFrom(s, k) == Kept(s, k)
  }

  lemma AgreeAround(s: string, k: nat, i: nat, j: nat)
    requires k <= |s| && (k == 0 || s[k - 1] == '>')
    requires i == Find(s, k, '<') && i < |s| && j == Find(s, i + 1, '>') && j < |s|
    requires Agree(s, j + 1)
    ensures Agree(s, k)
  {
    var rest := Kept(s, j + 1);
    StripAround(s, k, i, j, rest);
    KeptAround(s, k, i, j, rest);
  }

  lemma {:induction false} StripIsKeptFrom(s: string, k: nat)
    requires k <= |s| && (k == 0 || s[k - 1] == '>')
    ensures Agree(s, k)
    decreases |s| - k
  {
    var i := Find(s, k, '<');
    if i < |s| && Find(s, i + 1, '>') < |s| {
      var j := Find(s, i + 1, '>');
      StripIsKeptFrom(s, j + 1);
      AgreeAround(s, k, i, j);
    } else {
      KeptTail(s, k);
    }
  }

  /** The pass removes exactly the characters that belong to a tag. */
  lemma StripIsKept(s: string)
    ensures Strip(s) == Kept(s, 0)
  {
    StripIsKeptFrom(s, 0);
  }

  // ------------------------------------------------------------------ main results

  lemma Behind(a: string, b: string)
    requires '<' !in a && Clean(b)
    ensures Clean(a + b)
  {
    forall i, j | 0 <= i < j < |a + b| && (a + b)[i] == '<'
      ensures (a + b)[j] != '>'
    {
      assert (a + b)[i] in a || i >= |a|;
    }
  }

  lemma NothingToStrip(s: string, k: nat, i: nat)
    requires k <= i <= |s| && Free(s, k, i, '<') && (i < |s| ==> Free(s, i + 1, |s|, '>'))
    ensures Clean(s[k..])
  {
    FreeMeans(s, k, i, '<');
    if i < |s| {
      FreeMeans(s, i + 1, |s|, '>');
    }
    forall x, y | 0 <= x < y < |s[k..]| && s[k..][x] == '<'
      ensures s[k..][y] != '>'
    {
      assert k + x >= i;
    }
  }

  lemma CleanAround(s: string, k: nat, i: nat, j: nat, rest: string)
    requires k <= |s| && i == Find(s, k, '<') && i < |s| && j == Find(s, i + 1, '>') && j < |s|
    requires StripFrom(s, j + 1) == rest && Clean(rest)
    ensures Clean(StripFrom(s, k))
  {
    StripAround(s, k, i, j, rest);
    FindIsFirst(s, k, '<');
    FreeMeans(s, k, i, '<');
    Behind(s[k..i], rest);
  }

  lemma CleanTail(s: string, k: nat)
    requires k <= |s|
    requires var i := Find(s, k, '<'); i < |s| ==> Find(s, i + 1, '>') == |s|
    ensures Clean(s[k..])
  {
    var i := Find(s, k, '<');
    FindIsFirst(s, k, '<');
    if i < |s| {
      FindIsFirst(s, i + 1, '>');
    }
    NothingToStrip(s, k, i);
  }

  lemma {:induction false} StripCleansFrom(s: string, k: nat)
    requires k <= |s|
    ensures Clean(StripFrom(s, k))
    decreases |s| - k
  {
    var i := Find(s, k, '<');
    if i < |s| && Find(s, i + 1, '>') < |s| {
      var j := Find(s, i + 1, '>');
      StripCleansFrom(s, j + 1);
      CleanAround(s, k, i, j, StripFrom(s, j + 1));
    } else {
      CleanTail(s, k);
    }
  }

  /** Exactly the texts without a '<' before a '>' pass unchanged. */
  lemma StripFixes(s: string)
    ensures Strip(s) == s <==> Clean(s)
  {
    StripCleansFrom(s, 0);
    assert s[0..] == s;
    var i := Find(s, 0, '<');
    assert i < |s| && Clean(s) ==> Find(s, i + 1, '>') == |s|;
  }

  /** No tag survives, truncation opens none, and the length is bounded. */
  lemma SanitizedIsClean(s: string)
    ensures Clean(Sanitize(s)) && |Sanitize(s)| <= 500
    ensures Sanitize(s) <= Kept(s, 0)
    ensures |Sanitize(s)| < 500 ==> Sanitize(s) == Kept(s, 0)
  {
    StripCleansFrom(s, 0);
    StripIsKept(s);
  }

  /** Sanitizing twice is sanitizing once; exactly clean short texts are untouched. */
  lemma SanitizeTwice(s: string)
    ensures Sanitize(Sanitize(s)) == Sanitize(s)
    ensures Sanitize(s) == s <==> Clean(s) && |s| <= 500
  {
    SanitizedIsClean(s);
    StripFixes(Sanitize(s));
    StripFixes(s);
  }
}
