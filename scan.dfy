/** Left-to-right pattern scanning as Python's `re` module performs it for
    patterns that never match the empty string: `re.sub`, `re.findall`, and the
    character searches the patterns of this model are built from. */
module Scan {
  import opened Common

  /** A match at the start of the remaining text: how many characters it spans
      and what replaces them. */
  datatype Hit = Hit(len: nat, replacement: string)

  predicate Hits(matcher: string -> Option<Hit>, s: string) {
    matcher(s).Some? && 0 < matcher(s).value.len <= |s|
  }

  /** `re.sub`: scanning left to right, a position where the pattern matches is
      replaced and scanning resumes after the match; elsewhere one character is
      copied and scanning moves on by one. */
  function ReSub(s: string, matcher: string -> Option<Hit>): string
    decreases |s|
  {
    if s == [] then []
    else if Hits(matcher, s) then
      matcher(s).value.replacement + ReSub(s[matcher(s).value.len..], matcher)
    else [s[0]] + ReSub(s[1..], matcher)
  }

  /** Where the pattern matches nowhere, the substitution changes nothing. */
  lemma {:induction false} ReSubNoop(s: string, matcher: string -> Option<Hit>)
    requires forall i :: 0 <= i < |s| ==> !Hits(matcher, s[i..])
    ensures ReSub(s, matcher) == s
  {
    if s != [] {
      assert s[0..] == s;
      forall i | 0 <= i < |s[1..]| ensures !Hits(matcher, s[1..][i..]) {
        assert s[1..][i..] == s[i + 1..];
      }
      ReSubNoop(s[1..], matcher);
    }
  }

  /** A pattern whose replacement is never longer than the text it matched. */
  ghost predicate Shrinking(matcher: string -> Option<Hit>) {
    forall s :: Hits(matcher, s) ==> |matcher(s).value.replacement| <= matcher(s).value.len
  }

  /** Substituting with such a pattern never lengthens the text. */
  lemma {:induction false} ReSubNoLonger(s: string, matcher: string -> Option<Hit>)
    requires Shrinking(matcher)
    ensures |ReSub(s, matcher)| <= |s|
    decreases |s|
  {
    if s != [] {
      if Hits(matcher, s) {
        ReSubNoLonger(s[matcher(s).value.len..], matcher);
      } else {
        ReSubNoLonger(s[1..], matcher);
      }
    }
  }

  /** A text the pattern matches in full is replaced by the replacement alone. */
  lemma ReSubWhole(s: string, matcher: string -> Option<Hit>)
    requires Hits(matcher, s) && matcher(s).value.len == |s|
    ensures ReSub(s, matcher) == matcher(s).value.replacement
  {
    assert s[|s|..] == [];
  }

  /** Where the pattern matches at no position of `pre`, the substitution copies
      `pre` and carries on with what follows it. */
  lemma {:induction false} ReSubPrefix(pre: string, rest: string, matcher: string -> Option<Hit>)
    requires forall j :: 0 <= j < |pre| ==> !Hits(matcher, (pre + rest)[j..])
    ensures ReSub(pre + rest, matcher) == pre + ReSub(rest, matcher)
  {
    if pre == [] {
      assert pre + rest == rest;
    } else {
      assert (pre + rest)[0..] == pre + rest;
      assert (pre + rest)[1..] == pre[1..] + rest;
      forall j | 0 <= j < |pre[1..]| ensures !Hits(matcher, (pre[1..] + rest)[j..]) {
        assert (pre[1..] + rest)[j..] == (pre + rest)[j + 1..];
      }
      ReSubPrefix(pre[1..], rest, matcher);
    }
  }

  /** The first index at or after `i` that holds `c`. */
  function Find(s: string, c: char, i: nat): (r: Option<nat>)
    ensures r.Some? ==> i <= r.value < |s| && s[r.value] == c
    ensures r.Some? ==> forall j :: i <= j < r.value ==> s[j] != c
    ensures r.None? ==> forall j :: i <= j < |s| ==> s[j] != c
    decreases |s| - i
  {
    if i >= |s| then None
    else if s[i] == c then Some(i)
    else Find(s, c, i + 1)
  }

  /** The first index at or after `i` where `sub` occurs in `s`. */
  function FindSub(s: string, sub: string, i: nat): (r: Option<nat>)
    ensures r.Some? ==> i <= r.value && r.value + |sub| <= |s| && s[r.value..r.value + |sub|] == sub
    decreases |s| - i
  {
    if i + |sub| > |s| then None
    else if s[i..i + |sub|] == sub then Some(i)
    else FindSub(s, sub, i + 1)
  }

  /** The end of the run of `p` characters that starts at `i`. */
  function RunEnd(s: string, p: char -> bool, i: nat): (r: nat)
    requires i <= |s|
    ensures i <= r <= |s|
    ensures forall j :: i <= j < r ==> p(s[j])
    ensures r == |s| || !p(s[r])
    decreases |s| - i
  {
    if i == |s| || !p(s[i]) then i else RunEnd(s, p, i + 1)
  }

  /** `Find` stops exactly at the first `c` from `i` on. */
  lemma FindIs(s: string, c: char, i: nat, k: nat)
    requires i <= k < |s| && s[k] == c
    requires forall j :: i <= j < k ==> s[j] != c
    ensures Find(s, c, i) == Some(k)
  {
  }

  /** `RunEnd` stops exactly where the run of `p` characters ends. */
  lemma RunEndIs(s: string, p: char -> bool, i: nat, k: nat)
    requires i <= k <= |s|
    requires forall j :: i <= j < k ==> p(s[j])
    requires k == |s| || !p(s[k])
    ensures RunEnd(s, p, i) == k
  {
  }

  /** With no character of `sub`'s head between `i` and `k`, the first occurrence
      of `sub` from `i` on is the one at `k`. */
  lemma {:induction false} FindSubAt(s: string, sub: string, i: nat, k: nat)
    requires sub != [] && i <= k && k + |sub| <= |s| && s[k..k + |sub|] == sub
    requires forall j :: i <= j < k ==> s[j] != sub[0]
    ensures FindSub(s, sub, i) == Some(k)
    decreases k - i
  {
    if i < k {
      assert s[i..i + |sub|][0] == s[i];
      FindSubAt(s, sub, i + 1, k);
    }
  }

  /** `len(re.findall(...))`: how many non-overlapping matches a left-to-right
      scan finds. */
  function CountMatches(s: string, matcher: string -> Option<Hit>): nat
    decreases |s|
  {
    if s == [] then 0
    else if Hits(matcher, s) then 1 + CountMatches(s[matcher(s).value.len..], matcher)
    else CountMatches(s[1..], matcher)
  }

  /** `re.sub(r"[p]+", [rep], s)`: every maximal run of `p` characters becomes one
      `rep`. `inRun` says that the character before `s` was part of a run, so a
      run continuing at the start of `s` has already been replaced. */
  function SqueezeRuns(s: string, p: char -> bool, rep: char, inRun: bool): (r: string)
    ensures |r| <= |s|
  {
    if s == [] then []
    else if !p(s[0]) then [s[0]] + SqueezeRuns(s[1..], p, rep, false)
    else if inRun then SqueezeRuns(s[1..], p, rep, true)
    else [rep] + SqueezeRuns(s[1..], p, rep, true)
  }

  /** `c` never appears twice in a row in `s`. */
  predicate NoDoubled(s: string, c: char) {
    forall i :: 0 <= i < |s| - 1 ==> !(s[i] == c && s[i + 1] == c)
  }

  /** Squeezing keeps a property that every character and `rep` have. */
  lemma {:induction false} SqueezeRunsKeeps(s: string, p: char -> bool, rep: char, inRun: bool, q: char -> bool)
    requires q(rep) && forall i :: 0 <= i < |s| ==> q(s[i]) || p(s[i])
    ensures AllChars(SqueezeRuns(s, p, rep, inRun), q)
  {
    if s != [] {
      SqueezeRunsKeeps(s[1..], p, rep, p(s[0]), q);
    }
  }

  /** After squeezing, `rep` never appears twice in a row when it is itself a `p`
      character, and a squeeze that starts inside a run does not start with `rep`. */
  lemma {:induction false} SqueezeRunsSingle(s: string, p: char -> bool, rep: char, inRun: bool)
    requires p(rep)
    ensures inRun ==> SqueezeRuns(s, p, rep, inRun) == [] || SqueezeRuns(s, p, rep, inRun)[0] != rep
    ensures NoDoubled(SqueezeRuns(s, p, rep, inRun), rep)
  {
    if s != [] {
      SqueezeRunsSingle(s[1..], p, rep, p(s[0]));
    }
  }

  /** A string with no `p` character has no run to squeeze. */
  lemma {:induction false} SqueezeRunsNoop(s: string, p: char -> bool, rep: char, inRun: bool)
    requires forall i :: 0 <= i < |s| ==> !p(s[i])
    ensures SqueezeRuns(s, p, rep, inRun) == s
  {
    if s != [] {
      SqueezeRunsNoop(s[1..], p, rep, false);
    }
  }

  /** A string whose `p` characters are all `rep` and never adjacent is left alone,
      provided it does not continue a run. */
  lemma {:induction false} SqueezeRunsSingles(s: string, p: char -> bool, rep: char, inRun: bool)
    requires forall i :: 0 <= i < |s| ==> p(s[i]) ==> s[i] == rep
    requires forall i :: 0 <= i < |s| - 1 ==> !(p(s[i]) && p(s[i + 1]))
    requires inRun ==> s == [] || !p(s[0])
    ensures SqueezeRuns(s, p, rep, inRun) == s
  {
    if s != [] {
      SqueezeRunsSingles(s[1..], p, rep, p(s[0]));
    }
  }
}
