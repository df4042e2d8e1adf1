/** Shared vocabulary of the model: optional values, results, and the handful of
    Python string operations (`str.strip`, `str.lower`, `in`, `"sep".join`,
    slicing) that every core file leans on. */
module Common {

  datatype Option<+T> = None | Some(value: T)

  datatype Result<+T, +E> = Ok(value: T) | Err(error: E)

  /** Python's `str.isspace()`, which is also what `\s` and a bare `strip()` use on `str`. */
  predicate IsSpace(c: char) {
    || c == ' '
    || ('\t' <= c <= '\r')
    || ('\U{1c}' <= c <= '\U{1f}')
    || c == '\U{85}' || c == '\U{a0}' || c == '\U{1680}'
    || ('\U{2000}' <= c <= '\U{200a}')
    || c == '\U{2028}' || c == '\U{2029}' || c == '\U{202f}' || c == '\U{205f}' || c == '\U{3000}'
  }

  predicate IsAsciiLower(c: char) { 'a' <= c <= 'z' }
  predicate IsAsciiDigit(c: char) { '0' <= c <= '9' }

  /** `str.lower()` restricted to ASCII letters; every other character is kept. */
  function LowerChar(c: char): (r: char)
    ensures 'A' <= c <= 'Z' ==> IsAsciiLower(r)
    ensures !('A' <= c <= 'Z') ==> r == c
  {
    if 'A' <= c <= 'Z' then (c as int - 'A' as int + 'a' as int) as char else c
  }

  function Lower(s: string): (r: string)
    ensures |r| == |s|
    ensures forall i :: 0 <= i < |s| ==> r[i] == LowerChar(s[i])
  {
    if s == [] then [] else [LowerChar(s[0])] + Lower(s[1..])
  }

  lemma LowerAppend(a: string, b: string)
    ensures Lower(a + b) == Lower(a) + Lower(b)
  {
  }

  predicate StartsWith(s: string, prefix: string) {
    |prefix| <= |s| && s[..|prefix|] == prefix
  }

  /** The occurrence relation behind Python's `needle in hay`. */
  ghost predicate OccursAt(hay: string, needle: string, k: int) {
    0 <= k && k + |needle| <= |hay| && hay[k..k + |needle|] == needle
  }

  /** Python's `needle in hay` for strings. */
  predicate Contains(hay: string, needle: string)
    decreases |hay|
  {
    StartsWith(hay, needle) || (hay != [] && Contains(hay[1..], needle))
  }

  lemma {:induction false} ContainsIff(hay: string, needle: string)
    ensures Contains(hay, needle) <==> exists k :: OccursAt(hay, needle, k)
    decreases |hay|
  {
    if StartsWith(hay, needle) {
      assert OccursAt(hay, needle, 0);
    } else if hay != [] {
      ContainsIff(hay[1..], needle);
      forall k | OccursAt(hay, needle, k)
        ensures OccursAt(hay[1..], needle, k - 1)
      {
        assert hay[1..][k - 1..k - 1 + |needle|] == hay[k..k + |needle|];
      }
      forall k | OccursAt(hay[1..], needle, k)
        ensures OccursAt(hay, needle, k + 1)
      {
        assert hay[k + 1..k + 1 + |needle|] == hay[1..][k..k + |needle|];
      }
    }
  }

  /** Every string contains the empty string (Python: `"" in s` is true). */
  lemma ContainsEmpty(hay: string)
    ensures Contains(hay, "")
  {
  }

  /** A string contains any of its slices. */
  lemma ContainsSlice(hay: string, k: int, n: int)
    requires 0 <= k <= k + n <= |hay|
    ensures Contains(hay, hay[k..k + n])
  {
    ContainsIff(hay, hay[k..k + n]);
    assert OccursAt(hay, hay[k..k + n], k);
  }

  predicate IsSlash(c: char) { c == '/' }

  /** `s.lstrip(chars)`: drops the leading characters that satisfy `p`. */
  function TrimStart(s: string, p: char -> bool): (r: string)
    ensures |r| <= |s| && r == s[|s| - |r|..]
    ensures r == [] || !p(r[0])
    ensures forall i :: 0 <= i < |s| - |r| ==> p(s[i])
  {
    if s != [] && p(s[0]) then
      var r := TrimStart(s[1..], p);
      assert s[1..][|s[1..]| - |r|..] == s[|s| - |r|..];
      r
    else s
  }

  /** `s.rstrip(chars)`: drops the trailing characters that satisfy `p`. */
  function TrimEnd(s: string, p: char -> bool): (r: string)
    ensures |r| <= |s| && r == s[..|r|]
    ensures r == [] || !p(r[|r| - 1])
    ensures forall i :: |r| <= i < |s| ==> p(s[i])
  {
    if s != [] && p(s[|s| - 1]) then TrimEnd(s[..|s| - 1], p) else s
  }

  /** `s.strip(chars)`. */
  function Strip(s: string, p: char -> bool): string {
    TrimEnd(TrimStart(s, p), p)
  }

  /** Every character of `s` satisfies `q`. */
  predicate AllChars(s: string, q: char -> bool) {
    forall i :: 0 <= i < |s| ==> q(s[i])
  }

  /** `s` is `r` with characters satisfying `p` only before position `i` and
      after `r`. */
  predicate Framed(s: string, r: string, i: nat, p: char -> bool) {
    i + |r| <= |s| && s[i..i + |r|] == r
    && AllChars(s[..i], p) && AllChars(s[i + |r|..], p)
  }

  /** Stripping removes characters satisfying `p` at the two ends and nothing else. */
  lemma StripFramed(s: string, p: char -> bool)
    ensures exists i :: Framed(s, Strip(s, p), i, p)
  {
    var front := TrimStart(s, p);
    var r := TrimEnd(front, p);
    assert r == Strip(s, p);
    var i: nat := |s| - |front|;
    assert front == s[i..];
    assert r == front[..|r|];
    assert s[i..i + |r|] == s[i..][..|r|];
    var head, tail := s[..i], s[i + |r|..];
    assert tail == front[|r|..];
    forall j | 0 <= j < |head| ensures p(head[j]) {
      assert head[j] == s[j];
    }
    forall j | 0 <= j < |tail| ensures p(tail[j]) {
      assert tail[j] == front[|r| + j];
    }
    assert Framed(s, r, i, p);
  }

  /** Stripping keeps a property that every character has. */
  lemma StripKeeps(s: string, p: char -> bool, q: char -> bool)
    requires AllChars(s, q)
    ensures AllChars(Strip(s, p), q)
  {
    var front := TrimStart(s, p);
    forall i | 0 <= i < |front| ensures q(front[i]) {
      assert front[i] == s[|s| - |front| + i];
    }
    var t := TrimEnd(front, p);
    forall i | 0 <= i < |t| ensures q(t[i]) {
      assert t[i] == front[i];
    }
  }

  /** A string that neither starts nor ends with a `p` character is its own strip. */
  lemma StripNoop(s: string, p: char -> bool)
    requires s == [] || (!p(s[0]) && !p(s[|s| - 1]))
    ensures Strip(s, p) == s
  {
  }

  /** Stripping a string made only of `p` characters leaves nothing. */
  lemma {:induction false} StripAll(s: string, p: char -> bool)
    requires forall i :: 0 <= i < |s| ==> p(s[i])
    ensures Strip(s, p) == []
  {
    if s != [] {
      StripAll(s[1..], p);
    }
  }

  /** `sep.join(parts)`. */
  function Join(sep: string, parts: seq<string>): (r: string)
    ensures parts == [] ==> r == []
    ensures |parts| == 1 ==> r == parts[0]
  {
    if parts == [] then []
    else if |parts| == 1 then parts[0]
    else parts[0] + sep + Join(sep, parts[1..])
  }

  function JoinLines(parts: seq<string>): string {
    Join("\n", parts)
  }

  /** Joining then appending one more part is the same as joining the longer list. */
  lemma {:induction false} JoinSnoc(sep: string, parts: seq<string>, x: string)
    requires parts != []
    ensures Join(sep, parts + [x]) == Join(sep, parts) + sep + x
  {
    if |parts| == 1 {
      assert parts + [x] == [parts[0], x];
    } else {
      assert (parts + [x])[1..] == parts[1..] + [x];
      JoinSnoc(sep, parts[1..], x);
    }
  }

  /** Joining two non-empty lists is joining each and putting one separator between. */
  lemma {:induction false} JoinAppend(sep: string, a: seq<string>, b: seq<string>)
    requires a != [] && b != []
    ensures Join(sep, a + b) == Join(sep, a) + sep + Join(sep, b)
  {
    if |a| == 1 {
      assert (a + b)[1..] == b;
    } else {
      assert (a + b)[1..] == a[1..] + b;
      JoinAppend(sep, a[1..], b);
    }
  }

  /** A join of a longer list starts with the join of its first parts. */
  lemma JoinPrefix(sep: string, a: seq<string>, b: seq<string>)
    requires a != []
    ensures StartsWith(Join(sep, a + b), Join(sep, a))
  {
    if b == [] {
      assert a + b == a;
    } else {
      JoinAppend(sep, a, b);
    }
  }

  /** The same for a join of four lists of parts. */
  lemma JoinPrefixOfParts(sep: string, a: seq<string>, b: seq<string>, c: seq<string>, d: seq<string>)
    requires a != []
    ensures StartsWith(Join(sep, a + b + c + d), Join(sep, a))
  {
    assert a + b + c + d == a + (b + c + d);
    JoinPrefix(sep, a, b + c + d);
  }

  /** `c * n`. */
  function Repeat(c: char, n: nat): (r: string)
    ensures |r| == n && forall i :: 0 <= i < n ==> r[i] == c
  {
    if n == 0 then [] else [c] + Repeat(c, n - 1)
  }

  /** Python slicing `s[:n]`: at most the first `n` elements. */
  function Take<T>(s: seq<T>, n: nat): (r: seq<T>)
    ensures |r| <= n && |r| <= |s|
    ensures |s| <= n ==> r == s
    ensures n <= |s| ==> |r| == n
    ensures forall i :: 0 <= i < |r| ==> r[i] == s[i]
  {
    if |s| <= n then s else s[..n]
  }

  function DigitChar(d: nat): (c: char)
    requires d < 10
    ensures IsAsciiDigit(c)
  {
    ('0' as int + d) as char
  }

  /** `str(n)` for a natural number: its decimal digits, no leading zero. */
  function NatToString(n: nat): (r: string)
    ensures r != []
    ensures forall i :: 0 <= i < |r| ==> IsAsciiDigit(r[i])
    ensures |r| > 1 ==> r[0] != '0'
    decreases n
  {
    if n < 10 then [DigitChar(n)] else NatToString(n / 10) + [DigitChar(n % 10)]
  }

  /** `str(i)` for any integer. */
  function IntToString(i: int): (r: string)
    ensures r != []
    ensures i < 0 <==> r[0] == '-'
  {
    if i < 0 then "-" + NatToString(-i) else NatToString(i)
  }

  /** The value of a string of decimal digits, most significant first. */
  function DigitsValue(s: string): nat
    requires forall i :: 0 <= i < |s| ==> IsAsciiDigit(s[i])
  {
    if s == [] then 0 else DigitsValue(s[..|s| - 1]) * 10 + DigitValue(s[|s| - 1])
  }

  function DigitValue(c: char): nat
    requires IsAsciiDigit(c)
  {
    c as int - '0' as int
  }

  /** Reading back what `NatToString` wrote gives the number. */
  lemma {:induction false} NatToStringRoundTrip(n: nat)
    ensures DigitsValue(NatToString(n)) == n
    decreases n
  {
    if n >= 10 {
      var s := NatToString(n);
      assert s[..|s| - 1] == NatToString(n / 10);
      NatToStringRoundTrip(n / 10);
    }
  }

  /** `int(s)` on the plain forms: an optional sign followed by ASCII digits. */
  function ParseInt(s: string): (r: Option<int>)
    ensures s == [] ==> r == None
  {
    if s == [] then None
    else if s[0] == '-' || s[0] == '+' then
      (if |s| > 1 && forall i :: 1 <= i < |s| ==> IsAsciiDigit(s[i])
       then (var v: int := DigitsValue(s[1..]); Some(if s[0] == '-' then -v else v))
       else None)
    else if forall i :: 0 <= i < |s| ==> IsAsciiDigit(s[i]) then Some(DigitsValue(s))
    else None
  }

  /** `int(str(i)) == i`. */
  lemma IntToStringRoundTrip(i: int)
    ensures ParseInt(IntToString(i)) == Some(i)
  {
    var s := IntToString(i);
    if i < 0 {
      var digits := NatToString(-i);
      NatToStringRoundTrip(-i);
      assert s == "-" + digits && s[1..] == digits;
      assert |s| > 1 && forall k :: 1 <= k < |s| ==> IsAsciiDigit(s[k]);
    } else {
      NatToStringRoundTrip(i);
      assert IsAsciiDigit(s[0]);
      assert forall k :: 0 <= k < |s| ==> IsAsciiDigit(s[k]);
    }
  }

  /** `a` is an order-preserving subsequence of `b`. */
  predicate IsSubsequence<T(==)>(a: seq<T>, b: seq<T>)
    decreases |b|
  {
    if a == [] then true
    else if b == [] then false
    else if a[0] == b[0] then IsSubsequence(a[1..], b[1..])
    else IsSubsequence(a, b[1..])
  }

  /** Keeping only the elements that satisfy `keep`. */
  function Filter<T>(keep: T -> bool, xs: seq<T>): (r: seq<T>)
    ensures |r| <= |xs|
    ensures forall i :: 0 <= i < |r| ==> keep(r[i])
  {
    if xs == [] then []
    else if keep(xs[0]) then [xs[0]] + Filter(keep, xs[1..])
    else Filter(keep, xs[1..])
  }

  lemma {:induction false} FilterIsSubsequence<T>(keep: T -> bool, xs: seq<T>)
    ensures IsSubsequence(Filter(keep, xs), xs)
  {
    if xs != [] {
      FilterIsSubsequence(keep, xs[1..]);
    }
  }

  /** Filtering with a predicate that holds everywhere keeps everything, in order. */
  lemma {:induction false} FilterAll<T>(keep: T -> bool, xs: seq<T>)
    requires forall i :: 0 <= i < |xs| ==> keep(xs[i])
    ensures Filter(keep, xs) == xs
  {
    if xs != [] {
      FilterAll(keep, xs[1..]);
    }
  }

  /** An element is kept exactly when it is in the input and satisfies `keep`. */
  lemma {:induction false} FilterMembership<T>(keep: T -> bool, xs: seq<T>, x: T)
    ensures x in Filter(keep, xs) <==> x in xs && keep(x)
  {
    if xs != [] {
      FilterMembership(keep, xs[1..], x);
    }
  }

  /** Keeping only the elements that satisfy `keep` distributes over appending one element. */
  lemma {:induction false} FilterSnoc<T>(keep: T -> bool, xs: seq<T>, x: T)
    ensures Filter(keep, xs + [x]) == Filter(keep, xs) + (if keep(x) then [x] else [])
  {
    if xs == [] {
      assert xs + [x] == [x];
    } else {
      assert (xs + [x])[1..] == xs[1..] + [x];
      FilterSnoc(keep, xs[1..], x);
    }
  }

  /** `[f(x) for x in xs]`. */
  function MapSeq<A, B>(f: A -> B, xs: seq<A>): (r: seq<B>)
    ensures |r| == |xs|
    ensures forall i :: 0 <= i < |xs| ==> r[i] == f(xs[i])
  {
    if xs == [] then [] else [f(xs[0])] + MapSeq(f, xs[1..])
  }

  lemma MapSeqSnoc<A, B>(f: A -> B, xs: seq<A>, x: A)
    ensures MapSeq(f, xs + [x]) == MapSeq(f, xs) + [f(x)]
  {
    var l := MapSeq(f, xs + [x]);
    var r := MapSeq(f, xs) + [f(x)];
    assert |l| == |r|;
    forall i | 0 <= i < |l| ensures l[i] == r[i] {
      if i < |xs| {
        assert (xs + [x])[i] == xs[i];
      }
    }
  }

  /** The names whose value is empty, in the order given: the
      `[name for name, value in pairs if not value]` of a settings check. */
  function MissingNames(names: seq<string>, values: seq<string>): (r: seq<string>)
    requires |names| == |values|
    ensures |r| <= |names| && forall x :: x in r ==> x in names
    ensures r == [] <==> forall i :: 0 <= i < |values| ==> values[i] != []
  {
    if names == [] then []
    else if values[0] == [] then [names[0]] + MissingNames(names[1..], values[1..])
    else MissingNames(names[1..], values[1..])
  }

  /** With distinct names, a name is reported exactly when its value is empty. */
  lemma {:induction false} MissingNamesExact(names: seq<string>, values: seq<string>, k: nat)
    requires |names| == |values| && k < |names|
    requires forall i, j :: 0 <= i < j < |names| ==> names[i] != names[j]
    ensures names[k] in MissingNames(names, values) <==> values[k] == []
  {
    if k == 0 {
      MissingNamesAbsent(names[1..], values[1..], names[0]);
    } else {
      MissingNamesExact(names[1..], values[1..], k - 1);
    }
  }

  /** A name that is not among `names` is never reported. */
  lemma {:induction false} MissingNamesAbsent(names: seq<string>, values: seq<string>, x: string)
    requires |names| == |values| && x !in names
    ensures x !in MissingNames(names, values)
  {
    if names != [] {
      MissingNamesAbsent(names[1..], values[1..], x);
    }
  }
}
