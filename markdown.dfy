/** `src/utils/markdown.py`: the URL slug of a title and the visible-character
    count of a Markdown text. Both are fixed chains of regular-expression
    substitutions; each substitution is written out as a scanning function with
    the same left-to-right, non-overlapping matching that `re.sub` performs. */
module Markdown {
  import opened Common
  import opened Scan

  // ---------------------------------------------------------------------------
  // Slugs
  // ---------------------------------------------------------------------------

  predicate IsHyphen(c: char) { c == '-' }

  /** The characters that `re.sub(r"[^a-z0-9\s\-]", "", ...)` leaves in place. */
  predicate SlugKeeps(c: char) {
    IsAsciiLower(c) || IsAsciiDigit(c) || IsSpace(c) || c == '-'
  }

  predicate SlugChar(c: char) {
    IsAsciiLower(c) || IsAsciiDigit(c) || c == '-'
  }

  /** `generate_slug`: NFKC normalisation, lower-casing, dropping every character
      outside `[a-z0-9\s-]`, stripping, turning whitespace runs into one hyphen,
      squeezing hyphen runs, trimming hyphens, and "untitled" when nothing is left. */
  function GenerateSlug(title: string): string {
    var trimmed := Strip(SlugBody(title), IsHyphen);
    if trimmed == [] then "untitled" else trimmed
  }

  /** The steps of `generate_slug` before the final hyphen trim. */
  function SlugBody(title: string): string {
    var cleaned := Filter(SlugKeeps, Lower(title));
    var hyphenated := SqueezeRuns(Strip(cleaned, IsSpace), IsSpace, '-', false);
    SqueezeRuns(hyphenated, IsHyphen, '-', false)
  }

  predicate AllSlugChars(s: string) {
    AllChars(s, SlugChar)
  }

  predicate NoDoubleHyphen(s: string) {
    NoDoubled(s, '-')
  }

  /** The shape every slug has: non-empty, only `a-z`, `0-9` and `-`, no hyphen
      at either end and never two hyphens in a row. */
  predicate IsSlug(s: string) {
    && s != []
    && AllSlugChars(s)
    && s[0] != '-' && s[|s| - 1] != '-'
    && NoDoubleHyphen(s)
  }

  /** Both slug-shape properties survive taking a slice. */
  lemma SliceKeepsShape(s: string, lo: nat, hi: nat)
    requires lo <= hi <= |s|
    requires AllSlugChars(s) && NoDoubleHyphen(s)
    ensures AllSlugChars(s[lo..hi]) && NoDoubleHyphen(s[lo..hi])
  {
    var t := s[lo..hi];
    forall i | 0 <= i < |t| ensures SlugChar(t[i]) {
      assert t[i] == s[lo + i];
    }
    forall i | 0 <= i < |t| - 1 ensures !(t[i] == '-' && t[i + 1] == '-') {
      assert t[i] == s[lo + i] && t[i + 1] == s[lo + i + 1];
    }
  }

  /** Stripping hyphens from a string of slug characters without double hyphens
      leaves a slug or nothing. */
  lemma StripHyphensSlug(s: string)
    requires AllSlugChars(s) && NoDoubleHyphen(s)
    ensures Strip(s, IsHyphen) == [] || IsSlug(Strip(s, IsHyphen))
  {
    var front := TrimStart(s, IsHyphen);
    var i := |s| - |front|;
    SliceKeepsShape(s, i, |s|);
    assert s[i..|s|] == front;
    var t := TrimEnd(front, IsHyphen);
    assert t == Strip(s, IsHyphen);
    SliceKeepsShape(front, 0, |t|);
    assert front[0..|t|] == t;
    if t != [] {
      assert t[0] == front[0] && !IsHyphen(front[0]);
      assert !IsHyphen(t[|t| - 1]);
    }
  }

  /** The text before the final strip is made of slug characters without double hyphens. */
  lemma SqueezedShape(title: string)
    ensures AllSlugChars(SlugBody(title)) && NoDoubleHyphen(SlugBody(title))
  {
    var cleaned := Filter(SlugKeeps, Lower(title));
    var stripped := Strip(cleaned, IsSpace);
    StripKeeps(cleaned, IsSpace, SlugKeeps);
    var hyphenated := SqueezeRuns(stripped, IsSpace, '-', false);
    SqueezeRunsKeeps(stripped, IsSpace, '-', false, SlugChar);
    var squeezed := SqueezeRuns(hyphenated, IsHyphen, '-', false);
    SqueezeRunsKeeps(hyphenated, IsHyphen, '-', false, SlugChar);
    SqueezeRunsSingle(hyphenated, IsHyphen, '-', false);
  }

  lemma UntitledIsSlug()
    ensures IsSlug("untitled")
  {
    var u := "untitled";
    forall i | 0 <= i < |u| ensures SlugChar(u[i]) {
      assert IsAsciiLower(u[i]);
    }
  }

  /** Every slug `GenerateSlug` returns has the slug shape. */
  lemma GenerateSlugIsSlug(title: string)
    ensures IsSlug(GenerateSlug(title))
  {
    SqueezedShape(title);
    StripHyphensSlug(SlugBody(title));
    UntitledIsSlug();
  }

  /** A string of slug characters is unchanged by lower-casing and by the filter. */
  lemma SlugCharsSurviveCleaning(s: string)
    requires AllSlugChars(s)
    ensures Filter(SlugKeeps, Lower(s)) == s
  {
    assert Lower(s) == s;
    FilterAll(SlugKeeps, s);
  }

  /** A slug is its own slug: `generate_slug(generate_slug(t)) == generate_slug(t)`. */
  lemma SlugFixpoint(s: string)
    requires IsSlug(s)
    ensures GenerateSlug(s) == s
  {
    SlugCharsSurviveCleaning(s);
    StripNoop(s, IsSpace);
    SqueezeRunsNoop(s, IsSpace, '-', false);
    SqueezeRunsSingles(s, IsHyphen, '-', false);
    StripNoop(s, IsHyphen);
  }

  lemma GenerateSlugIdempotent(title: string)
    ensures GenerateSlug(GenerateSlug(title)) == GenerateSlug(title)
  {
    GenerateSlugIsSlug(title);
    SlugFixpoint(GenerateSlug(title));
  }

  // ---------------------------------------------------------------------------
  // The substitutions of count_characters
  // ---------------------------------------------------------------------------

  /** `\[([^\]]+)\]\([^)]+\)` after the opening position `from` (which holds `[`):
      the bracketed text and the total length, when the rest of the pattern follows.
      `minText` is 1 for links (`+`) and 0 for images (`*`). */
  function BracketThenParen(s: string, from: nat, minText: nat): (r: Option<Hit>)
    ensures r.Some? ==> from + 3 + |r.value.replacement| < r.value.len
  {
    if from >= |s| || s[from] != '[' then None
    else match Find(s, ']', from + 1)
      case None => None
      case Some(close) =>
        if close - from - 1 < minText || close + 1 >= |s| || s[close + 1] != '(' then None
        else match Find(s, ')', close + 2)
          case None => None
          case Some(end) =>
            if end == close + 2 then None
            else Some(Hit(end + 1, s[from + 1..close]))
  }

  /** `!\[([^\]]*)\]\([^)]+\)` → the alt text. */
  function ImageMatch(s: string): Option<Hit> {
    if |s| >= 2 && s[0] == '!' then BracketThenParen(s, 1, 0) else None
  }

  /** `\[([^\]]+)\]\([^)]+\)` → the link text. */
  function LinkMatch(s: string): Option<Hit> {
    BracketThenParen(s, 0, 1)
  }

  /** `\*{1,2}([^*]+)\*{1,2}` → the emphasised text. Both star groups are
      greedy; the closing group takes a second star when one follows. */
  function EmphasisMatch(s: string): Option<Hit> {
    if s == [] || s[0] != '*' then None
    else
      var open := if |s| > 1 && s[1] == '*' then 2 else 1;
      match Find(s, '*', open)
      case None => None
      case Some(star) =>
        if star == open then None
        else
          var closeLen := if star + 1 < |s| && s[star + 1] == '*' then 2 else 1;
          Some(Hit(star + closeLen, s[open..star]))
  }

  /** "```[\s\S]*?```" → nothing; the lazy body ends at the first closing fence. */
  function CodeBlockMatch(s: string): Option<Hit> {
    if !StartsWith(s, "```") then None
    else match FindSub(s, "```", 3)
      case None => None
      case Some(k) => Some(Hit(k + 3, ""))
  }

  /** "`([^`]+)`" → the code text. */
  function InlineCodeMatch(s: string): Option<Hit> {
    if s == [] || s[0] != '`' then None
    else match Find(s, '`', 1)
      case None => None
      case Some(k) => if k == 1 then None else Some(Hit(k + 1, s[1..k]))
  }

  predicate IsHash(c: char) { c == '#' }

  /** Length of a heading marker `#{1,6}\s+` at the start of `s`, or 0 when there is
      none: one to six hashes followed by at least one whitespace character, the
      whitespace taken greedily (it may run across line breaks). */
  function HeadingMarkerLen(s: string): (n: nat)
    ensures n <= |s|
    ensures n > 0 ==> s[0] == '#' && IsSpace(s[n - 1])
  {
    var hashes := RunEnd(s, IsHash, 0);
    if hashes == 0 || hashes > 6 || hashes == |s| || !IsSpace(s[hashes]) then 0
    else RunEnd(s, IsSpace, hashes)
  }

  /** `re.sub(r"^#{1,6}\s+", "", s, flags=re.MULTILINE)`. `atLineStart` says whether
      the current position follows the start of the text or a newline of the
      original text, which is where `^` matches. */
  function StripHeadings(s: string, atLineStart: bool): string
    decreases |s|
  {
    if s == [] then []
    else if atLineStart && HeadingMarkerLen(s) > 0 then
      var n := HeadingMarkerLen(s);
      StripHeadings(s[n..], s[n - 1] == '\n')
    else [s[0]] + StripHeadings(s[1..], s[0] == '\n')
  }

  /** `count_characters`: the length of the stripped text left after removing
      heading markers, unwrapping images (before links), links, emphasis,
      deleting fenced code blocks and unwrapping inline code. */
  function CountCharacters(text: string): nat {
    var noHeadings := StripHeadings(text, true);
    var noImages := ReSub(noHeadings, ImageMatch);
    var noLinks := ReSub(noImages, LinkMatch);
    var noEmphasis := ReSub(noLinks, EmphasisMatch);
    var noBlocks := ReSub(noEmphasis, CodeBlockMatch);
    var noCode := ReSub(noBlocks, InlineCodeMatch);
    |Strip(noCode, IsSpace)|
  }

  /** Heading markers are only ever removed. */
  lemma {:induction false} StripHeadingsNoLonger(s: string, atLineStart: bool)
    ensures |StripHeadings(s, atLineStart)| <= |s|
    decreases |s|
  {
    if s != [] {
      if atLineStart && HeadingMarkerLen(s) > 0 {
        var n := HeadingMarkerLen(s);
        StripHeadingsNoLonger(s[n..], s[n - 1] == '\n');
      } else {
        StripHeadingsNoLonger(s[1..], s[0] == '\n');
      }
    }
  }

  /** Every substitution of `count_characters` replaces a match by part of it. */
  lemma MatchersShrink()
    ensures Shrinking(ImageMatch) && Shrinking(LinkMatch) && Shrinking(EmphasisMatch)
    ensures Shrinking(CodeBlockMatch) && Shrinking(InlineCodeMatch)
  {
  }

  /** The count never exceeds the length of the text. */
  lemma CountCharactersBound(text: string)
    ensures CountCharacters(text) <= |text|
  {
    var noHeadings := StripHeadings(text, true);
    StripHeadingsNoLonger(text, true);
    MatchersShrink();
    var noImages := ReSub(noHeadings, ImageMatch);
    ReSubNoLonger(noHeadings, ImageMatch);
    var noLinks := ReSub(noImages, LinkMatch);
    ReSubNoLonger(noImages, LinkMatch);
    var noEmphasis := ReSub(noLinks, EmphasisMatch);
    ReSubNoLonger(noLinks, EmphasisMatch);
    var noBlocks := ReSub(noEmphasis, CodeBlockMatch);
    ReSubNoLonger(noEmphasis, CodeBlockMatch);
    ReSubNoLonger(noBlocks, InlineCodeMatch);
  }

  // ---------------------------------------------------------------------------
  // What count_characters keeps
  // ---------------------------------------------------------------------------

  /** None of the characters any of the patterns needs. */
  predicate NoMarkup(s: string) {
    forall i :: 0 <= i < |s| ==> s[i] != '#' && s[i] != '[' && s[i] != '*' && s[i] != '`'
  }

  lemma {:induction false} StripHeadingsNoop(s: string, atLineStart: bool)
    requires forall i :: 0 <= i < |s| ==> s[i] != '#'
    ensures StripHeadings(s, atLineStart) == s
  {
    if s != [] {
      StripHeadingsNoop(s[1..], s[0] == '\n');
    }
  }

  lemma NoMarkupNoHits(s: string)
    requires NoMarkup(s)
    ensures forall i :: 0 <= i < |s| ==> !Hits(ImageMatch, s[i..]) && !Hits(LinkMatch, s[i..])
    ensures forall i :: 0 <= i < |s| ==> !Hits(EmphasisMatch, s[i..]) && !Hits(InlineCodeMatch, s[i..])
    ensures forall i :: 0 <= i < |s| ==> !Hits(CodeBlockMatch, s[i..])
  {
    forall i | 0 <= i < |s|
      ensures !Hits(ImageMatch, s[i..]) && !Hits(LinkMatch, s[i..])
      ensures !Hits(EmphasisMatch, s[i..]) && !Hits(InlineCodeMatch, s[i..])
      ensures !Hits(CodeBlockMatch, s[i..])
    {
      var t := s[i..];
      assert t[0] == s[i];
      if |t| >= 2 { assert t[1] == s[i + 1]; }
    }
  }

  /** On text without markup characters the count is the length of the stripped text. */
  lemma PlainTextCount(text: string)
    requires NoMarkup(text)
    ensures CountCharacters(text) == |Strip(text, IsSpace)|
  {
    StripHeadingsNoop(text, true);
    NoMarkupNoHits(text);
    ReSubNoop(text, ImageMatch);
    ReSubNoop(text, LinkMatch);
    ReSubNoop(text, EmphasisMatch);
    ReSubNoop(text, CodeBlockMatch);
    ReSubNoop(text, InlineCodeMatch);
  }

  /** Empty or whitespace-only text counts zero characters. */
  lemma BlankTextCountsZero(text: string)
    requires forall i :: 0 <= i < |text| ==> IsSpace(text[i])
    ensures CountCharacters(text) == 0
  {
    PlainTextCount(text);
    StripAll(text, IsSpace);
  }

  /** The bracket-then-parenthesis shape found in `s` from `from` on: `[` at `from`,
      no `]` before `close`, `(` right after it, and no `)` before `end`. */
  lemma BracketThenParenAt(s: string, from: nat, close: nat, end: nat, minText: nat)
    requires from < close && close + 2 < end < |s|
    requires s[from] == '[' && s[close] == ']' && s[close + 1] == '(' && s[end] == ')'
    requires forall j :: from < j < close ==> s[j] != ']'
    requires forall j :: close + 2 <= j < end ==> s[j] != ')'
    requires minText <= close - from - 1
    ensures BracketThenParen(s, from, minText) == Some(Hit(end + 1, s[from + 1..close]))
  {
    FindIs(s, ']', from + 1, close);
    FindIs(s, ')', close + 2, end);
  }

  /** Where the parts of `pre[text](target)` sit. */
  lemma BracketShape(pre: string, text: string, target: string)
    ensures var s := pre + "[" + text + "](" + target + ")";
      var close := |pre| + 1 + |text|;
      && |s| == close + 3 + |target|
      && s[|pre|] == '[' && s[close] == ']' && s[close + 1] == '(' && s[|s| - 1] == ')'
      && (forall j :: |pre| < j < close ==> s[j] == text[j - |pre| - 1])
      && (forall j :: close + 2 <= j < |s| - 1 ==> s[j] == target[j - close - 2])
      && s[|pre| + 1..close] == text
  {
  }

  /** `pre[text](target)` matches from the bracket to the end, capturing `text`. */
  lemma BracketThenParenWhole(pre: string, text: string, target: string, minText: nat)
    requires forall i :: 0 <= i < |text| ==> text[i] != ']'
    requires target != [] && forall i :: 0 <= i < |target| ==> target[i] != ')'
    requires minText <= |text|
    ensures var s := pre + "[" + text + "](" + target + ")";
      BracketThenParen(s, |pre|, minText) == Some(Hit(|s|, text))
  {
    var s := pre + "[" + text + "](" + target + ")";
    BracketShape(pre, text, target);
    BracketThenParenAt(s, |pre|, |pre| + 1 + |text|, |s| - 1, minText);
  }

  lemma ImageMatchWhole(alt: string, src: string)
    requires forall i :: 0 <= i < |alt| ==> alt[i] != ']'
    requires src != [] && forall i :: 0 <= i < |src| ==> src[i] != ')'
    ensures var s := "![" + alt + "](" + src + ")"; ImageMatch(s) == Some(Hit(|s|, alt))
  {
    var s := "![" + alt + "](" + src + ")";
    BracketThenParenWhole("!", alt, src, 0);
    assert s == "!" + "[" + alt + "](" + src + ")";
  }

  /** An image is replaced by its alt text: `![alt](src)` → `alt`. */
  lemma ImageKeepsAlt(alt: string, src: string)
    requires forall i :: 0 <= i < |alt| ==> alt[i] != ']'
    requires src != [] && forall i :: 0 <= i < |src| ==> src[i] != ')'
    ensures ReSub("![" + alt + "](" + src + ")", ImageMatch) == alt
  {
    ImageMatchWhole(alt, src);
    ReSubWhole("![" + alt + "](" + src + ")", ImageMatch);
  }

  lemma LinkMatchWhole(text: string, href: string)
    requires text != [] && forall i :: 0 <= i < |text| ==> text[i] != ']'
    requires href != [] && forall i :: 0 <= i < |href| ==> href[i] != ')'
    ensures var s := "[" + text + "](" + href + ")"; LinkMatch(s) == Some(Hit(|s|, text))
  {
    BracketThenParenWhole("", text, href, 1);
    assert "[" + text + "](" + href + ")" == "" + "[" + text + "](" + href + ")";
  }

  /** A link is replaced by its text: `[text](href)` → `text`. */
  lemma LinkKeepsText(text: string, href: string)
    requires text != [] && forall i :: 0 <= i < |text| ==> text[i] != ']'
    requires href != [] && forall i :: 0 <= i < |href| ==> href[i] != ')'
    ensures ReSub("[" + text + "](" + href + ")", LinkMatch) == text
  {
    LinkMatchWhole(text, href);
    ReSubWhole("[" + text + "](" + href + ")", LinkMatch);
  }

  lemma EmphasisMatchWhole(t: string, marks: string)
    requires marks == "*" || marks == "**"
    requires t != [] && forall i :: 0 <= i < |t| ==> t[i] != '*'
    ensures var s := marks + t + marks; EmphasisMatch(s) == Some(Hit(|s|, t))
  {
    var s := marks + t + marks;
    var star := |marks| + |t|;
    forall j | |marks| <= j < star ensures s[j] != '*' {
      assert s[j] == t[j - |marks|];
    }
    FindIs(s, '*', |marks|, star);
    assert s[|marks|..star] == t;
  }

  /** Bold and italic markers are dropped: `**t**` → `t` and `*t*` → `t`. */
  lemma EmphasisKeepsText(t: string, marks: string)
    requires marks == "*" || marks == "**"
    requires t != [] && forall i :: 0 <= i < |t| ==> t[i] != '*'
    ensures ReSub(marks + t + marks, EmphasisMatch) == t
  {
    EmphasisMatchWhole(t, marks);
    ReSubWhole(marks + t + marks, EmphasisMatch);
  }

  lemma InlineCodeMatchWhole(code: string)
    requires code != [] && forall i :: 0 <= i < |code| ==> code[i] != '`'
    ensures var s := "`" + code + "`"; InlineCodeMatch(s) == Some(Hit(|s|, code))
  {
    var s := "`" + code + "`";
    forall j | 1 <= j < |s| - 1 ensures s[j] != '`' {
      assert s[j] == code[j - 1];
    }
    FindIs(s, '`', 1, |s| - 1);
    assert s[1..|s| - 1] == code;
  }

  /** Inline code keeps its text: "`code`" → "code". */
  lemma InlineCodeKeepsText(code: string)
    requires code != [] && forall i :: 0 <= i < |code| ==> code[i] != '`'
    ensures ReSub("`" + code + "`", InlineCodeMatch) == code
  {
    InlineCodeMatchWhole(code);
    ReSubWhole("`" + code + "`", InlineCodeMatch);
  }

  lemma CodeBlockMatchWhole(body: string)
    requires forall i :: 0 <= i < |body| ==> body[i] != '`'
    ensures var s := "```" + body + "```"; CodeBlockMatch(s) == Some(Hit(|s|, ""))
  {
    var s := "```" + body + "```";
    assert s[..3] == "```";
    assert s[|s| - 3..] == "```";
    forall j | 3 <= j < |s| - 3 ensures s[j] != '`' {
      assert s[j] == body[j - 3];
    }
    FindSubAt(s, "```", 3, |s| - 3);
  }

  /** A fenced code block disappears entirely. */
  lemma CodeBlockRemoved(body: string)
    requires forall i :: 0 <= i < |body| ==> body[i] != '`'
    ensures ReSub("```" + body + "```", CodeBlockMatch) == ""
  {
    CodeBlockMatchWhole(body);
    ReSubWhole("```" + body + "```", CodeBlockMatch);
  }

  /** The heading marker of `hashes` hashes and one space before non-blank text. */
  lemma HeadingMarkerLenOf(hashes: nat, rest: string)
    requires 1 <= hashes <= 6
    requires rest == [] || !IsSpace(rest[0])
    ensures HeadingMarkerLen(Repeat('#', hashes) + " " + rest) == hashes + 1
  {
    var s := Repeat('#', hashes) + " " + rest;
    RunEndIs(s, IsHash, 0, hashes);
    assert rest != [] ==> s[hashes + 1] == rest[0];
    RunEndIs(s, IsSpace, hashes, hashes + 1);
  }

  /** A heading marker of one to six hashes and a space at a line start is dropped. */
  lemma HeadingMarkerDropped(hashes: nat, rest: string)
    requires 1 <= hashes <= 6
    requires rest == [] || !IsSpace(rest[0])
    ensures StripHeadings(Repeat('#', hashes) + " " + rest, true) == StripHeadings(rest, false)
  {
    var s := Repeat('#', hashes) + " " + rest;
    HeadingMarkerLenOf(hashes, rest);
    assert s[hashes] == ' ';
    assert s[hashes + 1..] == rest;
  }

  /** Seven hashes are not a heading marker: the line is kept as it is. */
  lemma SevenHashesKept(rest: string)
    ensures HeadingMarkerLen(Repeat('#', 7) + " " + rest) == 0
  {
    var s := Repeat('#', 7) + " " + rest;
    RunEndIs(s, IsHash, 0, 7);
  }
}
