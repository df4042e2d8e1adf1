/** `src/publishers/x.py`: posting to X. The weighted length that X counts
    against its 280 limit, the text check, the two-attempt request loop with its
    mapping of responses to failures, and single and threaded posting. Each
    request's outcome is an input; OAuth signing and pacing are outside the model. */
module XPublisher {
  import opened Common
  import opened Scan
  import opened Json
  import opened Models

  const MaxTweetLength: nat := 280

  /** The fixed length of a `t.co` short link. */
  const UrlWeight: nat := 23

  /** The code-point intervals X counts twice: Hangul Jamo, CJK radicals to
      unified ideographs, Hangul syllables, CJK compatibility ideographs and forms,
      half- and full-width forms, CJK symbols, Hiragana, Katakana, emoji, and the
      CJK extensions. */
  const WeightedRanges: seq<(int, int)> := [
    (0x1100, 0x11FF), (0x2E80, 0x9FFF), (0xAC00, 0xD7FF), (0xF900, 0xFAFF),
    (0xFE30, 0xFE4F), (0xFF00, 0xFFEF), (0x3000, 0x303F), (0x3040, 0x309F),
    (0x30A0, 0x30FF), (0x1F000, 0x1FFFF), (0x20000, 0x2FA1F)]

  // ---------------------------------------------------------------------------
  // Weighted length
  // ---------------------------------------------------------------------------

  /** `any(lo <= cp <= hi for lo, hi in ranges)`. */
  predicate InAnyRange(cp: int, ranges: seq<(int, int)>) {
    ranges != [] && (ranges[0].0 <= cp <= ranges[0].1 || InAnyRange(cp, ranges[1..]))
  }

  lemma {:induction false} InAnyRangeIff(cp: int, ranges: seq<(int, int)>)
    ensures InAnyRange(cp, ranges) <==> exists k :: 0 <= k < |ranges| && ranges[k].0 <= cp <= ranges[k].1
  {
    if ranges != [] {
      InAnyRangeIff(cp, ranges[1..]);
      if !(ranges[0].0 <= cp <= ranges[0].1) {
        forall k | 0 <= k < |ranges| && ranges[k].0 <= cp <= ranges[k].1
          ensures 0 <= k - 1 < |ranges[1..]| && ranges[1..][k - 1].0 <= cp <= ranges[1..][k - 1].1
        {
        }
      }
    }
  }

  /** A character outside a URL counts 2 when its code point is in a weighted
      interval and 1 otherwise. */
  function CharWeight(c: char): (w: nat)
    ensures w == 1 || w == 2
  {
    if InAnyRange(c as int, WeightedRanges) then 2 else 1
  }

  predicate NotSpace(c: char) { !IsSpace(c) }

  /** `https?://\S+` at the start of `s`, replaced by nothing. The optional `s`
      cannot give way to a shorter match, so the scheme is fixed by the text. */
  function UrlMatch(s: string): (r: Option<Hit>)
    ensures r.Some? ==> 8 <= r.value.len <= |s| && r.value.replacement == ""
  {
    var scheme := if StartsWith(s, "https://") then 8 else if StartsWith(s, "http://") then 7 else 0;
    if scheme == 0 then None
    else
      var end := RunEnd(s, NotSpace, scheme);
      if end == scheme then None else Some(Hit(end, ""))
  }

  /** The summed weights of characters with no URL handling, added up from the
      left as the loop of `weighted_length` does. */
  function SumWeights(s: string): nat {
    if s == [] then 0 else SumWeights(s[..|s| - 1]) + CharWeight(s[|s| - 1])
  }

  lemma {:induction false} SumWeightsAppend(a: string, b: string)
    ensures SumWeights(a + b) == SumWeights(a) + SumWeights(b)
    decreases |b|
  {
    if b != [] {
      assert (a + b)[..|a + b| - 1] == a + b[..|b| - 1];
      SumWeightsAppend(a, b[..|b| - 1]);
    } else {
      assert a + b == a;
    }
  }

  /** X's weighted length, read in one pass from the left: a URL match counts
      `UrlWeight` and the scan resumes after it; any other character counts its
      own weight. */
  function Weight(s: string): nat
    decreases |s|
  {
    if s == [] then 0
    else if Hits(UrlMatch, s) then UrlWeight + Weight(s[UrlMatch(s).value.len..])
    else CharWeight(s[0]) + Weight(s[1..])
  }

  /** `weighted_length` as written: the weights of the text with URLs removed plus
      `UrlWeight` per URL found is the one-pass weight. */
  lemma {:induction false} WeightSplits(s: string)
    ensures Weight(s) == SumWeights(ReSub(s, UrlMatch)) + UrlWeight * CountMatches(s, UrlMatch)
    decreases |s|
  {
    if s != [] {
      if Hits(UrlMatch, s) {
        var rest := s[UrlMatch(s).value.len..];
        WeightSplits(rest);
        assert ReSub(s, UrlMatch) == "" + ReSub(rest, UrlMatch);
        assert "" + ReSub(rest, UrlMatch) == ReSub(rest, UrlMatch);
      } else {
        WeightSplits(s[1..]);
        SumWeightsAppend([s[0]], ReSub(s[1..], UrlMatch));
        assert [s[0]][..0] == [];
      }
    }
  }

  /** `weighted_length`: URLs are counted and removed, then the remaining
      characters are weighed one by one. */
  method WeightedLength(text: string) returns (count: nat)
    ensures count == Weight(text)
  {
    var urls := CountMatches(text, UrlMatch);
    var textNoUrl := ReSub(text, UrlMatch);
    count := 0;
    var i := 0;
    while i < |textNoUrl|
      invariant 0 <= i <= |textNoUrl|
      invariant count == SumWeights(textNoUrl[..i])
    {
      assert textNoUrl[..i + 1][..i] == textNoUrl[..i];
      count := count + CharWeight(textNoUrl[i]);
      i := i + 1;
    }
    assert textNoUrl[..i] == textNoUrl;
    count := count + urls * UrlWeight;
    WeightSplits(text);
  }

  /** A URL match needs a `:`; text without one is weighed character by character. */
  lemma {:induction false} WeightWithoutColon(s: string)
    requires forall i :: 0 <= i < |s| ==> s[i] != ':'
    ensures Weight(s) == SumWeights(s)
    decreases |s|
  {
    if s != [] {
      assert !Hits(UrlMatch, s) by {
        assert |s| >= 5 ==> s[4] != ':';
        assert |s| >= 6 ==> s[5] != ':';
      }
      WeightWithoutColon(s[1..]);
      SumWeightsAppend([s[0]], s[1..]);
      assert [s[0]][..0] == [];
      assert [s[0]] + s[1..] == s;
    }
  }

  lemma {:induction false} SumWeightsRepeat(c: char, n: nat)
    ensures SumWeights(Repeat(c, n)) == n * CharWeight(c)
  {
    if n > 0 {
      SumWeightsRepeat(c, n - 1);
      SumWeightsAppend([c], Repeat(c, n - 1));
      assert [c][..0] == [];
    }
  }

  /** `c * n` for a character that is not `:` weighs `n` times the character. */
  lemma RepeatWeight(c: char, n: nat)
    requires c != ':'
    ensures Weight(Repeat(c, n)) == n * CharWeight(c)
  {
    WeightWithoutColon(Repeat(c, n));
    SumWeightsRepeat(c, n);
  }

  lemma AsciiLetterWeighsOne(c: char)
    requires 'a' <= c <= 'z' || 'A' <= c <= 'Z'
    ensures CharWeight(c) == 1
  {
    InAnyRangeIff(c as int, WeightedRanges);
    forall k | 0 <= k < |WeightedRanges| ensures WeightedRanges[k].0 > c as int {
    }
  }

  lemma HiraganaWeighsTwo(c: char)
    requires '぀' <= c <= 'ゟ'
    ensures CharWeight(c) == 2
  {
    assert WeightedRanges[7] == (0x3040, 0x309F);
    InAnyRangeIff(c as int, WeightedRanges);
  }

  /** Where the parts of `scheme + body + rest` sit. */
  lemma UrlShape(scheme: string, body: string, rest: string)
    requires scheme == "http://" || scheme == "https://"
    requires AllChars(body, NotSpace)
    requires rest == [] || IsSpace(rest[0])
    ensures var s := scheme + body + rest;
      && StartsWith(s, scheme)
      && (scheme == "http://" ==> !StartsWith(s, "https://"))
      && (forall j :: |scheme| <= j < |scheme| + |body| ==> NotSpace(s[j]))
      && (|scheme| + |body| == |s| || !NotSpace(s[|scheme| + |body|]))
      && s[|scheme| + |body|..] == rest
  {
    var s := scheme + body + rest;
    var n := |scheme| + |body|;
    assert s[..|scheme|] == scheme;
    assert s[4] == scheme[4];
    forall j | |scheme| <= j < n ensures NotSpace(s[j]) {
      assert s[j] == body[j - |scheme|];
    }
    assert rest != [] ==> s[n] == rest[0];
    assert s[n..] == rest;
  }

  /** A URL counts `UrlWeight` whatever its length: `scheme + body` ending at a
      space or at the end of the text weighs exactly 23. */
  lemma UrlWeighsConstant(scheme: string, body: string, rest: string)
    requires scheme == "http://" || scheme == "https://"
    requires body != [] && AllChars(body, NotSpace)
    requires rest == [] || IsSpace(rest[0])
    ensures Weight(scheme + body + rest) == UrlWeight + Weight(rest)
  {
    var s := scheme + body + rest;
    UrlShape(scheme, body, rest);
    RunEndIs(s, NotSpace, |scheme|, |scheme| + |body|);
  }

  // ---------------------------------------------------------------------------
  // Failures
  // ---------------------------------------------------------------------------

  /** Why posting stopped: the two `ValueError`s of the text check, the
      `XPublishError`s of the request loop, and the `AttributeError` Python raises
      when a body that is not a JSON object is read as one. */
  datatype XFailure =
    | EmptyText
    | TooLong(weighted: nat, over: nat)
    | AuthFailed(status: int, responseText: string)
    | CreditsDepleted
    | RateLimited
    | ServerError(status: int)
    | Rejected(status: int, message: string)
    | ParseFailed
    | TransportFailed(detail: string)
    | NotAnObject

  const DefaultFailureMessage: string := "投稿に失敗しました"

  /** `validate_text`: the empty text first, then the 280 ceiling with the overflow. */
  function ValidateText(text: string): (r: Option<XFailure>)
    ensures r.None? <==> text != [] && Weight(text) <= MaxTweetLength
    ensures r == Some(EmptyText) <==> text == []
    ensures r.Some? && text != [] ==>
      r.value.TooLong? && r.value.weighted == Weight(text) && r.value.over == Weight(text) - MaxTweetLength > 0
  {
    if text == [] then Some(EmptyText)
    else
      var wlen := Weight(text);
      if wlen > MaxTweetLength then Some(TooLong(wlen, wlen - MaxTweetLength)) else None
  }

  /** 280 ASCII letters fit; 281 are one over. */
  lemma AsciiLimit(c: char)
    requires 'a' <= c <= 'z'
    ensures ValidateText(Repeat(c, 280)) == None
    ensures ValidateText(Repeat(c, 281)) == Some(TooLong(281, 1))
  {
    AsciiLetterWeighsOne(c);
    RepeatWeight(c, 280);
    RepeatWeight(c, 281);
  }

  /** Hiragana counts double: 140 fit, 141 are two over, and 280 weigh 560. */
  lemma HiraganaLimit(c: char)
    requires '぀' <= c <= 'ゟ'
    ensures ValidateText(Repeat(c, 140)) == None
    ensures ValidateText(Repeat(c, 141)) == Some(TooLong(282, 2))
    ensures ValidateText(Repeat(c, 280)) == Some(TooLong(560, 280))
  {
    HiraganaWeighsTwo(c);
    RepeatWeight(c, 140);
    RepeatWeight(c, 141);
    RepeatWeight(c, 280);
  }

  // ---------------------------------------------------------------------------
  // One post: two attempts at most
  // ---------------------------------------------------------------------------

  /** The JSON body of `POST /tweets`: the text, and a reply target only when
      `reply_to` is truthy. */
  datatype TweetRequest = TweetRequest(text: string, inReplyTo: Option<string>)

  function TweetPayload(text: string, replyTo: Option<string>): (r: TweetRequest)
    ensures r.text == text
    ensures r.inReplyTo.Some? <==> Truthy(replyTo)
    ensures r.inReplyTo.Some? ==> r.inReplyTo == replyTo
  {
    TweetRequest(text, if Truthy(replyTo) then replyTo else None)
  }

  /** The message of a rejected post: the body's `detail` as a string, the default
      message when the body is not JSON or has no `detail`, and no message at all
      (an `AttributeError`) when the body is JSON but not an object. */
  function RejectionMessage(body: Option<Json>): (r: Option<string>)
    ensures body.None? ==> r == Some(DefaultFailureMessage)
    ensures body.Some? && !IsDict(body.value) ==> r.None?
  {
    match body
    case None => Some(DefaultFailureMessage)
    case Some(JObj(fields)) => Some(Str(GetOr(fields, "detail", JStr(DefaultFailureMessage))))
    case Some(_) => None
  }

  /** What one attempt leads to: another attempt, or the end of the loop with the
      decoded body or a failure. */
  datatype Step = Retry | Done(result: Result<Json, XFailure>)

  /** The status mapping of one attempt, in the order the source tests it. */
  function Attempt(o: Outcome, firstAttempt: bool): Step {
    match o
    case TransportError(detail) =>
      if firstAttempt then Retry else Done(Err(TransportFailed(detail)))
    case Answer(resp) =>
      var st := resp.status;
      if st == 401 || st == 403 then Done(Err(AuthFailed(st, resp.text)))
      else if st == 402 then Done(Err(CreditsDepleted))
      else if st == 429 then Done(Err(RateLimited))
      else if st >= 500 then (if firstAttempt then Retry else Done(Err(ServerError(st))))
      else if st >= 400 then
        (match RejectionMessage(resp.body)
         case Some(m) => Done(Err(Rejected(st, m)))
         case None => Done(Err(NotAnObject)))
      else if resp.body.None? then Done(Err(ParseFailed))
      else Done(Ok(resp.body.value))
  }

  /** Only a server error or a transport error on the first attempt is retried. */
  lemma RetryOnlyAfterServerOrTransportError(o: Outcome)
    ensures Attempt(o, true) == Retry <==> o.TransportError? || o.response.status >= 500
  {
  }

  /** The second attempt always ends the loop: there is never a third. */
  lemma LastAttemptIsFinal(o: Outcome)
    ensures Attempt(o, false).Done?
  {
  }

  /** Authentication, credit, rate-limit and other client errors, and a body that
      does not parse on success, end the loop at once with the same failure on
      either attempt. */
  lemma ClientErrorsAreFinal(resp: Response)
    requires resp.status < 500
    ensures Attempt(Answer(resp), true) == Attempt(Answer(resp), false)
    ensures Attempt(Answer(resp), true).Done?
    ensures resp.status == 401 || resp.status == 403 ==>
      Attempt(Answer(resp), true) == Done(Err(AuthFailed(resp.status, resp.text)))
    ensures resp.status == 402 ==> Attempt(Answer(resp), true) == Done(Err(CreditsDepleted))
    ensures resp.status == 429 ==> Attempt(Answer(resp), true) == Done(Err(RateLimited))
  {
  }

  /** The end result of the two-attempt loop for the outcomes of the first and
      the second request. */
  function PostResult(first: Outcome, second: Outcome): Result<Json, XFailure> {
    match Attempt(first, true)
    case Done(r) => r
    case Retry => Attempt(second, false).result
  }

  /** `_post_tweet`: at most two attempts; the second only when the first was
      retried. `sent` lists the request of every attempt made. */
  method PostTweet(text: string, replyTo: Option<string>, first: Outcome, second: Outcome)
    returns (result: Result<Json, XFailure>, sent: seq<TweetRequest>)
    ensures 1 <= |sent| <= 2
    ensures forall k :: 0 <= k < |sent| ==> sent[k] == TweetPayload(text, replyTo)
    ensures |sent| == 2 <==> Attempt(first, true) == Retry
    ensures result == PostResult(first, second)
  {
    var payload := TweetPayload(text, replyTo);
    sent := [];
    var attempt := 0;
    var step := Retry;
    while attempt < 2 && step.Retry?
      invariant 0 <= attempt <= 2
      invariant |sent| == attempt
      invariant forall k :: 0 <= k < |sent| ==> sent[k] == payload
      invariant attempt == 0 ==> step.Retry?
      invariant attempt == 1 ==> step == Attempt(first, true)
      invariant attempt == 2 ==> Attempt(first, true) == Retry && step == Attempt(second, false)
      decreases 2 - attempt
    {
      var outcome := if attempt == 0 then first else second;
      sent := sent + [payload];
      step := Attempt(outcome, attempt == 0);
      attempt := attempt + 1;
    }
    result := step.result;
  }

  // ---------------------------------------------------------------------------
  // Posting an article
  // ---------------------------------------------------------------------------

  /** The text posted when none is given: the title, followed by the WordPress
      URL when there is one. */
  function DefaultText(post: BlogPost): (r: string)
    ensures Truthy(post.wordpressUrl) ==> r == post.title + " " + post.wordpressUrl.value
    ensures !Truthy(post.wordpressUrl) ==> r == post.title
  {
    if Truthy(post.wordpressUrl) then post.title + " " + post.wordpressUrl.value else post.title
  }

  function TweetText(post: BlogPost, text: Option<string>): string {
    if text.None? then DefaultText(post) else text.value
  }

  /** The id of a posted tweet: `str(data.get("data", {}).get("id", ""))`, and ""
      when `data` holds no object. The body itself must be an object. */
  function TweetId(data: Json): (r: Result<string, XFailure>)
    ensures !IsDict(data) <==> r == Err(NotAnObject)
  {
    match data
    case JObj(fields) =>
      var tweetData := GetOr(fields, "data", JObj(map[]));
      if IsDict(tweetData) then Ok(StrField(tweetData.fields, "id")) else Ok("")
    case _ => Err(NotAnObject)
  }

  function StatusUrl(id: string): (r: Option<string>)
    ensures r.Some? <==> id != []
  {
    if id != [] then Some("https://x.com/i/status/" + id) else None
  }

  /** The result of a successful post: the tweet's URL when it has an id, and
      the id as an integer when it reads as one. */
  function PublishedTweet(id: string): PublishResult {
    PublishResult(true, ParseInt(id), StatusUrl(id), None)
  }

  /** A numeric id comes back as the post id, and its status URL is built from it. */
  lemma PublishedTweetOfNumber(n: nat)
    ensures PublishedTweet(NatToString(n)).postId == Some(n)
    ensures PublishedTweet(NatToString(n)).url == Some("https://x.com/i/status/" + NatToString(n))
  {
    IntToStringRoundTrip(n);
  }

  /** An answer without an id gives a success without post id or URL. */
  lemma PublishedTweetWithoutId()
    ensures PublishedTweet("") == PublishResult(true, None, None, None)
  {
  }

  function PublishOutcome(data: Result<Json, XFailure>): Result<PublishResult, XFailure> {
    match data
    case Err(e) => Err(e)
    case Ok(d) =>
      match TweetId(d)
      case Err(e) => Err(e)
      case Ok(id) => Ok(PublishedTweet(id))
  }

  /** `publish`: the text is checked before anything is sent; then one post. */
  method Publish(post: BlogPost, text: Option<string>, first: Outcome, second: Outcome)
    returns (r: Result<PublishResult, XFailure>, sent: seq<TweetRequest>)
    ensures ValidateText(TweetText(post, text)).Some? ==>
      r == Err(ValidateText(TweetText(post, text)).value) && sent == []
    ensures ValidateText(TweetText(post, text)).None? ==>
      && 1 <= |sent| <= 2
      && (forall k :: 0 <= k < |sent| ==> sent[k] == TweetRequest(TweetText(post, text), None))
      && r == PublishOutcome(PostResult(first, second))
  {
    var t := TweetText(post, text);
    var check := ValidateText(t);
    if check.Some? {
      return Err(check.value), [];
    }
    var data;
    data, sent := PostTweet(t, None, first, second);
    r := PublishOutcome(data);
  }

  // ---------------------------------------------------------------------------
  // Posting a thread
  // ---------------------------------------------------------------------------

  /** `XPublishResult`: the first id, its URL, and every id in posting order. */
  datatype ThreadResult = ThreadResult(
    success: bool,
    tweetId: Option<string>,
    tweetUrl: Option<string>,
    threadIds: seq<string>)

  /** The failure of the first text that does not pass the check. */
  function FirstInvalid(texts: seq<string>): (r: Option<XFailure>)
    ensures r.None? <==> forall i :: 0 <= i < |texts| ==> ValidateText(texts[i]).None?
  {
    if texts == [] then None
    else if ValidateText(texts[0]).Some? then ValidateText(texts[0])
    else FirstInvalid(texts[1..])
  }

  /** The check that opens `publish_thread`: each text in turn, stopping at the
      first that fails. */
  method CheckTexts(texts: seq<string>) returns (invalid: Option<XFailure>)
    ensures invalid == FirstInvalid(texts)
  {
    var i := 0;
    while i < |texts|
      invariant 0 <= i <= |texts|
      invariant FirstInvalid(texts) == FirstInvalid(texts[i..])
    {
      assert texts[i..][1..] == texts[i + 1..];
      if ValidateText(texts[i]).Some? {
        return ValidateText(texts[i]);
      }
      i := i + 1;
    }
    return None;
  }

  /** The reply target of post `i` in a thread whose posts got `ids`. */
  function ReplyTarget(ids: seq<string>, i: nat): Option<string>
    requires i <= |ids|
  {
    if i == 0 then None else Some(ids[i - 1])
  }

  /** The id post `j` of a thread got, or the failure that stopped it, when
      `respond(j, k)` is the outcome of its attempt `k`. */
  function PostedId(respond: (nat, nat) -> Outcome, j: nat): Result<string, XFailure> {
    PublishIdOf(PostResult(respond(j, 0), respond(j, 1)))
  }

  /** The first `|ids|` posts of a thread went out as a chain: each as a reply
      to the id of the one before it, and each answered with its id. */
  predicate Chained(texts: seq<string>, respond: (nat, nat) -> Outcome, ids: seq<string>, posted: seq<TweetRequest>) {
    && |ids| == |posted| <= |texts|
    && forall j {:trigger posted[j]} :: 0 <= j < |ids| ==>
         posted[j] == TweetPayload(texts[j], ReplyTarget(ids, j)) && PostedId(respond, j) == Ok(ids[j])
  }

  /** A thread stopped at its first failed post: the posts before it went out
      as a chain, and the failed one went out as a reply to the chain's last id. */
  predicate StoppedAfterChain(texts: seq<string>, respond: (nat, nat) -> Outcome, ids: seq<string>,
                              posted: seq<TweetRequest>) {
    && |posted| == |ids| + 1 && |ids| < |texts|
    && Chained(texts, respond, ids, posted[..|ids|])
    && posted[|ids|] == TweetPayload(texts[|ids|], ReplyTarget(ids, |ids|))
    && PostedId(respond, |ids|).Err?
  }

  lemma ChainedExtend(texts: seq<string>, respond: (nat, nat) -> Outcome, ids: seq<string>,
                      posted: seq<TweetRequest>, id: string)
    requires Chained(texts, respond, ids, posted) && |ids| < |texts|
    requires PostedId(respond, |ids|) == Ok(id)
    ensures Chained(texts, respond, ids + [id], posted + [TweetPayload(texts[|ids|], ReplyTarget(ids, |ids|))])
  {
    var ids', posted' := ids + [id], posted + [TweetPayload(texts[|ids|], ReplyTarget(ids, |ids|))];
    forall j | 0 <= j < |ids'|
      ensures posted'[j] == TweetPayload(texts[j], ReplyTarget(ids', j)) && PostedId(respond, j) == Ok(ids'[j])
    {
      assert ReplyTarget(ids', j) == ReplyTarget(ids, j);
      if j < |ids| {
        assert posted'[j] == posted[j] && ids'[j] == ids[j];
      }
    }
  }

  /** `publish_thread`. Every text is checked before the first post, so one bad
      text means nothing is sent. Then post `i` goes out as a reply to the id
      post `i - 1` got; `respond(i, k)` is the outcome of attempt `k` of post `i`.
      `posted` is the request of each post made. */
  method PublishThread(texts: seq<string>, respond: (nat, nat) -> Outcome)
    returns (r: Result<ThreadResult, XFailure>, posted: seq<TweetRequest>)
    ensures FirstInvalid(texts).Some? ==> r == Err(FirstInvalid(texts).value) && posted == []
    ensures r.Ok? ==>
      && FirstInvalid(texts).None?
      && |posted| == |texts|
      && Chained(texts, respond, r.value.threadIds, posted)
      && r.value.success
      && r.value.tweetId == (if texts == [] then None else Some(r.value.threadIds[0]))
      && r.value.tweetUrl == (if texts == [] then None else StatusUrl(r.value.threadIds[0]))
    ensures r.Err? && FirstInvalid(texts).None? ==>
      && |posted| >= 1 && PostedId(respond, |posted| - 1) == Err(r.error)
      && exists ids :: StoppedAfterChain(texts, respond, ids, posted)
  {
    var invalid := CheckTexts(texts);
    if invalid.Some? {
      return Err(invalid.value), [];
    }
    var ids: seq<string> := [];
    var replyTo: Option<string> := None;
    posted := [];
    var i := 0;
    while i < |texts|
      invariant 0 <= i <= |texts| && |ids| == i
      invariant replyTo == ReplyTarget(ids, i)
      invariant Chained(texts, respond, ids, posted)
    {
      var data, sent := PostTweet(texts[i], replyTo, respond(i, 0), respond(i, 1));
      var id := PublishIdOf(data);
      if id.Err? {
        var chain := posted;
        posted := posted + [TweetPayload(texts[i], replyTo)];
        assert posted[..i] == chain;
        assert StoppedAfterChain(texts, respond, ids, posted);
        return Err(id.error), posted;
      }
      ChainedExtend(texts, respond, ids, posted, id.value);
      posted := posted + [TweetPayload(texts[i], replyTo)];
      ids := ids + [id.value];
      replyTo := Some(id.value);
      i := i + 1;
    }
    var firstId := if ids == [] then None else Some(ids[0]);
    var url := if ids == [] then None else StatusUrl(ids[0]);
    r := Ok(ThreadResult(true, firstId, url, ids));
  }

  /** The id one post produced, or the failure that stopped it. */
  function PublishIdOf(data: Result<Json, XFailure>): Result<string, XFailure> {
    match data
    case Err(e) => Err(e)
    case Ok(d) => TweetId(d)
  }

  // ---------------------------------------------------------------------------
  // Credentials
  // ---------------------------------------------------------------------------

  datatype Credentials = Credentials(apiKey: string, apiSecret: string, accessToken: string, accessTokenSecret: string)

  const CredentialNames: seq<string> := ["X_API_KEY", "X_API_SECRET", "X_ACCESS_TOKEN", "X_ACCESS_TOKEN_SECRET"]

  /** The constructor's check: each credential from its argument or from the
      environment, and one error naming every missing one, in order. */
  function Configure(apiKey: Option<string>, apiSecret: Option<string>, accessToken: Option<string>,
                     accessTokenSecret: Option<string>, env: map<string, string>): (r: Result<Credentials, seq<string>>)
    ensures var values := [ArgOrEnv(apiKey, env, CredentialNames[0]), ArgOrEnv(apiSecret, env, CredentialNames[1]),
                           ArgOrEnv(accessToken, env, CredentialNames[2]), ArgOrEnv(accessTokenSecret, env, CredentialNames[3])];
      && (r.Ok? <==> forall i :: 0 <= i < 4 ==> values[i] != [])
      && (r.Ok? ==> r.value == Credentials(values[0], values[1], values[2], values[3]))
      && (r.Err? ==> r.error == MissingNames(CredentialNames, values))
  {
    var values := [ArgOrEnv(apiKey, env, CredentialNames[0]), ArgOrEnv(apiSecret, env, CredentialNames[1]),
                   ArgOrEnv(accessToken, env, CredentialNames[2]), ArgOrEnv(accessTokenSecret, env, CredentialNames[3])];
    var missing := MissingNames(CredentialNames, values);
    if missing != [] then Err(missing)
    else Ok(Credentials(values[0], values[1], values[2], values[3]))
  }

  /** A credential is reported missing exactly when neither its argument nor the
      environment gives it a value. */
  lemma ConfigureReportsExactly(apiKey: Option<string>, apiSecret: Option<string>, accessToken: Option<string>,
                                accessTokenSecret: Option<string>, env: map<string, string>, k: nat)
    requires k < 4
    ensures var args := [apiKey, apiSecret, accessToken, accessTokenSecret];
      var r := Configure(apiKey, apiSecret, accessToken, accessTokenSecret, env);
      r.Err? ==> (CredentialNames[k] in r.error <==> ArgOrEnv(args[k], env, CredentialNames[k]) == [])
  {
    var values := [ArgOrEnv(apiKey, env, CredentialNames[0]), ArgOrEnv(apiSecret, env, CredentialNames[1]),
                   ArgOrEnv(accessToken, env, CredentialNames[2]), ArgOrEnv(accessTokenSecret, env, CredentialNames[3])];
    MissingNamesExact(CredentialNames, values, k);
  }
}
