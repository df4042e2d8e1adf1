/** `src/publishers/wordpress.py`: posting an article through the WordPress REST
    API. The settings check, the case-insensitive resolution of category and tag
    names to ids, the create payload with its optional keys, the mapping of the
    response to a result or an error, and the excerpt follow-up. Each HTTP
    response is an input; the Basic authentication header and the Markdown to
    HTML conversion are outside the model (the HTML is a parameter). */
module WordPress {
  import opened Common
  import opened Scan
  import opened Json
  import opened Models

  // ---------------------------------------------------------------------------
  // Settings
  // ---------------------------------------------------------------------------

  const SettingNames: seq<string> := ["WORDPRESS_URL", "WORDPRESS_USER", "WORDPRESS_APP_PASSWORD"]

  datatype Settings = Settings(baseUrl: string, username: string, appPassword: string)

  /** The three settings as the constructor reads them; the base URL loses its
      trailing slashes before it is checked. */
  function SettingValues(baseUrl: Option<string>, username: Option<string>, appPassword: Option<string>,
                         env: map<string, string>): (v: seq<string>)
    ensures |v| == 3
  {
    [TrimEnd(ArgOrEnv(baseUrl, env, SettingNames[0]), IsSlash),
     ArgOrEnv(username, env, SettingNames[1]),
     ArgOrEnv(appPassword, env, SettingNames[2])]
  }

  /** The missing-settings list, one setting after the other. */
  lemma MissingSettings(url: string, user: string, password: string)
    ensures MissingNames(SettingNames, [url, user, password]) ==
      (if url == [] then ["WORDPRESS_URL"] else []) + (if user == [] then ["WORDPRESS_USER"] else [])
      + (if password == [] then ["WORDPRESS_APP_PASSWORD"] else [])
  {
    var values := [url, user, password];
    assert SettingNames[1..] == ["WORDPRESS_USER", "WORDPRESS_APP_PASSWORD"] && values[1..] == [user, password];
    assert SettingNames[2..] == ["WORDPRESS_APP_PASSWORD"] && values[2..] == [password];
    assert MissingNames(SettingNames[2..], values[2..]) == (if password == [] then ["WORDPRESS_APP_PASSWORD"] else []);
  }

  /** The constructor: one error names every missing setting, in the order URL,
      user, application password. */
  method Configure(baseUrl: Option<string>, username: Option<string>, appPassword: Option<string>,
                   env: map<string, string>)
    returns (r: Result<Settings, seq<string>>)
    ensures r.Ok? <==> forall i :: 0 <= i < 3 ==> SettingValues(baseUrl, username, appPassword, env)[i] != []
    ensures r.Ok? ==> r.value == Settings(SettingValues(baseUrl, username, appPassword, env)[0],
                                          SettingValues(baseUrl, username, appPassword, env)[1],
                                          SettingValues(baseUrl, username, appPassword, env)[2])
    ensures r.Err? ==> r.error == MissingNames(SettingNames, SettingValues(baseUrl, username, appPassword, env))
  {
    var url := TrimEnd(ArgOrEnv(baseUrl, env, SettingNames[0]), IsSlash);
    var user := ArgOrEnv(username, env, SettingNames[1]);
    var password := ArgOrEnv(appPassword, env, SettingNames[2]);
    ghost var values := SettingValues(baseUrl, username, appPassword, env);
    assert values == [url, user, password];
    MissingSettings(url, user, password);
    var missing := [];
    if url == [] {
      missing := missing + ["WORDPRESS_URL"];
    }
    if user == [] {
      missing := missing + ["WORDPRESS_USER"];
    }
    if password == [] {
      missing := missing + ["WORDPRESS_APP_PASSWORD"];
    }
    if missing != [] {
      return Err(missing);
    }
    return Ok(Settings(url, user, password));
  }

  /** A base URL given with trailing slashes is stored without them, and one made
      of slashes only counts as missing. */
  lemma ConfigureStripsSlashes(url: string)
    ensures TrimEnd(url + "/", IsSlash) == TrimEnd(url, IsSlash)
    ensures TrimEnd("///", IsSlash) == []
  {
    assert (url + "/")[..|url + "/"| - 1] == url;
    assert "///"[..2] == "//" && "//"[..1] == "/" && "/"[..0] == [];
  }

  /** The `api_base` property: the REST root under the configured site. */
  function ApiBase(s: Settings): string {
    s.baseUrl + "/wp-json/wp/v2"
  }

  // ---------------------------------------------------------------------------
  // Failures and requests
  // ---------------------------------------------------------------------------

  /** How `publish` can fail: a `WordPressPublishError` with its message and
      optional status, the `通信エラー` one raised for a transport error or for a
      listing answered with a status outside 2xx, the parse failure of a success
      body, the `AttributeError`/`TypeError` Python raises when a decoded body
      has the wrong shape, and the `ValidationError` of a `PublishResult` whose id
      or link does not validate (these last two escape `publish` unchanged). */
  datatype WpFailure =
    | Rejected(message: string, statusCode: Option<int>)
    | TransportFailed(detail: string)
    | ListingStatus(status: int)
    | ParseFailed
    | Malformed
    | Invalid

  const AuthMessage: string := "認証に失敗しました。.envのWordPress認証情報を確認してください。"
  const DefaultMessage: string := "投稿に失敗しました"

  /** The text of a `WordPressPublishError` carrying a status: the message
      followed by the status in parentheses. */
  function ErrorText(message: string, statusCode: Option<int>): string {
    if statusCode.Some? && statusCode.value != 0 then message + " (HTTP " + IntToString(statusCode.value) + ")"
    else message
  }

  /** A rejection whose body does not decode already names the status in its
      message, and the error adds it a second time. */
  lemma UndecodedRejectionText(status: int)
    requires status >= 400
    ensures ErrorText(RejectionMessage(status, None).value, Some(status))
      == DefaultMessage + " (HTTP " + IntToString(status) + ")" + " (HTTP " + IntToString(status) + ")"
  {
  }

  /** The requests `publish` makes, in order. */
  datatype WpRequest =
    | ListCategories
    | ListTags
    | CreatePost(payload: Payload)
    | UpdateExcerpt(postId: string, excerpt: string)

  /** The address each request goes to; the listings ask for 100 entries. */
  function RequestUrl(s: Settings, request: WpRequest): (url: string)
    ensures StartsWith(url, ApiBase(s) + "/")
  {
    match request
    case ListCategories => ApiBase(s) + "/categories?per_page=100"
    case ListTags => ApiBase(s) + "/tags?per_page=100"
    case CreatePost(_) => ApiBase(s) + "/posts"
    case UpdateExcerpt(postId, _) => ApiBase(s) + "/posts/" + postId
  }

  // ---------------------------------------------------------------------------
  // Name resolution
  // ---------------------------------------------------------------------------

  /** One entry of a category or tag listing. */
  type Entry = map<string, Json>

  /** `str(c.get("name", ""))`. */
  function EntryName(c: Entry): string {
    StrField(c, "name")
  }

  /** `c.get("id")` when it passes `isinstance(cid, int)`; a JSON boolean is an
      `int` in Python and passes as 0 or 1. */
  function EntryId(c: Entry): (r: Option<int>)
    ensures ("id" in c && c["id"].JInt?) ==> r == Some(c["id"].i)
    ensures "id" !in c ==> r.None?
  {
    match GetOr(c, "id", JNull)
    case JInt(i) => Some(i)
    case JBool(b) => Some(if b then 1 else 0)
    case _ => None
  }

  /** Only entries with a non-empty name and an integer id enter the index. */
  predicate Indexed(c: Entry) {
    EntryName(c) != [] && EntryId(c).Some?
  }

  /** The `name_to_id` dictionary after the loop over `entries`: keyed by the
      lowered name, and a later entry overwrites an earlier one. */
  function NameIndex(entries: seq<Entry>): map<string, int> {
    if entries == [] then map[]
    else
      var c := entries[|entries| - 1];
      var m := NameIndex(entries[..|entries| - 1]);
      if Indexed(c) then m[Lower(EntryName(c)) := EntryId(c).value] else m
  }

  /** The loop of `_resolve_categories` and `_resolve_tags` that fills `name_to_id`. */
  method BuildNameIndex(entries: seq<Entry>) returns (index: map<string, int>)
    ensures index == NameIndex(entries)
  {
    index := map[];
    var i := 0;
    while i < |entries|
      invariant 0 <= i <= |entries|
      invariant index == NameIndex(entries[..i])
    {
      assert entries[..i + 1][..i] == entries[..i];
      var c := entries[i];
      if Indexed(c) {
        index := index[Lower(EntryName(c)) := EntryId(c).value];
      }
      i := i + 1;
    }
    assert entries[..i] == entries;
  }

  /** The keys of the index are exactly the lowered names of the indexed entries. */
  lemma {:induction false} NameIndexKeys(entries: seq<Entry>, k: string)
    ensures k in NameIndex(entries) <==>
      exists i :: 0 <= i < |entries| && Indexed(entries[i]) && Lower(EntryName(entries[i])) == k
  {
    if entries != [] {
      var front := entries[..|entries| - 1];
      NameIndexKeys(front, k);
      if k in NameIndex(entries) && k !in NameIndex(front) {
        assert Indexed(entries[|entries| - 1]) && Lower(EntryName(entries[|entries| - 1])) == k;
      }
      forall i | 0 <= i < |front| ensures entries[i] == front[i] {
      }
    }
  }

  /** Among entries with the same lowered name, the last indexed one wins. */
  lemma {:induction false} NameIndexLastWins(entries: seq<Entry>, i: nat)
    requires i < |entries| && Indexed(entries[i])
    requires forall j :: i < j < |entries| && Indexed(entries[j]) ==>
      Lower(EntryName(entries[j])) != Lower(EntryName(entries[i]))
    ensures Lower(EntryName(entries[i])) in NameIndex(entries)
    ensures NameIndex(entries)[Lower(EntryName(entries[i]))] == EntryId(entries[i]).value
  {
    if i < |entries| - 1 {
      var front := entries[..|entries| - 1];
      assert front[i] == entries[i];
      forall j | i < j < |front| && Indexed(front[j])
        ensures Lower(EntryName(front[j])) != Lower(EntryName(front[i]))
      {
        assert front[j] == entries[j];
      }
      NameIndexLastWins(front, i);
    }
  }

  /** `[name_to_id[n.lower()] for n in names if n.lower() in name_to_id]`. */
  function ResolveNames(names: seq<string>, index: map<string, int>): (r: seq<int>)
    ensures |r| <= |names|
  {
    if names == [] then []
    else
      (if Lower(names[0]) in index then [index[Lower(names[0])]] else [])
      + ResolveNames(names[1..], index)
  }

  /** Resolution works name by name, so it keeps the order of the names. */
  lemma {:induction false} ResolveNamesAppend(a: seq<string>, b: seq<string>, index: map<string, int>)
    ensures ResolveNames(a + b, index) == ResolveNames(a, index) + ResolveNames(b, index)
  {
    if a == [] {
      assert a + b == b;
    } else {
      assert (a + b)[1..] == a[1..] + b;
      ResolveNamesAppend(a[1..], b, index);
    }
  }

  /** When every name is known, each resolves to its id at its own position. */
  lemma {:induction false} ResolveNamesAllKnown(names: seq<string>, index: map<string, int>)
    requires forall i :: 0 <= i < |names| ==> Lower(names[i]) in index
    ensures |ResolveNames(names, index)| == |names|
    ensures forall i :: 0 <= i < |names| ==> ResolveNames(names, index)[i] == index[Lower(names[i])]
  {
    if names != [] {
      ResolveNamesAllKnown(names[1..], index);
    }
  }

  /** Unknown names are dropped: an id is in the result exactly when some name
      lowers to a key that maps to it. */
  lemma {:induction false} ResolveNamesMembership(names: seq<string>, index: map<string, int>, id: int)
    ensures id in ResolveNames(names, index) <==>
      exists i :: 0 <= i < |names| && Lower(names[i]) in index && index[Lower(names[i])] == id
  {
    if names != [] {
      ResolveNamesMembership(names[1..], index, id);
      forall i | 1 <= i < |names| ensures names[1..][i - 1] == names[i] {
      }
    }
  }

  /** Names that differ only in the case of ASCII letters resolve alike. */
  lemma {:induction false} ResolveIgnoresCase(a: seq<string>, b: seq<string>, index: map<string, int>)
    requires |a| == |b| && forall i :: 0 <= i < |a| ==> Lower(a[i]) == Lower(b[i])
    ensures ResolveNames(a, index) == ResolveNames(b, index)
  {
    if a != [] {
      ResolveIgnoresCase(a[1..], b[1..], index);
    }
  }

  /** The entries a `for c in listing` loop visits, when each of them is a dict;
      `None` when the loop would raise (an item that is not a dict, or a value
      that is neither a list nor empty). */
  function ListingEntries(body: Json): (r: Option<seq<Entry>>)
    ensures body.JList? && (forall i :: 0 <= i < |body.items| ==> body.items[i].JObj?) ==>
      r.Some? && |r.value| == |body.items| &&
      forall i :: 0 <= i < |body.items| ==> r.value[i] == body.items[i].fields
  {
    match body
    case JList(items) =>
      if forall i :: 0 <= i < |items| ==> items[i].JObj? then
        Some(seq(|items|, i requires 0 <= i < |items| => items[i].fields))
      else None
    case JObj(fields) => if fields == map[] then Some([]) else None
    case JStr(s) => if s == [] then Some([]) else None
    case _ => None
  }

  /** `_resolve_categories` / `_resolve_tags` for a listing outcome: no lookup and
      no ids for no names; a transport error or a status outside 2xx fails
      (`raise_for_status`); an undecodable body resolves nothing. */
  function ResolveIds(names: seq<string>, listing: Outcome): (r: Result<seq<int>, WpFailure>)
    ensures names == [] ==> r == Ok([])
    ensures r.Ok? ==> |r.value| <= |names|
  {
    if names == [] then Ok([])
    else
      match listing
      case TransportError(d) => Err(TransportFailed(d))
      case Answer(resp) =>
        if !IsSuccess(resp.status) then Err(ListingStatus(resp.status))
        else if resp.body.None? then Ok([])
        else
          match ListingEntries(resp.body.value)
          case None => Err(Malformed)
          case Some(entries) => Ok(ResolveNames(names, NameIndex(entries)))
  }

  /** The resolver with its loop; `looked` tells whether the listing was fetched. */
  method Resolve(names: seq<string>, listing: Outcome) returns (r: Result<seq<int>, WpFailure>, looked: bool)
    ensures looked <==> names != []
    ensures r == ResolveIds(names, listing)
  {
    if names == [] {
      return Ok([]), false;
    }
    looked := true;
    if listing.TransportError? {
      return Err(TransportFailed(listing.detail)), looked;
    }
    var resp := listing.response;
    if !IsSuccess(resp.status) {
      return Err(ListingStatus(resp.status)), looked;
    }
    if resp.body.None? {
      return Ok([]), looked;
    }
    var entries := ListingEntries(resp.body.value);
    if entries.None? {
      return Err(Malformed), looked;
    }
    var index := BuildNameIndex(entries.value);
    r := Ok(ResolveNames(names, index));
  }

  // ---------------------------------------------------------------------------
  // Publishing
  // ---------------------------------------------------------------------------

  /** The `status` argument of `publish`. */
  datatype PostState = DraftState | PublishState

  function StateTag(s: PostState): string {
    match s
    case DraftState => "draft"
    case PublishState => "publish"
  }

  /** The create payload: title, content, status and slug always; the other keys
      only when they have a value. */
  datatype Payload = Payload(
    title: string,
    content: string,
    status: string,
    slug: string,
    excerpt: Option<string>,
    categories: Option<seq<int>>,
    tags: Option<seq<int>>)

  function CreatePayload(post: BlogPost, html: string, state: PostState,
                         categoryIds: seq<int>, tagIds: seq<int>): (p: Payload)
    ensures p.title == post.title && p.content == html && p.status == StateTag(state) && p.slug == post.slug
    ensures p.excerpt.Some? <==> Truthy(post.subtitle)
    ensures p.excerpt.Some? ==> p.excerpt == post.subtitle
    ensures p.categories.Some? <==> categoryIds != []
    ensures p.categories.Some? ==> p.categories.value == categoryIds
    ensures p.tags.Some? <==> tagIds != []
    ensures p.tags.Some? ==> p.tags.value == tagIds
  {
    Payload(post.title, html, StateTag(state), post.slug,
            if Truthy(post.subtitle) then post.subtitle else None,
            if categoryIds != [] then Some(categoryIds) else None,
            if tagIds != [] then Some(tagIds) else None)
  }

  /** The message of a rejected create: `str(body.get("message", default))`, the
      message with the status when the body does not decode, and `None` (an
      `AttributeError`) for a decoded body that is not an object. */
  function RejectionMessage(status: int, body: Option<Json>): (r: Option<string>)
    ensures body.None? ==> r == Some(DefaultMessage + " (HTTP " + IntToString(status) + ")")
    ensures body.Some? && body.value.JObj? && "message" in body.value.fields && body.value.fields["message"].JStr? ==>
      r == Some(body.value.fields["message"].s)
    ensures body.Some? && !IsDict(body.value) ==> r.None?
  {
    match body
    case None => Some(DefaultMessage + " (HTTP " + IntToString(status) + ")")
    case Some(JObj(fields)) => Some(Str(GetOr(fields, "message", JStr(DefaultMessage))))
    case Some(_) => None
  }

  /** A float's text read as an integer when it has no fractional part (`42.0`,
      `-3.00`); a fraction other than zeros gives nothing. */
  function IntegralFloat(t: string): (r: Option<int>)
    ensures r.Some? ==> exists k :: 0 < k < |t| - 1 && t[k] == '.' && ParseInt(t[..k]) == r
  {
    match Find(t, '.', 0)
    case Some(k) =>
      if k + 1 < |t| && ParseInt(t[..k]).Some? && forall j :: k < j < |t| ==> t[j] == '0'
      then ParseInt(t[..k])
      else None
    case None => None
  }

  /** `post_id` as `PublishResult` validates it (`int | None`, lax mode): `None`
      stays absent, an int is kept, a bool counts as 1 or 0, a float only without
      a fractional part, a string only when it reads as an integer; anything else
      is the `ValidationError`. */
  function PostIdOf(id: Json): (r: Result<Option<int>, WpFailure>)
    ensures r.Ok? ==> (r.value.None? <==> id.JNull?)
    ensures r.Err? ==> r.error == Invalid
    ensures id.JList? || id.JObj? ==> r.Err?
    ensures id.JInt? ==> r == Ok(Some(id.i))
    ensures id.JStr? ==> (r.Ok? <==> ParseInt(id.s).Some?)
  {
    match id
    case JNull => Ok(None)
    case JInt(i) => Ok(Some(i))
    case JBool(b) => Ok(Some(if b then 1 else 0))
    case JFloat(t) => (match IntegralFloat(t) case Some(v) => Ok(Some(v)) case None => Err(Invalid))
    case JStr(s) => (match ParseInt(s) case Some(v) => Ok(Some(v)) case None => Err(Invalid))
    case JList(_) => Err(Invalid)
    case JObj(_) => Err(Invalid)
  }

  /** The decimal text of an integer validates as that integer, and so do a
      boolean (as 1 or 0); a non-numeric string does not validate. */
  lemma PostIdFromText(i: int)
    ensures PostIdOf(JStr(IntToString(i))) == Ok(Some(i))
    ensures PostIdOf(JBool(true)) == Ok(Some(1)) && PostIdOf(JBool(false)) == Ok(Some(0))
    ensures PostIdOf(JStr("abc")) == Err(Invalid)
  {
    IntToStringRoundTrip(i);
    assert "abc"[0] == 'a';
  }

  /** An integer written as a float validates as that integer when its fraction
      is zeros only, and does not validate with a fraction of one half. */
  lemma PostIdFromFloat(i: int, zeros: nat)
    ensures PostIdOf(JFloat(IntToString(i) + "." + Repeat('0', zeros + 1))) == Ok(Some(i))
    ensures PostIdOf(JFloat(IntToString(i) + ".5")) == Err(Invalid)
  {
    var digits := IntToString(i);
    NoDotInDecimal(i);
    IntToStringRoundTrip(i);
    var whole := digits + "." + Repeat('0', zeros + 1);
    forall j | 0 <= j < |digits| ensures whole[j] != '.' {
      assert whole[j] == digits[j];
    }
    FindIs(whole, '.', 0, |digits|);
    assert whole[..|digits|] == digits;
    assert IntegralFloat(whole) == Some(i);
    var half := digits + ".5";
    forall j | 0 <= j < |digits| ensures half[j] != '.' {
      assert half[j] == digits[j];
    }
    FindIs(half, '.', 0, |digits|);
    assert half[|half| - 1] == '5';
    assert IntegralFloat(half) == None;
  }

  /** The decimal text of an integer holds no `.`. */
  lemma NoDotInDecimal(i: int)
    ensures forall j :: 0 <= j < |IntToString(i)| ==> IntToString(i)[j] != '.'
  {
    if i < 0 {
      assert IntToString(i) == "-" + NatToString(-i);
    }
  }

  /** `url` as `PublishResult` validates it (`str | None`): a string is kept and
      `None` stays absent; anything else, a number included, is the
      `ValidationError`. */
  function UrlOf(link: Json): (r: Result<Option<string>, WpFailure>)
    ensures r.Ok? <==> link.JStr? || link.JNull?
    ensures link.JStr? ==> r == Ok(Some(link.s))
    ensures link.JNull? ==> r == Ok(None)
    ensures r.Err? ==> r.error == Invalid
  {
    match link
    case JStr(s) => Ok(Some(s))
    case JNull => Ok(None)
    case _ => Err(Invalid)
  }

  /** `PublishResult(success=True, post_id=..., url=...)`: the validated id and
      link, or the `ValidationError` when either does not validate. */
  function Validated(id: Json, link: Json): (r: Result<PublishResult, WpFailure>)
    ensures r.Ok? <==> PostIdOf(id).Ok? && UrlOf(link).Ok?
    ensures r.Ok? ==> r.value == PublishResult(true, PostIdOf(id).value, UrlOf(link).value, None)
    ensures r.Err? ==> r.error == Invalid
  {
    match PostIdOf(id)
    case Err(e) => Err(e)
    case Ok(postId) =>
      match UrlOf(link)
      case Err(e) => Err(e)
      case Ok(url) => Ok(PublishResult(true, postId, url, None))
  }

  /** The excerpt of the follow-up update: the subtitle, an ellipsis, and a
      "continue reading" link to the post. */
  function ExcerptWithMore(subtitle: string, link: string): string {
    subtitle + "… " + "<a class=\"more-link\" href=\"" + link + "\">続きを読む</a>"
  }

  /** The follow-up update is sent only when the subtitle, the id and the link
      of the created post are all truthy. */
  predicate WantsFollowUp(post: BlogPost, id: Json, link: Json) {
    Truthy(post.subtitle) && IsTruthy(id) && IsTruthy(link)
  }

  /** The result of `publish` and the requests it made, in order. */
  datatype PublishRun = PublishRun(result: Result<PublishResult, WpFailure>, requests: seq<WpRequest>)

  /** What follows the create request: its answer decides the result, and on
      success the follow-up may be sent; the follow-up's own status is not
      looked at, only a transport error on it counts. The result is validated
      after the follow-up, so an id or link that does not validate fails only
      once the follow-up has been sent. */
  function AfterCreate(post: BlogPost, created: Outcome, followUp: Outcome): (r: PublishRun)
    ensures |r.requests| <= 1
    ensures r.result.Ok? ==> r.result.value.success
  {
    match created
    case TransportError(d) => PublishRun(Err(TransportFailed(d)), [])
    case Answer(resp) =>
      if resp.status == 401 then PublishRun(Err(Rejected(AuthMessage, Some(401))), [])
      else if resp.status >= 400 then
        (match RejectionMessage(resp.status, resp.body)
         case Some(m) => PublishRun(Err(Rejected(m, Some(resp.status))), [])
         case None => PublishRun(Err(Malformed), []))
      else if resp.body.None? then PublishRun(Err(ParseFailed), [])
      else if !IsDict(resp.body.value) then PublishRun(Err(Malformed), [])
      else
        var fields := resp.body.value.fields;
        var id := GetOr(fields, "id", JNull);
        var link := GetOr(fields, "link", JStr(""));
        if WantsFollowUp(post, id, link) then
          var update := UpdateExcerpt(Str(id), ExcerptWithMore(post.subtitle.value, Str(link)));
          if followUp.TransportError? then PublishRun(Err(TransportFailed(followUp.detail)), [update])
          else PublishRun(Validated(id, link), [update])
        else PublishRun(Validated(id, link), [])
  }

  /** `publish`: categories, then tags, are resolved (each only when names are
      given), then the post is created and, on success, possibly followed up.
      Every outcome and the converted HTML are inputs. */
  function Publish(post: BlogPost, state: PostState, categories: seq<string>, tags: seq<string>, html: string,
                   categoryListing: Outcome, tagListing: Outcome, created: Outcome, followUp: Outcome): (r: PublishRun)
    ensures categories != [] <==> |r.requests| > 0 && r.requests[0] == ListCategories
    ensures (ResolveIds(categories, categoryListing).Err? || ResolveIds(tags, tagListing).Err?) ==>
      r.result.Err? && forall k :: 0 <= k < |r.requests| ==> !r.requests[k].CreatePost?
  {
    var lookups := (if categories != [] then [ListCategories] else []);
    match ResolveIds(categories, categoryListing)
    case Err(e) => PublishRun(Err(e), lookups)
    case Ok(categoryIds) =>
      var lookups := lookups + (if tags != [] then [ListTags] else []);
      match ResolveIds(tags, tagListing)
      case Err(e) => PublishRun(Err(e), lookups)
      case Ok(tagIds) =>
        var create := CreatePost(CreatePayload(post, html, state, categoryIds, tagIds));
        var after := AfterCreate(post, created, followUp);
        PublishRun(after.result, lookups + [create] + after.requests)
  }

  /** A post with no category and no tag names is created at once. */
  lemma PublishWithoutNamesCreatesFirst(post: BlogPost, state: PostState, html: string,
                                        categoryListing: Outcome, tagListing: Outcome, created: Outcome, followUp: Outcome)
    ensures var r := Publish(post, state, [], [], html, categoryListing, tagListing, created, followUp);
      |r.requests| >= 1 && r.requests[0] == CreatePost(CreatePayload(post, html, state, [], []))
  {
  }

  /** A 401 answer is an authentication failure carrying 401, and nothing is sent
      after it. */
  lemma PublishUnauthorized(post: BlogPost, state: PostState, categories: seq<string>, tags: seq<string>, html: string,
                            categoryListing: Outcome, tagListing: Outcome, resp: Response, followUp: Outcome)
    requires ResolveIds(categories, categoryListing).Ok? && ResolveIds(tags, tagListing).Ok?
    requires resp.status == 401
    ensures var r := Publish(post, state, categories, tags, html, categoryListing, tagListing, Answer(resp), followUp);
      && r.result == Err(Rejected(AuthMessage, Some(401)))
      && r.requests[|r.requests| - 1].CreatePost?
  {
  }

  /** Any other status from 400 up is rejected with that status and the body's
      message, or the default message with the status when the body does not decode. */
  lemma PublishRejected(post: BlogPost, state: PostState, categories: seq<string>, tags: seq<string>, html: string,
                        categoryListing: Outcome, tagListing: Outcome, resp: Response, followUp: Outcome)
    requires ResolveIds(categories, categoryListing).Ok? && ResolveIds(tags, tagListing).Ok?
    requires resp.status >= 400 && resp.status != 401
    ensures var r := Publish(post, state, categories, tags, html, categoryListing, tagListing, Answer(resp), followUp);
      && (resp.body.None? ==>
            r.result == Err(Rejected(DefaultMessage + " (HTTP " + IntToString(resp.status) + ")", Some(resp.status))))
      && (resp.body.Some? && IsDict(resp.body.value) ==>
            (r.result.Err? && r.result.error.Rejected? && r.result.error.statusCode == Some(resp.status)))
  {
  }

  /** On success the result carries the created post's validated id and link
      (or fails validation), and the follow-up is sent exactly when the subtitle,
      id and link are all truthy, with the excerpt built from them. */
  lemma PublishSucceeded(post: BlogPost, state: PostState, categories: seq<string>, tags: seq<string>, html: string,
                         categoryListing: Outcome, tagListing: Outcome, fields: map<string, Json>, status: int,
                         followUp: Outcome)
    requires ResolveIds(categories, categoryListing).Ok? && ResolveIds(tags, tagListing).Ok?
    requires status < 400 && status != 401
    requires followUp.Answer?
    ensures var r := Publish(post, state, categories, tags, html, categoryListing, tagListing,
                             Answer(Response(status, "", Some(JObj(fields)))), followUp);
      var id := GetOr(fields, "id", JNull);
      var link := GetOr(fields, "link", JStr(""));
      && r.result == Validated(id, link)
      && (r.requests[|r.requests| - 1].UpdateExcerpt? <==> WantsFollowUp(post, id, link))
      && (WantsFollowUp(post, id, link) ==>
            r.requests[|r.requests| - 1] == UpdateExcerpt(Str(id), ExcerptWithMore(post.subtitle.value, Str(link))))
  {
  }

  /** The create payload carries the resolved ids, in the order of the names. */
  lemma PublishPayloadIds(post: BlogPost, state: PostState, categories: seq<string>, tags: seq<string>, html: string,
                          categoryListing: Outcome, tagListing: Outcome, created: Outcome, followUp: Outcome)
    requires ResolveIds(categories, categoryListing).Ok? && ResolveIds(tags, tagListing).Ok?
    ensures var r := Publish(post, state, categories, tags, html, categoryListing, tagListing, created, followUp);
      var k := (if categories != [] then 1 else 0) + (if tags != [] then 1 else 0);
      && k < |r.requests|
      && r.requests[k] == CreatePost(CreatePayload(post, html, state,
                                                   ResolveIds(categories, categoryListing).value,
                                                   ResolveIds(tags, tagListing).value))
  {
  }
}
