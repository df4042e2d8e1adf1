/** `src/collectors/github.py`: describing one repository from the GitHub REST
    API. The request headers, the repository identifier, the four requests in
    order with the errors each one tolerates, the directory listing, the commit
    lines and the single record. Each request's outcome is an input. */
module GitHub {
  import opened Common
  import opened Scan
  import opened Json
  import opened Models
  import opened DateTimes

  const ApiBase: string := "https://api.github.com"
  const JsonAccept: string := "application/vnd.github.v3+json"
  const RawAccept: string := "application/vnd.github.v3.raw"

  /** How much of the README, of the listing and of the commit list is kept. */
  const ReadmeLimit: nat := 3000
  const TreeLimit: nat := 200
  const CommitLimit: nat := 5

  // ---------------------------------------------------------------------------
  // Requests
  // ---------------------------------------------------------------------------

  /** The constructor's token: the argument when it is non-empty, else `GITHUB_TOKEN`. */
  function Token(arg: Option<string>, env: map<string, string>): string {
    ArgOrEnv(arg, env, "GITHUB_TOKEN")
  }

  /** `_headers`: the JSON media type, and a bearer token only when there is one. */
  function Headers(token: string): (r: map<string, string>)
    ensures "Accept" in r && r["Accept"] == JsonAccept
    ensures "Authorization" in r <==> token != []
    ensures token != [] ==> r["Authorization"] == "Bearer " + token
    ensures forall k :: k in r ==> k == "Accept" || k == "Authorization"
  {
    var h := map["Accept" := JsonAccept];
    if token != [] then h["Authorization" := "Bearer " + token] else h
  }

  /** The README request's headers: `{**self._headers(), "Accept": raw}`. */
  function ReadmeHeaders(token: string): map<string, string> {
    Headers(token)["Accept" := RawAccept]
  }

  /** The README request asks for the raw media type and authenticates exactly
      as the other requests do. */
  lemma ReadmeHeadersKeepAuthorization(token: string)
    ensures ReadmeHeaders(token)["Accept"] == RawAccept
    ensures ReadmeHeaders(token).Keys == Headers(token).Keys
    ensures forall k :: k in Headers(token) && k != "Accept" ==> ReadmeHeaders(token)[k] == Headers(token)[k]
  {
  }

  /** One GET request: its URL, its query parameters and its headers. */
  datatype Request = Request(url: string, params: map<string, string>, headers: map<string, string>)

  function RepoUrl(repo: string): string {
    ApiBase + "/repos/" + repo
  }

  function RepoRequest(repo: string, token: string): Request {
    Request(RepoUrl(repo), map[], Headers(token))
  }

  function ReadmeRequest(repo: string, token: string): Request {
    Request(RepoUrl(repo) + "/readme", map[], ReadmeHeaders(token))
  }

  function CommitsRequest(repo: string, token: string): Request {
    Request(RepoUrl(repo) + "/commits", map["per_page" := "5"], Headers(token))
  }

  function TreeRequest(repo: string, token: string, branch: string): Request {
    Request(RepoUrl(repo) + "/git/trees/" + branch, map["recursive" := "1"], Headers(token))
  }

  /** `query.strip("/")`. */
  function RepoId(query: string): (r: string)
    ensures r == [] || (r[0] != '/' && r[|r| - 1] != '/')
  {
    Strip(query, IsSlash)
  }

  /** The identifier is the query with only slashes removed, and only at its ends. */
  lemma RepoIdShape(query: string)
    ensures exists i :: Framed(query, RepoId(query), i, IsSlash)
  {
    StripFramed(query, IsSlash);
    var i :| Framed(query, Strip(query, IsSlash), i, IsSlash);
    assert Framed(query, RepoId(query), i, IsSlash);
  }

  /** Stripping an identifier again changes nothing. */
  lemma RepoIdIdempotent(query: string)
    ensures RepoId(RepoId(query)) == RepoId(query)
  {
    StripNoop(RepoId(query), IsSlash);
  }

  // ---------------------------------------------------------------------------
  // The four fetches
  // ---------------------------------------------------------------------------

  /** Why `collect` fails. A status error or a transport error reaches the
      `except httpx.HTTPError` and becomes a `CollectionError` whose message is
      httpx's own text; an undecodable repository body is the "JSONパースエラー"
      `CollectionError`; a body of the wrong shape makes Python raise an
      `AttributeError` or `TypeError` that nothing catches. */
  datatype Failure =
    | StatusFailed(status: int)
    | TransportFailed(detail: string)
    | RepoNotJson
    | Crashed

  /** `_fetch_repo`: the repository's metadata. Its status errors are not
      tolerated, and a body that is not a dict fails at the first `.get`. */
  function RepoData(o: Outcome): (r: Result<map<string, Json>, Failure>)
    ensures r.Ok? <==> o.Answer? && IsSuccess(o.response.status) && o.response.body.Some? && o.response.body.value.JObj?
    ensures o.Answer? && !IsSuccess(o.response.status) ==> r == Err(StatusFailed(o.response.status))
  {
    match o
    case TransportError(d) => Err(TransportFailed(d))
    case Answer(resp) =>
      if !IsSuccess(resp.status) then Err(StatusFailed(resp.status))
      else match resp.body
        case None => Err(RepoNotJson)
        case Some(j) => if j.JObj? then Ok(j.fields) else Err(Crashed)
  }

  /** `_fetch_readme`: the raw README text, "" on a status error. */
  function Readme(o: Outcome): (r: Result<string, Failure>)
    ensures o.Answer? ==> r.Ok?
    ensures o.Answer? && !IsSuccess(o.response.status) ==> r == Ok("")
    ensures o.TransportError? ==> r == Err(TransportFailed(o.detail))
  {
    match o
    case TransportError(d) => Err(TransportFailed(d))
    case Answer(resp) => Ok(if IsSuccess(resp.status) then resp.text else "")
  }

  /** `_fetch_recent_commits`: the decoded body, an empty list on a status error
      or an undecodable body. */
  function Commits(o: Outcome): (r: Result<Json, Failure>)
    ensures o.Answer? ==> r.Ok?
    ensures o.Answer? && !IsSuccess(o.response.status) ==> r == Ok(JList([]))
    ensures o.TransportError? ==> r == Err(TransportFailed(o.detail))
  {
    match o
    case TransportError(d) => Err(TransportFailed(d))
    case Answer(resp) =>
      if !IsSuccess(resp.status) || resp.body.None? then Ok(JList([])) else Ok(resp.body.value)
  }

  /** One listing line: the item's path, with `/` appended for a directory. */
  function TreeLine(item: map<string, Json>): string {
    var path := StrField(item, "path");
    if StrField(item, "type") == "tree" then path + "/" else path
  }

  /** The listing lines of a tree: one per dict item, in order. */
  function TreeLines(items: seq<Json>): (r: seq<string>)
    ensures |r| <= |items|
  {
    if items == [] then []
    else (if items[0].JObj? then [TreeLine(items[0].fields)] else []) + TreeLines(items[1..])
  }

  /** The loop of `_fetch_directory_tree`. */
  method ListTree(items: seq<Json>) returns (lines: seq<string>)
    ensures lines == TreeLines(items)
  {
    lines := [];
    var i := 0;
    while i < |items|
      invariant 0 <= i <= |items|
      invariant lines + TreeLines(items[i..]) == TreeLines(items)
    {
      assert items[i..][1..] == items[i + 1..];
      if items[i].JObj? {
        lines := lines + [TreeLine(items[i].fields)];
      }
      i := i + 1;
    }
    assert items[i..] == [];
  }

  /** Line `k` of the listing describes the `k`-th dict item, and there is one
      line per dict item. */
  lemma {:induction false} TreeLinesMatchDicts(items: seq<Json>)
    ensures |TreeLines(items)| == |Filter(IsDict, items)|
    ensures forall k :: 0 <= k < |TreeLines(items)| ==> TreeLines(items)[k] == TreeLine(Filter(IsDict, items)[k].fields)
  {
    if items != [] {
      TreeLinesMatchDicts(items[1..]);
    }
  }

  /** `_fetch_directory_tree`: the listing joined by newlines and capped at
      `TreeLimit` lines; "" on a status error, an undecodable body or a `tree`
      that is not a list. */
  function TreeListing(o: Outcome): (r: Result<string, Failure>)
    ensures o.Answer? && !IsSuccess(o.response.status) ==> r == Ok("")
    ensures o.TransportError? ==> r == Err(TransportFailed(o.detail))
  {
    match o
    case TransportError(d) => Err(TransportFailed(d))
    case Answer(resp) =>
      if !IsSuccess(resp.status) || resp.body.None? then Ok("")
      else if !resp.body.value.JObj? then Err(Crashed)
      else
        var tree := GetOr(resp.body.value.fields, "tree", JList([]));
        if tree.JList? then Ok(Join("\n", Take(TreeLines(tree.items), TreeLimit))) else Ok("")
  }

  method FetchDirectoryTree(o: Outcome) returns (r: Result<string, Failure>)
    ensures r == TreeListing(o)
  {
    match o
    case TransportError(d) =>
      return Err(TransportFailed(d));
    case Answer(resp) =>
      if !IsSuccess(resp.status) || resp.body.None? {
        return Ok("");
      }
      if !resp.body.value.JObj? {
        return Err(Crashed);
      }
      var tree := GetOr(resp.body.value.fields, "tree", JList([]));
      if !tree.JList? {
        return Ok("");
      }
      var lines := ListTree(tree.items);
      return Ok(Join("\n", Take(lines, TreeLimit)));
  }

  // ---------------------------------------------------------------------------
  // Commit lines
  // ---------------------------------------------------------------------------

  /** `s.split("\n")[0]`: everything before the first newline. */
  function FirstLine(s: string): (r: string)
    ensures StartsWith(s, r)
    ensures forall i :: 0 <= i < |r| ==> r[i] != '\n'
    ensures |r| < |s| ==> s[|r|] == '\n'
  {
    match Find(s, '\n', 0)
    case Some(k) => s[..k]
    case None => s
  }

  /** The message shown for one commit: the first line of `commit.message`, or
      "" when `commit` is not a dict. */
  function CommitMessage(commit: map<string, Json>): string {
    var data := GetOr(commit, "commit", JObj(map[]));
    if data.JObj? then FirstLine(Str(GetOr(data.fields, "message", JStr("")))) else ""
  }

  /** One rendered commit; an entry that is not a dict fails at `commit.get`. */
  function CommitLine(commit: Json): Result<string, Failure> {
    if commit.JObj? then Ok("- " + CommitMessage(commit.fields)) else Err(Crashed)
  }

  /** The lines of a list of commits, failing at the first entry that is not a dict. */
  function CommitLines(commits: seq<Json>): (r: Result<seq<string>, Failure>)
    ensures r.Ok? <==> forall i :: 0 <= i < |commits| ==> commits[i].JObj?
    ensures r.Err? ==> r == Err(Crashed)
    ensures r.Ok? ==> |r.value| == |commits|
    ensures r.Ok? ==> forall i :: 0 <= i < |commits| ==> r.value[i] == "- " + CommitMessage(commits[i].fields)
  {
    if commits == [] then Ok([])
    else match CommitLine(commits[0])
      case Err(e) => Err(e)
      case Ok(line) =>
        match CommitLines(commits[1..])
        case Err(e) => Err(e)
        case Ok(rest) => Ok([line] + rest)
  }

  /** The loop of `collect` over the first `CommitLimit` commits. */
  method RenderCommits(commits: seq<Json>) returns (r: Result<seq<string>, Failure>)
    ensures r == CommitLines(Take(commits, CommitLimit))
  {
    var batch := Take(commits, CommitLimit);
    var lines: seq<string> := [];
    var i := 0;
    while i < |batch|
      invariant 0 <= i <= |batch| && |lines| == i
      invariant forall j :: 0 <= j < i ==> batch[j].JObj? && lines[j] == "- " + CommitMessage(batch[j].fields)
    {
      var line := CommitLine(batch[i]);
      if line.Err? {
        assert !batch[i].JObj?;
        return Err(line.error);
      }
      lines := lines + [line.value];
      i := i + 1;
    }
    assert forall j :: 0 <= j < |batch| ==> batch[j].JObj?;
    assert CommitLines(batch).value == lines;
    return Ok(lines);
  }

  /** The commits section: nothing for a falsy body; for a list, a heading and
      at most `CommitLimit` lines; any other truthy body fails when sliced. */
  function CommitSection(commits: Json): (r: Result<seq<string>, Failure>)
    ensures !IsTruthy(commits) ==> r == Ok([])
    ensures IsTruthy(commits) && !commits.JList? ==> r == Err(Crashed)
    ensures r.Ok? && r.value != [] ==> r.value[0] == "\n## Recent Commits" && |r.value| <= CommitLimit + 1
  {
    if !IsTruthy(commits) then Ok([])
    else if !commits.JList? then Err(Crashed)
    else match CommitLines(Take(commits.items, CommitLimit))
      case Ok(lines) => Ok(["\n## Recent Commits"] + lines)
      case Err(e) => Err(e)
  }

  // ---------------------------------------------------------------------------
  // The record
  // ---------------------------------------------------------------------------

  /** The three parts every record starts with: name, description, counters. */
  function Summary(repo: map<string, Json>, id: string): seq<string> {
    ["# " + Str(GetOr(repo, "full_name", JStr(id))),
     "\n" + Str(GetOr(repo, "description", JStr("No description"))),
     "\nStars: " + Str(GetOr(repo, "stargazers_count", JInt(0)))
       + " | Forks: " + Str(GetOr(repo, "forks_count", JInt(0)))
       + " | Language: " + Str(GetOr(repo, "language", JStr("N/A")))]
  }

  function ReadmePart(readme: string): seq<string> {
    if readme == [] then [] else ["\n## README\n" + Take(readme, ReadmeLimit)]
  }

  function TreePart(listing: string): seq<string> {
    if listing == [] then [] else ["\n## Directory Structure\n```\n" + listing + "\n```"]
  }

  /** The single record; title and URL fall back to the identifier. */
  function Record(repo: map<string, Json>, id: string, content: string, now: DateTime): CollectedData {
    CollectedData("github",
                  Str(GetOr(repo, "full_name", JStr(id))),
                  Some(Str(GetOr(repo, "html_url", JStr("https://github.com/" + id)))),
                  content, now, None)
  }

  /** What one `collect` call did: its result and the requests it sent, in order. */
  datatype Run = Run(result: Result<seq<CollectedData>, Failure>, requests: seq<Request>)

  /** The content: the summary, the README and directory sections when they
      are non-empty, then the commit lines, joined by newlines. */
  function Content(repo: map<string, Json>, id: string, readme: string, listing: string, lines: seq<string>): string {
    Join("\n", Summary(repo, id) + ReadmePart(readme) + TreePart(listing) + lines)
  }

  /** The result once all four requests have answered. */
  function Assemble(repo: map<string, Json>, id: string, now: DateTime,
                    readme: string, commits: Json, listing: string): Result<seq<CollectedData>, Failure> {
    match CommitSection(commits)
    case Err(e) => Err(e)
    case Ok(lines) => Ok([Record(repo, id, Content(repo, id, readme, listing, lines), now)])
  }

  /** `collect(query)`, given the outcome of each of its four requests. */
  function CollectRun(query: string, token: string, now: DateTime,
                      repoOut: Outcome, readmeOut: Outcome, commitsOut: Outcome, treeOut: Outcome): Run
  {
    var id := RepoId(query);
    match RepoData(repoOut)
    case Err(e) => Run(Err(e), [RepoRequest(id, token)])
    case Ok(repo) =>
      var sent := [RepoRequest(id, token), ReadmeRequest(id, token), CommitsRequest(id, token),
                   TreeRequest(id, token, Str(GetOr(repo, "default_branch", JStr("main"))))];
      match Readme(readmeOut)
      case Err(e) => Run(Err(e), sent[..2])
      case Ok(readme) =>
        match Commits(commitsOut)
        case Err(e) => Run(Err(e), sent[..3])
        case Ok(commits) =>
          match TreeListing(treeOut)
          case Err(e) => Run(Err(e), sent)
          case Ok(listing) => Run(Assemble(repo, id, now, readme, commits, listing), sent)
  }

  /** `collect`, step by step. */
  method Collect(query: string, token: string, now: DateTime,
                 repoOut: Outcome, readmeOut: Outcome, commitsOut: Outcome, treeOut: Outcome)
    returns (run: Run)
    ensures run == CollectRun(query, token, now, repoOut, readmeOut, commitsOut, treeOut)
  {
    var id := RepoId(query);
    var repo := RepoData(repoOut);
    if repo.Err? {
      return Run(Err(repo.error), [RepoRequest(id, token)]);
    }
    var branch := Str(GetOr(repo.value, "default_branch", JStr("main")));
    var sent := [RepoRequest(id, token), ReadmeRequest(id, token), CommitsRequest(id, token),
                 TreeRequest(id, token, branch)];
    var readme := Readme(readmeOut);
    if readme.Err? {
      return Run(Err(readme.error), sent[..2]);
    }
    var commits := Commits(commitsOut);
    if commits.Err? {
      return Run(Err(commits.error), sent[..3]);
    }
    var listing := FetchDirectoryTree(treeOut);
    if listing.Err? {
      return Run(Err(listing.error), sent);
    }
    var result := AssembleRecord(repo.value, id, now, readme.value, commits.value, listing.value);
    return Run(result, sent);
  }

  /** The parts of `collect` before the commits: the summary, then the README
      and directory sections when they are non-empty. */
  method LeadingParts(repo: map<string, Json>, id: string, readme: string, listing: string)
    returns (parts: seq<string>)
    ensures parts == Summary(repo, id) + ReadmePart(readme) + TreePart(listing)
  {
    parts := Summary(repo, id);
    if readme != [] {
      parts := parts + ["\n## README\n" + Take(readme, ReadmeLimit)];
    }
    if listing != [] {
      parts := parts + ["\n## Directory Structure\n```\n" + listing + "\n```"];
    }
  }

  /** The end of `collect`: the commit lines appended, then the record. */
  method AssembleRecord(repo: map<string, Json>, id: string, now: DateTime,
                        readme: string, commits: Json, listing: string)
    returns (r: Result<seq<CollectedData>, Failure>)
    ensures r == Assemble(repo, id, now, readme, commits, listing)
  {
    var parts := LeadingParts(repo, id, readme, listing);
    ghost var head := parts;
    if IsTruthy(commits) {
      if !commits.JList? {
        return Err(Crashed);
      }
      parts := parts + ["\n## Recent Commits"];
      var lines := RenderCommits(commits.items);
      if lines.Err? {
        return Err(lines.error);
      }
      assert CommitSection(commits) == Ok(["\n## Recent Commits"] + lines.value);
      assert parts + lines.value == head + (["\n## Recent Commits"] + lines.value);
      parts := parts + lines.value;
    } else {
      assert parts == head + [];
    }
    return Ok([Record(repo, id, Join("\n", parts), now)]);
  }

  // ---------------------------------------------------------------------------
  // Properties of collect
  // ---------------------------------------------------------------------------

  /** A successful collection yields exactly one record, sourced "github", titled
      by `full_name` (else the identifier), linked by `html_url` (else the
      repository's github.com page), stamped with the collection time. */
  lemma CollectYieldsOneRecord(query: string, token: string, now: DateTime, repo: map<string, Json>,
                               repoOut: Outcome, readmeOut: Outcome, commitsOut: Outcome, treeOut: Outcome)
    requires RepoData(repoOut) == Ok(repo)
    ensures var r := CollectRun(query, token, now, repoOut, readmeOut, commitsOut, treeOut).result;
      r.Ok? ==> (|r.value| == 1 && r.value[0].source == "github"
        && r.value[0].title == (if "full_name" in repo then Str(repo["full_name"]) else RepoId(query))
        && r.value[0].url == Some(if "html_url" in repo then Str(repo["html_url"]) else "https://github.com/" + RepoId(query))
        && r.value[0].collectedAt == now && r.value[0].publishedDate.None?)
  {
  }

  /** A failed metadata request stops the collection: nothing else is requested
      and the failure is reported. */
  lemma RepoFailureStops(query: string, token: string, now: DateTime,
                         repoOut: Outcome, readmeOut: Outcome, commitsOut: Outcome, treeOut: Outcome)
    requires RepoData(repoOut).Err?
    ensures CollectRun(query, token, now, repoOut, readmeOut, commitsOut, treeOut)
         == Run(Err(RepoData(repoOut).error), [RepoRequest(RepoId(query), token)])
  {
  }

  /** A repository whose metadata answers but whose README, commits and tree
      requests all answer with error statuses is still collected, with only the
      summary as content. */
  lemma StatusErrorsTolerated(query: string, token: string, now: DateTime, repo: map<string, Json>,
                              repoOut: Outcome, readme: Response, commits: Response, tree: Response)
    requires RepoData(repoOut) == Ok(repo)
    requires !IsSuccess(readme.status) && !IsSuccess(commits.status) && !IsSuccess(tree.status)
    ensures CollectRun(query, token, now, repoOut, Answer(readme), Answer(commits), Answer(tree)).result
         == Ok([Record(repo, RepoId(query), Join("\n", Summary(repo, RepoId(query))), now)])
  {
    var id := RepoId(query);
    assert Summary(repo, id) + ReadmePart("") + TreePart("") + [] == Summary(repo, id);
    assert Assemble(repo, id, now, "", JList([]), "") == Ok([Record(repo, id, Join("\n", Summary(repo, id)), now)]);
  }

  /** Every content begins with the summary lines, whichever sections follow. */
  lemma ContentStartsWithSummary(repo: map<string, Json>, id: string, readme: string, listing: string, lines: seq<string>)
    ensures StartsWith(Content(repo, id, readme, listing, lines), Join("\n", Summary(repo, id)))
  {
    JoinPrefixOfParts("\n", Summary(repo, id), ReadmePart(readme), TreePart(listing), lines);
  }

  /** Once the metadata, README and commits requests have answered, the tree is
      requested recursively for the repository's default branch, "main" if it
      names none. */
  lemma TreeRequestedForDefaultBranch(query: string, token: string, now: DateTime, repo: map<string, Json>,
                                      repoOut: Outcome, readme: Response, commits: Response, treeOut: Outcome)
    requires RepoData(repoOut) == Ok(repo)
    ensures var sent := CollectRun(query, token, now, repoOut, Answer(readme), Answer(commits), treeOut).requests;
      |sent| == 4
      && sent[3].url == ApiBase + "/repos/" + RepoId(query) + "/git/trees/"
                        + (if "default_branch" in repo then Str(repo["default_branch"]) else "main")
      && sent[3].params == map["recursive" := "1"]
  {
    var id := RepoId(query);
    var branch := Str(GetOr(repo, "default_branch", JStr("main")));
    assert branch == if "default_branch" in repo then Str(repo["default_branch"]) else "main";
    var sent := [RepoRequest(id, token), ReadmeRequest(id, token), CommitsRequest(id, token), TreeRequest(id, token, branch)];
    assert Readme(Answer(readme)).Ok? && Commits(Answer(commits)).Ok?;
    assert CollectRun(query, token, now, repoOut, Answer(readme), Answer(commits), treeOut).requests == sent;
  }

  /** The commits section of a list whose first entries are all dicts: the
      heading, then one line per commit for at most `CommitLimit` of them. */
  lemma CommitSectionOfList(items: seq<Json>)
    requires items != []
    requires forall i :: 0 <= i < |items| && i < CommitLimit ==> items[i].JObj?
    ensures CommitSection(JList(items)).Ok?
    ensures var lines := CommitSection(JList(items)).value;
      |lines| == 1 + (if |items| < CommitLimit then |items| else CommitLimit)
      && lines[0] == "\n## Recent Commits"
      && forall i :: 1 <= i < |lines| ==> lines[i] == "- " + CommitMessage(items[i - 1].fields)
  {
    var batch := Take(items, CommitLimit);
    forall i | 0 <= i < |batch| ensures batch[i].JObj? {
      assert batch[i] == items[i];
    }
    var found := CommitLines(batch);
    assert found.Ok?;
    var rest := found.value;
    assert IsTruthy(JList(items));
    assert CommitSection(JList(items)) == Ok(["\n## Recent Commits"] + rest);
    var lines := ["\n## Recent Commits"] + rest;
    forall i | 1 <= i < |lines| ensures lines[i] == "- " + CommitMessage(items[i - 1].fields) {
      assert lines[i] == rest[i - 1];
      assert batch[i - 1] == items[i - 1];
    }
  }

  /** A directory's line is its path followed by `/`; any other item's line is
      its path alone. */
  lemma TreeLineMarksDirectories(item: map<string, Json>)
    ensures StartsWith(TreeLine(item), StrField(item, "path"))
    ensures |TreeLine(item)| == |StrField(item, "path")| + (if StrField(item, "type") == "tree" then 1 else 0)
    ensures StrField(item, "type") == "tree" ==> TreeLine(item)[|TreeLine(item)| - 1] == '/'
  {
  }

  /** A readable tree lists one line per dict item, in order, and no more than
      `TreeLimit` of them. */
  lemma TreeListingCapped(resp: Response, items: seq<Json>)
    requires IsSuccess(resp.status) && resp.body.Some? && resp.body.value.JObj?
    requires GetOr(resp.body.value.fields, "tree", JList([])) == JList(items)
    ensures TreeListing(Answer(resp)) == Ok(Join("\n", Take(TreeLines(items), TreeLimit)))
    ensures |Take(TreeLines(items), TreeLimit)|
      == if |Filter(IsDict, items)| < TreeLimit then |Filter(IsDict, items)| else TreeLimit
    ensures forall k :: 0 <= k < |Take(TreeLines(items), TreeLimit)| ==>
      Take(TreeLines(items), TreeLimit)[k] == TreeLine(Filter(IsDict, items)[k].fields)
  {
    TreeLinesMatchDicts(items);
  }

  /** The README section appears exactly when the README is non-empty and then
      holds its first `ReadmeLimit` characters at most; the directory section
      appears exactly when the listing is non-empty. */
  lemma SectionsOnlyWhenNonEmpty(readme: string, listing: string)
    ensures ReadmePart(readme) == [] <==> readme == []
    ensures readme != [] ==>
      ReadmePart(readme) == ["\n## README\n" + readme[..if |readme| < ReadmeLimit then |readme| else ReadmeLimit]]
    ensures TreePart(listing) == [] <==> listing == []
  {
    var n := if |readme| < ReadmeLimit then |readme| else ReadmeLimit;
    assert Take(readme, ReadmeLimit) == readme[..n];
  }
}
