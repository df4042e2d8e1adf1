# social-content-creator, verified model

A Dafny model of the deterministic core of `social-content-creator`, a
content pipeline that collects material from several sources, turns it into
Japanese blog articles kept as front-matter Markdown files, and publishes them
to WordPress and X. The model covers the rules underneath the HTTP glue:

- **X publishing** (`x_publisher.dfy`): the weighted length X counts against its
  280 limit (CJK and emoji ranges weigh 2, every `https?://\S+` match weighs
  23), the text check, the two-attempt request loop and its mapping of
  statuses to failures, single posts with their default text, and threads that
  check every text first and then reply each post to the previous one.
- **Markdown utilities** (`markdown.dfy`): `generate_slug` and
  `count_characters`, with every regular-expression substitution written out
  as a left-to-right scan (`scan.dfy`).
- **The article generator and store** (`blog_post.dfy`): `generate`, the
  prompt context, and a `DraftStore` class over a map from path to front-matter
  document with `save_draft`, `load_draft` and `move_to_published`.
- **WordPress publishing** (`wordpress.py` → `wordpress.dfy`): the settings
  check, case-insensitive resolution of category and tag names, the create
  payload, the mapping of responses to results and errors, and the excerpt
  follow-up.
- **Collectors**: GitHub (`github.dfy`), Notion Medium (`notion_medium.dfy`),
  Notion papers and news (`notion_paper.dfy`, `notion_news.dfy`, with what they
  share in `collecting.dfy`), web search (`web_search.dfy`) and the URL fetcher
  (`url_fetcher.dfy`: URL validation as `urllib.parse.urlparse` reads the URL,
  HTML text and title extraction).
- **The template registry** (`templates.dfy`): the eight templates and a
  `Registry` class for the module-level dictionary that `_init_registry` fills
  once and `get_template` and `list_templates` read.

Shared vocabulary lives in `common.dfy` (Option, Result, Python string
operations), `json.dfy` (decoded JSON values and HTTP responses),
`datetimes.dfy` (`isoformat`, `fromisoformat`, `strftime`) and `models.dfy`
(the records every component exchanges).

Every HTTP exchange is an input: a response with its status, text and decoded
body, or a transport error. The clock, `fromisoformat` on foreign timestamps,
the environment and the file system are parameters or fields. Each method that
mirrors a loop of the source is proved against a function that specifies it,
and the properties the source promises are proved about those functions.

Where the declarations and the code that uses them disagree, the model
follows the code:

- `BlogPost` has a `subtitle` and `CollectedData` a `published_date`, because
  the generator and the Notion Medium collector pass them.
- The X failures are modelled as the publisher raises them, although the error
  module does not define their class.
- A WordPress error raised with a status code gets ` (HTTP n)` appended by the
  error class itself. The undecodable-body message already ends in
  `(HTTP n)`, so that error's text names the status twice
  (`WordPress.UndecodedRejectionText`).
- The registry's constructor takes the creators' templates as a parameter.
  Any list in the creators' order will do; `Templates.CreatorKinds` shows that
  the repository's own list is one. This keeps the template texts out of the
  registry's proofs.

## Model

| member | source | states |
|---|---|---|
| XPublisher.InAnyRangeIff | src/publishers/x.py:118 | the range test holds exactly when one of the (lo, hi) intervals contains the code point |
| XPublisher.CharWeight | src/publishers/x.py:116-121 | a character outside a URL weighs 1 or 2 |
| XPublisher.UrlMatch | src/publishers/x.py:111 | a match of `https?://\S+` is at least 8 characters long, lies inside the text, and is replaced by nothing |
| XPublisher.SumWeightsAppend | src/publishers/x.py:115-121 | the character-by-character count is additive over concatenation |
| XPublisher.WeightSplits | src/publishers/x.py:111-124 | the weighted length equals the weights of the URL-free text plus 23 per URL found |
| XPublisher.WeightedLength | src/publishers/x.py:106-124 | the loop over the URL-free text, plus 23 per URL, computes the weighted length |
| XPublisher.WeightWithoutColon | src/publishers/x.py:111-124 | text without a `:` holds no URL and is weighed character by character |
| XPublisher.SumWeightsRepeat | src/publishers/x.py:115-121 | n copies of one character weigh n times its weight |
| XPublisher.RepeatWeight | src/publishers/x.py:111-124 | n copies of a character other than `:` have weighted length n times its weight |
| XPublisher.AsciiLetterWeighsOne | src/publishers/x.py:25-37 | ASCII letters lie in no weighted interval and weigh 1 |
| XPublisher.HiraganaWeighsTwo | src/publishers/x.py:33 | hiragana lie in a weighted interval and weigh 2 |
| XPublisher.UrlShape | src/publishers/x.py:111 | an `http://` or `https://` scheme followed by non-space characters and then a space or the end of the text is laid out as the URL pattern needs |
| XPublisher.UrlWeighsConstant | src/publishers/x.py:39-123 | a URL weighs exactly 23 whatever its length |
| XPublisher.ValidateText | src/publishers/x.py:126-139 | the empty text is refused first; any other text is accepted exactly when its weighted length is at most 280; otherwise the failure reports the weighted length and the overflow |
| XPublisher.AsciiLimit | src/publishers/x.py:131-139 | 280 ASCII letters pass; 281 are refused with weighted length 281 and overflow 1 |
| XPublisher.HiraganaLimit | src/publishers/x.py:25-139 | 140 hiragana pass; 141 are 2 over; 280 weigh 560 and are refused |
| XPublisher.TweetPayload | src/publishers/x.py:147-149 | the request carries the text, and a reply target exactly when `reply_to` is truthy |
| XPublisher.RejectionMessage | src/publishers/x.py:208-214 | an unreadable error body gives the default message "投稿に失敗しました"; a JSON body that is not an object raises instead |
| XPublisher.RetryOnlyAfterServerOrTransportError | src/publishers/x.py:196-227 | a first attempt is retried exactly when it got a status of 500 or more or a transport error |
| XPublisher.LastAttemptIsFinal | src/publishers/x.py:152-228 | the second attempt always ends the loop |
| XPublisher.ClientErrorsAreFinal | src/publishers/x.py:167-214 | a status below 500 ends the loop on either attempt with the same outcome: 401/403 give the authentication failure, 402 the credit failure, 429 the rate-limit failure |
| XPublisher.PostTweet | src/publishers/x.py:141-230 | one or two requests are sent, all with the same payload; a second is sent exactly when the first attempt is retried; the result is that of the last attempt |
| XPublisher.DefaultText | src/publishers/x.py:244-248 | without a text, the tweet is the title followed by a space and the WordPress URL when that URL is set, else the title alone |
| XPublisher.TweetId | src/publishers/x.py:252-256 | reading the id fails exactly when the response body is not an object |
| XPublisher.StatusUrl | src/publishers/x.py:257 | a status URL is built exactly when the id is non-empty |
| XPublisher.PublishedTweetOfNumber | src/publishers/x.py:257-268 | a numeric id comes back as the integer post id, with URL `https://x.com/i/status/{id}` |
| XPublisher.PublishedTweetWithoutId | src/publishers/x.py:254-268 | an answer without an id gives a success with no post id and no URL |
| XPublisher.Publish | src/publishers/x.py:232-268 | a text that fails validation is reported before anything is sent; otherwise one post of the text without a reply target, with the result derived from the post's answer |
| XPublisher.FirstInvalid | src/publishers/x.py:276-277 | no failure is reported exactly when every text passes validation |
| XPublisher.CheckTexts | src/publishers/x.py:276-277 | the loop reports the failure of the first text that does not pass |
| XPublisher.ChainedExtend | src/publishers/x.py:282-290 | posting the next text as a reply to the last id keeps the chain: each post replies to the id of the post before it |
| XPublisher.PublishThread | src/publishers/x.py:270-302 | any invalid text means no post at all; on success every text was posted, each as a reply to the previous post's id and the first without a target; `tweet_id` is the first id, or none for no texts; a failure stops the thread at its first failed post: every earlier post succeeded and was chained, the failed post went out as a reply to the last id, and its failure is the result |
| XPublisher.Configure | src/publishers/x.py:74-96 | each credential comes from its argument or the environment; construction succeeds exactly when all four are non-empty; otherwise the error lists the missing names in their fixed order |
| XPublisher.ConfigureReportsExactly | src/publishers/x.py:82-91 | a credential name is listed as missing exactly when neither its argument nor the environment gives it a value |
| Markdown.SliceKeepsShape | src/utils/markdown.py:53-57 | a slice of text made of slug characters without doubled hyphens has the same shape |
| Markdown.StripHyphensSlug | src/utils/markdown.py:59 | stripping the outer hyphens from such text leaves the empty string or a slug |
| Markdown.SqueezedShape | src/utils/markdown.py:51-57 | after cleaning, turning whitespace runs into `-` and squeezing hyphen runs, only `a-z`, `0-9` and `-` remain, with no two hyphens in a row |
| Markdown.UntitledIsSlug | src/utils/markdown.py:60 | the fallback "untitled" is itself a slug |
| Markdown.GenerateSlugIsSlug | src/utils/markdown.py:37-60 | every slug is non-empty, uses only `a-z`, `0-9` and `-`, has no leading or trailing hyphen and no doubled hyphen |
| Markdown.SlugCharsSurviveCleaning | src/utils/markdown.py:51-53 | lowering and the character filter leave slug characters alone |
| Markdown.SlugFixpoint | src/utils/markdown.py:37-60 | a slug is its own slug |
| Markdown.GenerateSlugIdempotent | src/utils/markdown.py:37-60 | applying `generate_slug` to its own output changes nothing |
| Markdown.HeadingMarkerLen | src/utils/markdown.py:87 | a heading marker starts with `#`, ends in whitespace and lies inside the text |
| Markdown.StripHeadingsNoop | src/utils/markdown.py:87 | text without `#` has no heading marker to remove |
| Markdown.NoMarkupNoHits | src/utils/markdown.py:89-97 | text without `[`, `*` or a backtick holds no image, link, emphasis, code block or inline code anywhere |
| Markdown.PlainTextCount | src/utils/markdown.py:75-100 | for text without markup the count is the length of the stripped text |
| Markdown.BlankTextCountsZero | src/utils/markdown.py:99-100 | empty or whitespace-only text counts 0 |
| Markdown.StripHeadingsNoLonger | src/utils/markdown.py:87 | removing heading markers never lengthens the text |
| Scan.ReSubNoLonger | src/utils/markdown.py:89-97 | a substitution whose replacement is never longer than its match never lengthens the text |
| Markdown.BracketThenParen | src/utils/markdown.py:89-91 | a bracket-then-parenthesis match is more than three characters longer than the text it keeps |
| Markdown.CountCharactersBound | src/utils/markdown.py:75-100 | the count is at most the length of the text |
| Markdown.BracketThenParenAt | src/utils/markdown.py:89-91 | `[text](target)` with no `]` in the text and no `)` in the target matches up to the closing parenthesis and keeps the text |
| Markdown.BracketShape | src/utils/markdown.py:89-91 | where the brackets, parentheses, text and target of `pre[text](target)` sit |
| Markdown.BracketThenParenWhole | src/utils/markdown.py:89-91 | the bracket-then-parenthesis pattern matches a whole `[text](target)` and captures the text |
| Markdown.ImageMatchWhole | src/utils/markdown.py:89 | the image pattern matches a whole `![alt](src)` and captures the alt text |
| Markdown.ImageKeepsAlt | src/utils/markdown.py:88-89 | an image is replaced by its alt text, even an empty one |
| Markdown.LinkMatchWhole | src/utils/markdown.py:91 | the link pattern matches a whole `[text](href)` with non-empty text and captures the text |
| Markdown.LinkKeepsText | src/utils/markdown.py:90-91 | a link is replaced by its text |
| Markdown.EmphasisMatchWhole | src/utils/markdown.py:93 | the emphasis pattern matches `*t*` and `**t**` whole and captures `t` |
| Markdown.EmphasisKeepsText | src/utils/markdown.py:92-93 | emphasis marks are removed and the text kept |
| Markdown.InlineCodeMatchWhole | src/utils/markdown.py:97 | the inline-code pattern matches a whole `` `code` `` and captures the code |
| Markdown.InlineCodeKeepsText | src/utils/markdown.py:96-97 | inline code keeps its text without the backticks |
| Markdown.CodeBlockMatchWhole | src/utils/markdown.py:95 | the fenced-block pattern matches a whole fenced block |
| Markdown.CodeBlockRemoved | src/utils/markdown.py:94-95 | a fenced code block is removed with its contents |
| Markdown.HeadingMarkerLenOf | src/utils/markdown.py:87 | one to six `#` and a space make a heading marker of that length |
| Markdown.HeadingMarkerDropped | src/utils/markdown.py:86-87 | such a marker at the start of a line is removed |
| Markdown.SevenHashesKept | src/utils/markdown.py:87 | seven `#` are not a heading marker |
| BlogPostGenerator.Generate | src/generators/blog_post.py:86-121 | a new article has status draft and slug `generate_slug(title)`, which is a slug; title, subtitle, content and type are copied unchanged; it is created now and has no categories, tags, publication date or WordPress ids |
| BlogPostGenerator.SectionLines | src/generators/blog_post.py:65-68 | two lines per template section |
| BlogPostGenerator.DataEntry | src/generators/blog_post.py:77-82 | each collected item gives a heading, a `URL:` line only when it has a URL, its content cut to 2000 characters, and a blank line |
| BlogPostGenerator.Header | src/generators/blog_post.py:59-64 | the context opens with six fixed lines: name, type, word range, style, a blank line and the section heading |
| BlogPostGenerator.AppendSections | src/generators/blog_post.py:65-68 | the loop appends exactly the section lines, in order |
| BlogPostGenerator.AppendData | src/generators/blog_post.py:77-82 | the loop appends exactly the lines of each collected item, in order |
| BlogPostGenerator.BuildPromptContext | src/generators/blog_post.py:39-84 | the context is the newline-joined parts: header, sections, a blank line, then the topic, URL and data blocks |
| BlogPostGenerator.AppendExtras | src/generators/blog_post.py:71-82 | the topic and URL blocks appear only when truthy, and the data block only for a non-empty list |
| BlogPostGenerator.SectionLinesAt | src/generators/blog_post.py:65-68 | section k is numbered k + 1 and followed by its description indented by three spaces |
| BlogPostGenerator.SectionHeadingMarked | src/generators/blog_post.py:66-67 | a heading ends with "（任意）" exactly when the section is not required |
| BlogPostGenerator.PromptSection | src/generators/blog_post.py:58-68 | in the whole context, the heading of section k follows the six header lines, numbered from 1 |
| BlogPostGenerator.DataLinesHoldContent | src/generators/blog_post.py:77-81 | every collected item's content, cut to 2000 characters, is among the lines |
| BlogPostGenerator.StrList | src/generators/blog_post.py:148-151 | a list of strings is stored as a JSON list of the same length |
| BlogPostGenerator.DraftMetadata | src/generators/blog_post.py:139-151 | saved metadata always has title, date, type, status and slug; subtitle, categories and tags appear only when non-empty; no `published_at` |
| BlogPostGenerator.StrListOf | src/generators/blog_post.py:179-180 | a list read back has as many strings as the stored list |
| BlogPostGenerator.StrListRoundTrip | src/generators/blog_post.py:148-180 | a stored list of strings reads back unchanged |
| BlogPostGenerator.ReadSubtitle | src/generators/blog_post.py:170-171 | the subtitle is present exactly when the key is there and not null |
| BlogPostGenerator.ReadType | src/generators/blog_post.py:176 | a missing type reads as "weekly-ai-news" |
| BlogPostGenerator.ReadStatus | src/generators/blog_post.py:177 | a missing status reads as "draft" |
| BlogPostGenerator.ReadList | src/generators/blog_post.py:179-180 | a missing categories or tags key reads as the empty list |
| BlogPostGenerator.ReadDraft | src/generators/blog_post.py:169-184 | a date `fromisoformat` refuses is reported before any other field; a loaded article has the file's body as content, the stored title, slug and subtitle, the parsed date, and no publication data |
| BlogPostGenerator.ReadDescribed | src/generators/blog_post.py:169-184 | metadata that describes an article loads back as that article, with the stored status and body |
| BlogPostGenerator.ReadDraftDefaults | src/generators/blog_post.py:172-184 | empty metadata loads with title and slug "", subtitle None, type "weekly-ai-news", status draft, no categories or tags, and the current time |
| BlogPostGenerator.SaveLoadRoundTrip | src/generators/blog_post.py:139-184 | loading the saved document gives back the article's title, subtitle, content, type, status, slug, categories, tags and creation time |
| BlogPostGenerator.PublishedDoc | src/generators/blog_post.py:208-210 | the published document keeps the draft's body and metadata and sets `published_at` to now and `status` to "published" |
| BlogPostGenerator.DescribesIgnoresStatus | src/generators/blog_post.py:209-210 | adding `published_at` and replacing `status` keeps every other field of the article |
| BlogPostGenerator.PublishedDraftLoads | src/generators/blog_post.py:208-212 | a published draft loads as the same article with status published |
| BlogPostGenerator.DraftStore.SaveDraft | src/generators/blog_post.py:123-158 | the draft is written to `docs/drafts/{type}/{YYYYMMDD}-{slug}.md` and no other file changes; a failed write is a `DraftSaveError` naming that path and its message, and no file changes |
| BlogPostGenerator.DraftStore.LoadDraft | src/generators/blog_post.py:160-184 | a missing file is an error; otherwise the file's document is read |
| BlogPostGenerator.DraftStore.MoveToPublished | src/generators/blog_post.py:186-216 | an existing destination is refused with nothing written or deleted, and a missing draft likewise; when the destination is free and the draft exists, a failing write changes nothing and a failing delete leaves both the published copy and the draft, and otherwise the result is the destination, which holds the draft with `published_at` and status published, the draft is gone and nothing else changes |
| BlogPostGenerator.SaveThenLoad | src/generators/blog_post.py:123-184 | saving and then loading through the store gives the saved article back |
| WordPress.SettingValues | src/publishers/wordpress.py:25-27 | three settings are read, each from its argument or the environment |
| WordPress.MissingSettings | src/publishers/wordpress.py:29-35 | the missing list names WORDPRESS_URL, WORDPRESS_USER and WORDPRESS_APP_PASSWORD, each exactly when its value is empty, in that order |
| WordPress.Configure | src/publishers/wordpress.py:18-40 | construction succeeds exactly when all three settings are non-empty, the base URL without its trailing slashes; otherwise one error lists every missing setting in order |
| WordPress.ConfigureStripsSlashes | src/publishers/wordpress.py:25 | a trailing `/` is dropped, and a URL of slashes only counts as missing |
| WordPress.RequestUrl | src/publishers/wordpress.py:42-45 | every request goes under `{base_url}/wp-json/wp/v2/` |
| WordPress.UndecodedRejectionText | src/publishers/wordpress.py:106-112 | for an error body that does not decode, the raised error's text names the status twice: once from the message, once from the error class |
| WordPress.EntryId | src/publishers/wordpress.py:193-194 | an entry's id is taken only when it is an integer; no `id` key gives no id |
| WordPress.BuildNameIndex | src/publishers/wordpress.py:190-195 | the loop builds the lower-cased name → id lookup |
| WordPress.NameIndexKeys | src/publishers/wordpress.py:190-195 | a name is in the lookup exactly when some entry has that name, lower-cased, a non-empty name and an integer id |
| WordPress.NameIndexLastWins | src/publishers/wordpress.py:194-195 | when names clash after lower-casing, the last such entry's id is kept |
| WordPress.ResolveNames | src/publishers/wordpress.py:196 | no more ids come back than names were asked for |
| WordPress.ResolveNamesAppend | src/publishers/wordpress.py:196 | resolution works name by name, so it distributes over concatenation |
| WordPress.ResolveNamesAllKnown | src/publishers/wordpress.py:196 | when every name is known, the ids follow the order of the names |
| WordPress.ResolveNamesMembership | src/publishers/wordpress.py:196 | an id is returned exactly when some requested name, lower-cased, maps to it; unknown names are dropped |
| WordPress.ResolveIgnoresCase | src/publishers/wordpress.py:196 | names that differ only in case resolve to the same ids |
| WordPress.ListingEntries | src/publishers/wordpress.py:186-191 | a decoded list of objects gives one entry per object, in order |
| WordPress.ResolveIds | src/publishers/wordpress.py:176-218 | an empty name list resolves to [] without a lookup; otherwise no more ids than names |
| WordPress.Resolve | src/publishers/wordpress.py:176-218 | the listing is requested exactly when there are names to resolve |
| WordPress.CreatePayload | src/publishers/wordpress.py:81-92 | the payload always has title, content, status and slug; `excerpt` appears exactly when the subtitle is truthy; `categories` and `tags` appear exactly when their id lists are non-empty |
| WordPress.RejectionMessage | src/publishers/wordpress.py:106-111 | the body's `message` is used when present; an undecodable body gives "投稿に失敗しました (HTTP n)"; a JSON body that is not an object raises instead |
| WordPress.PostIdOf | src/publishers/wordpress.py:121-139 | `post_id` validates as `int` or `None`: null stays absent, an int is kept, and a list or dict is a `ValidationError` |
| WordPress.UrlOf | src/publishers/wordpress.py:122-139 | `url` validates as `str` or `None`: a string is kept, null stays absent, anything else (a number included) is a `ValidationError` |
| WordPress.IntegralFloat | src/publishers/wordpress.py:121-139 | a float is read as an integer only when its text is an integer, a `.` and a fraction of zeros |
| WordPress.PostIdFromText | src/publishers/wordpress.py:121-139 | the decimal text of an integer validates as that integer, `true`/`false` as 1/0, and a non-numeric string fails |
| WordPress.PostIdFromFloat | src/publishers/wordpress.py:121-139 | an integer written as a float with a zero fraction validates as that integer; a fraction of one half fails |
| WordPress.Validated | src/publishers/wordpress.py:135-139 | the `PublishResult` is built exactly when both the id and the link validate, and carries them; otherwise the `ValidationError` escapes |
| WordPress.AfterCreate | src/publishers/wordpress.py:100-139 | after the create request at most one more request is made, and a success is marked successful |
| WordPress.Publish | src/publishers/wordpress.py:51-144 | the category listing is requested first exactly when categories were given; a failed name resolution ends the run before any post is created |
| WordPress.PublishWithoutNamesCreatesFirst | src/publishers/wordpress.py:76-201 | with no categories and no tags the first request is the create request, with no `categories` or `tags` keys |
| WordPress.PublishUnauthorized | src/publishers/wordpress.py:100-104 | a 401 answer raises the authentication error with status 401 |
| WordPress.PublishRejected | src/publishers/wordpress.py:106-112 | any other status of 400 or more raises with that status, and with "投稿に失敗しました (HTTP n)" when the body does not decode |
| WordPress.PublishSucceeded | src/publishers/wordpress.py:114-139 | a success returns the response's id and link once they validate, and the `ValidationError` otherwise; the excerpt update is sent exactly when subtitle, id and link are all truthy (before the validation), with the excerpt `{subtitle}… <a class="more-link" href="{link}">続きを読む</a>`, and its answer is not checked |
| WordPress.PublishPayloadIds | src/publishers/wordpress.py:76-98 | the create request carries the resolved category and tag ids and follows the one or two listings |
| GitHub.Headers | src/collectors/github.py:30-34 | the headers always accept the GitHub v3 JSON type, and carry `Authorization: Bearer {token}` exactly when the token is non-empty, and nothing else |
| GitHub.ReadmeHeadersKeepAuthorization | src/collectors/github.py:104-107 | the README request asks for the raw type and otherwise sends the same headers |
| GitHub.RepoId | src/collectors/github.py:49 | the repository identifier neither starts nor ends with `/` |
| GitHub.RepoIdShape | src/collectors/github.py:49 | the identifier is the query with only slashes removed before and after it |
| GitHub.RepoIdIdempotent | src/collectors/github.py:49 | stripping slashes a second time changes nothing |
| GitHub.RepoData | src/collectors/github.py:91-99 | repository data is read exactly from a 2xx answer holding a JSON object; any other status is a status failure |
| GitHub.Readme | src/collectors/github.py:101-111 | an answer always gives a README, "" for a status outside 2xx; a transport error fails |
| GitHub.Commits | src/collectors/github.py:144-161 | an answer always gives a commit list, [] for a status outside 2xx; a transport error fails |
| GitHub.TreeLines | src/collectors/github.py:131-139 | no more lines than tree items |
| GitHub.ListTree | src/collectors/github.py:131-139 | the loop appends one line per dict item, in order |
| GitHub.TreeLinesMatchDicts | src/collectors/github.py:131-139 | there is one line per dict item, and line k describes the k-th dict item |
| GitHub.TreeListing | src/collectors/github.py:113-142 | a status outside 2xx gives the empty listing instead of failing; a transport error fails |
| GitHub.FetchDirectoryTree | src/collectors/github.py:113-142 | the method computes the listing: "" for a status error, an undecodable body or a `tree` that is not a list, else the capped joined lines |
| GitHub.TreeLineMarksDirectories | src/collectors/github.py:134-139 | an item's line is its path, followed by `/` exactly when its type is "tree" |
| GitHub.TreeListingCapped | src/collectors/github.py:128-140 | a readable tree gives one line per dict item, in order, at most 200 |
| GitHub.FirstLine | src/collectors/github.py:76 | the first line is a prefix of the message without a newline, ending where the first newline stands |
| GitHub.CommitLines | src/collectors/github.py:73-79 | every commit entry gives `- ` plus the first line of its message; an entry that is not an object makes the run fail |
| GitHub.RenderCommits | src/collectors/github.py:71-79 | the loop renders the first five commits |
| GitHub.CommitSection | src/collectors/github.py:71-79 | no commits give no section; a non-empty section starts with "## Recent Commits" and has at most five commit lines |
| GitHub.Collect | src/collectors/github.py:36-89 | the method makes the requests and builds the outcome that the collection run describes |
| GitHub.LeadingParts | src/collectors/github.py:60-70 | the content starts with the name, description and stars/forks/language lines, then the README and directory sections when present |
| GitHub.AssembleRecord | src/collectors/github.py:60-89 | the method assembles the content parts and the single record |
| GitHub.CollectYieldsOneRecord | src/collectors/github.py:81-89 | a successful run returns exactly one record: source "github", title `full_name` or the identifier, url `html_url` or `https://github.com/{repo}`, collected now, with no publication date |
| GitHub.RepoFailureStops | src/collectors/github.py:52-94 | a failed repository request fails the run after that one request |
| GitHub.StatusErrorsTolerated | src/collectors/github.py:101-161 | status errors on the README, tree and commits give a record holding only the summary |
| GitHub.ContentStartsWithSummary | src/collectors/github.py:60-86 | the content always starts with the summary lines |
| GitHub.TreeRequestedForDefaultBranch | src/collectors/github.py:53-122 | the fourth request reads the tree of `default_branch`, or "main", recursively |
| GitHub.SectionsOnlyWhenNonEmpty | src/collectors/github.py:67-70 | the README section appears exactly for a non-empty README and holds at most its first 3000 characters; the directory section appears exactly for a non-empty listing |
| GitHub.CommitSectionOfList | src/collectors/github.py:71-79 | a non-empty commit list gives the heading and one `- ` line per commit for the first five |
| NotionMedium.Configure | src/collectors/notion_medium.py:21-31 | the database id is the argument, else `NOTION_MEDIUM_DB_ID` from the environment; construction fails with the fixed message exactly when that id is empty |
| NotionMedium.NonEmptyStr | src/collectors/notion_medium.py:49 | a keyword argument is used exactly when it is a non-empty string, and then as that string |
| NotionMedium.StartDate | src/collectors/notion_medium.py:46-55 | the start is `date_from` when it is a non-empty string; otherwise the date `days` days before now; an unreadable `days` fails |
| NotionMedium.ComputeStart | src/collectors/notion_medium.py:46-55 | the imperative branch computes exactly `StartDate` |
| NotionMedium.DateFilterBounds | src/collectors/notion_medium.py:57-71 | the filter sets the `on_or_after` bound to the start, and a `before` bound exactly when a non-empty `date_to` is given, to that value |
| NotionMedium.DateFilterShape | src/collectors/notion_medium.py:57-71 | without `date_to` the filter is the single clause; with it, an `and` of exactly two clauses |
| NotionMedium.DisplayTitle | src/collectors/notion_medium.py:97 | the display title is the Japanese title, else the title, else "Untitled", and is never empty |
| NotionMedium.KeptIff | src/collectors/notion_medium.py:99-102 | a page yields an item exactly when the keyword is empty or occurs case-insensitively in title, Japanese title, summary or author; the kept pages keep their order |
| NotionMedium.EmptyQueryKeepsAll | src/collectors/notion_medium.py:99-102 | an empty keyword converts every page, in order |
| NotionMedium.ContentLayout | src/collectors/notion_medium.py:104-115 | the content is the summary and `Author: <author>`, each present only when non-empty, joined by a newline |
| NotionMedium.Convert | src/collectors/notion_medium.py:88-119 | one page becomes the item `Record` describes (source "notion_medium", empty URL as none) |
| NotionMedium.CollectPages | src/collectors/notion_medium.py:86-120 | the loop yields exactly the converted pages that pass the keyword filter, in the order returned |
| NotionMedium.Collect | src/collectors/notion_medium.py:33-120 | an unreadable `days` fails before any query; otherwise the query sent carries the database id, the date filter and newest-first order, a query error becomes a collection error with its text, and success yields the filtered items |
| NotionMedium.RecordFields | src/collectors/notion_medium.py:94-118 | each item comes from a page that passes the keyword filter, has source "notion_medium" and the display title, no URL exactly when the page has none, and no publication date exactly when the page has no date |
| NotionPaper.Passes | src/collectors/notion_paper.py:40-59 | a page is kept exactly when it was saved at or after the cutoff (or its `saved_at` is missing or unreadable) and the keyword is empty or occurs in title, abstract or category |
| NotionPaper.Collect | src/collectors/notion_paper.py:15-78 | a `pages` argument that is not a list yields no items; an unreadable `days` fails; otherwise the items are the dict pages that pass both checks, converted, in order |
| NotionPaper.CollectPages | src/collectors/notion_paper.py:35-78 | the loop returns exactly the dict pages that pass both checks, converted, in their list order |
| NotionPaper.PapersSnoc | src/collectors/notion_paper.py:36-77 | one more entry adds its item when it is a dict page passing both checks, and nothing otherwise |
| NotionPaper.KeptIff | src/collectors/notion_paper.py:36-59 | a page yields an item exactly when it is a dict of the list, saved since the cutoff, and matches the keyword; the kept pages keep their order |
| NotionPaper.NoFilterKeepsEveryDict | src/collectors/notion_paper.py:36-59 | with no keyword and no `saved_at` anywhere, every dict page is converted, in order, and non-dict entries are skipped |
| NotionPaper.ContentLayout | src/collectors/notion_paper.py:61-74 | with authors, category and abstract present the content is the authors line, the category line, a blank line and the abstract |
| NotionPaper.ContentOmitsEmpty | src/collectors/notion_paper.py:61-74 | empty parts leave no line: no parts give empty content, an abstract alone is preceded only by its blank line, and authors alone are one line |
| NotionPaper.RecordFields | src/collectors/notion_paper.py:51-76 | each item has source "notion_paper", "Untitled" for a missing title, no URL exactly when the URL is empty, no publication date, and comes from a dict page of the list |
| NotionNews.Passes | src/collectors/notion_news.py:40-55 | a page is kept exactly when it was saved since the cutoff (or has no readable `saved_at`) and the keyword is empty or occurs in the title or, failing that, in the summary |
| NotionNews.Collect | src/collectors/notion_news.py:15-66 | a `pages` argument that is not a list yields no items; an unreadable `days` fails; otherwise the items are the dict pages that pass both checks, converted, in order |
| NotionNews.CollectPages | src/collectors/notion_news.py:35-66 | the loop returns exactly the dict pages that pass both checks, converted, in their list order |
| NotionNews.NewsSnoc | src/collectors/notion_news.py:36-65 | one more entry adds its item when it is a dict page passing both checks, and nothing otherwise |
| NotionNews.KeptIff | src/collectors/notion_news.py:36-55 | a page yields an item exactly when it is a dict of the list, saved since the cutoff, and matches the keyword in its title or summary; the kept pages keep their order |
| NotionNews.RecordFields | src/collectors/notion_news.py:57-64 | each item has source "notion_news", the summary as content, "Untitled" for a missing title, no URL for a missing one, and comes from a dict page of the list |
| Collecting.DaysArg | src/collectors/notion_paper.py:31-32 | `days` defaults to 7, an int is taken as is, a string is read as an integer (failing when unreadable), any other value gives 7 |
| Collecting.ListArg | src/collectors/notion_paper.py:27-29 | a missing `pages` is the empty list; a value that is not a list makes `collect` return at once |
| Collecting.CheckSavedAt | src/collectors/notion_paper.py:40-49 | the imperative check computes `SavedSince`: a page is dropped only when its timestamp is present, parses, and lies before the cutoff |
| Collecting.SavedSinceIff | src/collectors/notion_paper.py:40-49 | the check fails exactly when there is a parsed timestamp earlier than the cutoff |
| Collecting.OrNone | src/collectors/notion_paper.py:73 | `str or None`: none exactly for the empty string, else the string itself |
| Collecting.DictsSnoc | src/collectors/notion_paper.py:36-38 | keeping the dict entries of a list extended by one entry adds that entry exactly when it is a dict |
| Collecting.DictsMembership | src/collectors/notion_paper.py:36-38 | a dict is among the kept entries exactly when it is an entry of the list |
| Collecting.DictsOfDicts | src/collectors/notion_paper.py:36-38 | a list with no dicts keeps nothing; a list of dicts keeps every entry, in order |
| WebSearch.Collect | src/collectors/web_search.py:15-45 | a `results` argument that is not a list yields no items; otherwise every dict result becomes one item, in order, and other entries are skipped; the query is not used |
| WebSearch.ItemsOfResults | src/collectors/web_search.py:33-44 | each item comes from a dict result of the list, has source "web_search" and the one collection time, and defaults to "Untitled", an empty URL (not none) and empty content; a list of dicts gives one item per result |
| UrlFetcher.Head | src/collectors/url_fetcher.py:22 | the part before a separator is the whole text when the separator is absent |
| UrlFetcher.FindLast | src/collectors/url_fetcher.py:22 | the last occurrence of a character: it is that character and none follows; none exactly when it is absent |
| UrlFetcher.Hostname | src/collectors/url_fetcher.py:28 | a host name found by the URL split is never empty |
| UrlFetcher.RaisedSource | src/errors.py:23-28 | every failure except the unsplittable URL is raised as a collection error whose text starts with `[url_fetcher] ` |
| UrlFetcher.SanitizeNoop | src/collectors/url_fetcher.py:22 | a URL with no leading control or space character and no tab or newline is split as written |
| UrlFetcher.SplitSchemeOf | src/collectors/url_fetcher.py:22-23 | a valid scheme before `:` is found, lower-cased, with the rest after it |
| UrlFetcher.NetlocOf | src/collectors/url_fetcher.py:22 | the network location is what lies between `//` and the first `/`, `?` or `#` |
| UrlFetcher.ComposedSanitized | src/collectors/url_fetcher.py:22 | a URL built from a valid scheme, a network location and a path is split as written |
| UrlFetcher.SplitOf | src/collectors/url_fetcher.py:22 | such a URL splits into the lower-cased scheme and the network location, and fails when its brackets are unbalanced or misplaced |
| UrlFetcher.NoBracketNotMisplaced | src/collectors/url_fetcher.py:22 | a network location without `[` passes the bracket-placement check |
| UrlFetcher.BracketPlacement | src/collectors/url_fetcher.py:22 | a bracketed host is misplaced exactly when text precedes the `[` or something other than a `:` port follows the `]` |
| UrlFetcher.HostnameOfPart | src/collectors/url_fetcher.py:28 | the host name is the host part lower-cased |
| UrlFetcher.HostInfoNoUser | src/collectors/url_fetcher.py:28 | without `@` the host information is the whole network location |
| UrlFetcher.HostInfoAfterUser | src/collectors/url_fetcher.py:28 | the user information before the last `@` is dropped |
| UrlFetcher.HostPartBeforePort | src/collectors/url_fetcher.py:28 | the port after `:` is dropped from a plain host |
| UrlFetcher.HostPartBracketed | src/collectors/url_fetcher.py:28 | a bracketed address is taken without its brackets |
| UrlFetcher.HostnamePlain | src/collectors/url_fetcher.py:28 | a plain host is its own host name, lower-cased; an empty one has none |
| UrlFetcher.HostnameUserPort | src/collectors/url_fetcher.py:28 | user information and port do not change the host name |
| UrlFetcher.HostnameLoopback | src/collectors/url_fetcher.py:28 | `[::1]`, with or without a port, has the host name `::1` |
| UrlFetcher.VerdictOfHost | src/collectors/url_fetcher.py:20-32 | a URL with an http or https scheme is accepted exactly when its host name is absent or not a local one; otherwise it is refused as local |
| UrlFetcher.AcceptedIff | src/collectors/url_fetcher.py:20-32 | an http(s) URL with a plain host is accepted exactly when the host, lower-cased, is not `localhost`, `127.0.0.1` or `::1` |
| UrlFetcher.OtherSchemeRefused | src/collectors/url_fetcher.py:23-27 | any other scheme is refused, naming the scheme in lower case |
| UrlFetcher.LocalHostThroughUserAndPort | src/collectors/url_fetcher.py:28-32 | a local host stays refused behind user information and a port |
| UrlFetcher.LoopbackV6Refused | src/collectors/url_fetcher.py:28-32 | the bracketed IPv6 loopback is refused, with or without a port |
| UrlFetcher.SchemelessRefused | src/collectors/url_fetcher.py:23-27 | a URL without a scheme is refused with an empty scheme |
| UrlFetcher.MisplacedBracketInvalid | src/collectors/url_fetcher.py:22 | text before a bracketed host, or anything but a port after it, fails the split with `ValueError` before the scheme and host checks |
| UrlFetcher.FindClose | src/collectors/url_fetcher.py:78 | the closing tag found is the first one from the given position; none when there is none |
| UrlFetcher.BlockFor | src/collectors/url_fetcher.py:78 | a script or style block found is non-empty, lies inside the text, and is replaced by nothing |
| UrlFetcher.TagsToSpacesTagFree | src/collectors/url_fetcher.py:80 | after tags become spaces, no `<`…`>` tag is left |
| UrlFetcher.ExtractTextShape | src/collectors/url_fetcher.py:75-83 | the extracted text has no tags, no whitespace at either end, and only single spaces between words |
| UrlFetcher.ExtractTextIdempotent | src/collectors/url_fetcher.py:75-83 | extracting the text of extracted text changes nothing |
| UrlFetcher.PlainPrefix | src/collectors/url_fetcher.py:78-80 | text before the first `<` passes through both substitutions unchanged |
| UrlFetcher.TagReplaced | src/collectors/url_fetcher.py:80 | a tag after plain text becomes one space |
| UrlFetcher.BlockDroppedAfter | src/collectors/url_fetcher.py:78 | a script or style block after plain text is removed with its contents |
| UrlFetcher.TitleAt | src/collectors/url_fetcher.py:88 | a title found at a position is shorter than the text it is found in |
| UrlFetcher.TitleFound | src/collectors/url_fetcher.py:86-90 | the title is the stripped text between the first `<title…>` and the first `</title>` after it |
| UrlFetcher.NoTitleUntitled | src/collectors/url_fetcher.py:86-91 | with no `<title` tag the title is "Untitled" |
| UrlFetcher.UnclosedTitle | src/collectors/url_fetcher.py:86-91 | with no closing `</title>` the title is "Untitled" |
| UrlFetcher.TitleStripped | src/collectors/url_fetcher.py:86-91 | the title is "Untitled", empty, or has no whitespace at either end |
| UrlFetcher.Collect | src/collectors/url_fetcher.py:34-72 | the URL is requested exactly when it passes validation; a refused URL fails with its validation error, a fetch error and a non-2xx status fail with their texts, and success yields one item |
| UrlFetcher.ItemShape | src/collectors/url_fetcher.py:56-72 | the item has source "url_fetcher" and the URL; an HTML page gives the extracted text and title, anything else the raw text with the URL as title |
| UrlFetcher.RefusedNotFetched | src/collectors/url_fetcher.py:47-52 | a refused URL is never requested, whatever the network would have answered |
| UrlFetcher.LocalHostNotFetched | src/collectors/url_fetcher.py:28-32 | a URL naming a local host fails as local, and is not requested |
| Models.ParseContentType | src/models/blog_post.py:8-17 | a string is accepted as a content type only when it is that type's tag |
| Models.ContentTypeRoundTrip | src/models/blog_post.py:8-17 | every content type's tag is read back as that type |
| Models.ParseStatus | src/models/blog_post.py:19 | a string is accepted as a post status only when it is that status's tag |
| Models.StatusRoundTrip | src/models/blog_post.py:19 | every post status's tag is read back as that status |
| Models.ArgOrEnv | src/collectors/notion_medium.py:26 | a non-empty argument wins; otherwise the environment variable, or the empty string when it is unset |
| Templates.Create | src/templates/__init__.py:6-13 | each kind's `create_template` builds a template of that kind |
| Templates.Creators | src/templates/__init__.py:22-31 | the creators' list has eight templates |
| Templates.CreatorKinds | src/templates/__init__.py:22-31 | the creators build the templates of weekly AI news, paper review, project intro, tool tips, market analysis, ML practice, CV and feature, in that order |
| Templates.CreatorAt | src/templates/__init__.py:22-31 | each kind's template stands at that kind's place in the creators' list |
| Templates.IndexOf | src/templates/__init__.py:22-31 | every kind has a place in the creators' order, holding that kind |
| Templates.OrderIndex | src/templates/__init__.py:22-31 | no kind appears twice in the creators' order |
| Templates.TemplatesWellFormed | tests/unit/templates/test_templates.py:48-56 | every template has a name, a description, a positive minimum below its maximum, sections and a style guide |
| Templates.Fill | src/templates/__init__.py:32-34 | each template is stored under its own content-type string, and every template added has an entry |
| Templates.KeyOrder | src/templates/__init__.py:32-34 | the key order lists exactly the keys of the dictionary |
| Templates.FillStep | src/templates/__init__.py:32-34 | one assignment adds or replaces one entry; a new key goes last and an existing key keeps its place |
| Templates.KeyOrderLists | src/templates/__init__.py:32-34 | no key appears twice in the key order |
| Templates.FillDistinct | src/templates/__init__.py:32-34 | templates with distinct keys each keep their own entry, listed in the order they were added |
| Templates.InCreatorOrderOnePerKind | src/templates/__init__.py:22-34 | templates in the creators' order hold exactly one template per content type |
| Templates.FilledOnePerKind | src/templates/__init__.py:32-34 | filled with one template per kind, the registry has an entry exactly for each content-type string, and it is the template of that type |
| Templates.ListedInOrder | src/templates/__init__.py:56-63 | read in key order, the filled registry gives back the creators' templates in their order |
| Templates.Values | src/templates/__init__.py:63 | the loop returns the value of each key, in key order |
| Templates.Registry.constructor | src/templates/__init__.py:15 | the registry starts empty |
| Templates.Registry.Init | src/templates/__init__.py:18-34 | an empty registry is filled from the creators in order; a filled one is left unchanged |
| Templates.Registry.GetTemplate | src/templates/__init__.py:37-53 | after initialising, a template is returned exactly when the string names a content type, and it is the template of that type; any other string raises the not-found error naming it |
| Templates.Registry.ListTemplates | src/templates/__init__.py:56-63 | after initialising, the templates are listed in the creators' order, eight with distinct kinds |
| BlogPostGenerator.DraftStore.constructor | src/generators/blog_post.py:16-17 | the store starts with the files already under the base directory |
| Collecting.Dicts | src/collectors/notion_paper.py:36-38 | keeping the dict entries never lengthens the list |
| Common.MissingNames | src/publishers/wordpress.py:29-36 | the missing settings are reported among the setting names, and none exactly when every value is non-empty |
| Common.MissingNamesExact | src/publishers/wordpress.py:29-36 | a setting is reported exactly when its value is empty |
| Common.NatToString | src/generators/blog_post.py:66 | a section number is written in decimal digits, without a leading zero |
| Common.IntToString | src/errors.py:34-37 | a status code is written as a non-empty decimal, with a minus sign exactly when negative |
| Common.ParseInt | src/collectors/notion_paper.py:32 | `int("")` fails |
| Common.IntToStringRoundTrip | src/collectors/notion_paper.py:32 | `int(str(i)) == i` for every integer |
| Common.StripFramed | src/collectors/github.py:48 | `strip` removes only stripped characters, from both ends, and keeps the middle of the string as it is |
| DateTimes.DateStamp | src/generators/blog_post.py:135 | `%Y%m%d` is eight characters |
| DateTimes.YearMonthPath | src/generators/blog_post.py:199 | `%Y/%m` is seven characters with the slash at the fifth |
| DateTimes.ParseIso | src/generators/blog_post.py:181-182 | `fromisoformat` only yields valid dates and times |
| DateTimes.IsoRoundTrip | src/generators/blog_post.py:141-182 | a valid time written by `isoformat` is read back unchanged |
| DateTimes.IsoDate | src/collectors/notion_medium.py:55 | `%Y-%m-%d` is ten characters with dashes at the fifth and eighth |
| DateTimes.IsoDateIsIsoPrefix | src/collectors/notion_medium.py:55 | the `%Y-%m-%d` date is the first ten characters of `isoformat` |
| DateTimes.EarlierIsStrictTotalOrder | src/collectors/notion_paper.py:46 | the comparison with the cutoff is a strict total order |

## Left out

- HTTP transport: clients, timeouts, redirects and JSON decoding. A response arrives decoded or marked undecodable, and exception texts from `httpx` are inputs.
- OAuth 1.0a request signing for X (`authlib`) and the Basic authentication header for WordPress are foreign library calls.
- `asyncio` scheduling, the pause between thread posts, and logging.
- `src/collectors/gemini.py` (a subprocess call) is not part of this model.
- The Notion base collector (`_query_database`, the `_extract_*` helpers) is not part of this model. Its pages arrive as already-extracted strings.
- `markdown_to_html` and the `frontmatter` file format are foreign libraries. The WordPress HTML is a parameter, and a stored document is a metadata map plus a body.
- `Markdown.GenerateSlug`: NFKC normalisation is taken as the identity, which is exact for ASCII titles only.
- `Common.Lower`: `str.lower()` and `re.IGNORECASE` lower ASCII letters only. Python also folds non-ASCII letters, so case-insensitive matches on non-ASCII text (Notion keyword filters, WordPress names, HTML tag names) can differ.
- `Common.ParseInt`: accepts an optional sign and decimal digits only. Python's `int()` also strips surrounding whitespace and accepts `_` separators.
- `UrlFetcher.Split`: models the parts of `urlparse` that decide validation (scheme, network location, bracket balance, text before `[` and after `]`). The check of characters inside brackets and the NFKC check of the network location are not modelled, and redirects followed by the client are not validated, as in the source.
- `Json.Str`: a nested list or dict is rendered as the empty string, not as Python's `repr` (`"['a']"`, `"{'k': 1}"`), and a float keeps its JSON text instead of Python's float `repr` (`1e16` is not rewritten as `1e+16`, nor `1.50` as `1.5`). This reaches `StrField` in every collector, the X error `detail` and the WordPress rejection message.
- `Json.IsTruthy`: a float is false only when written `0.0` or `-0.0`; other spellings of zero (`0.00`, `0e0`) count as true.
- `WordPress.PostIdOf`: a string id is read with `Common.ParseInt` and a float id only in the plain `digits.zeros` form. Other forms pydantic may accept (surrounding whitespace, `_` separators, a `.0` fraction in a string, an exponent) are taken as a `ValidationError`.
- `BlogPostGenerator.DraftStore.SaveDraft`: a failed write leaves the files as they were. A partly written file, or directories created before the failure, are not modelled.
- `datetime.now`, the `days`-ago computation and `fromisoformat` for Notion timestamps are parameters.
- `DateTimes.ParseIso` accepts only `YYYY-MM-DDTHH:MM:SS+00:00` and `YYYY-MM-DDTHH:MM:SS.ffffff+00:00`, the forms `isoformat` writes for UTC times. Python's `fromisoformat` also accepts other forms, which the model refuses: a date alone, a time without an offset (a naive datetime), the suffix `Z`, offsets other than `+00:00`, fractions of other than six digits, and a space in place of `T`. A hand-edited draft date in one of those forms loads in Python but is `InvalidField("date")` here.
- `BlogPostGenerator.DraftStore.MoveToPublished`: a write that fails part way is taken to write nothing, and the directories `mkdir` creates are not modelled.
- The concrete slug examples of the integration tests (`"AI最新ニュース2026年2月号"` → `"ai20262"`) are not stated as lemmas. Evaluating the scanners on literal text is beyond the verifier's resource limit. The general slug properties are proved instead.
- The unit test that expects `"あ" * 280` to be a valid tweet is not encoded. By the source's ranges that text weighs 560 and is rejected, and the model follows the code.
- `Templates.Registry.Init`: builds the dictionary in local variables and stores it in the fields once the loop ends. The source assigns into the module-level dictionary inside the loop. No other code runs in between, so the visible result is the same.
- `Templates.Registry.constructor`: takes the creators' templates as a parameter, as described above.
- The template modules are data. Each is one constant whose contents are those of its `create_template`; only their kinds and required fields are stated.
