/** `src/generators/blog_post.py`: building an article, the prompt context for
    writing it, and the article store: drafts under `docs/drafts`, published
    articles under `docs/posts`. The store is a map from a path relative to the
    base directory to a front-matter document; the clock is a parameter. */
module BlogPostGenerator {
  import opened Common
  import opened DateTimes
  import opened Json
  import opened Models
  import opened Markdown

  // ---------------------------------------------------------------------------
  // Building an article
  // ---------------------------------------------------------------------------

  /** `generate`: a new draft whose slug comes from the title, created `now`. */
  function Generate(contentType: ContentType, title: string, content: string, subtitle: Option<string>,
                    now: DateTime): (p: BlogPost)
    ensures p.status == Draft && IsSlug(p.slug) && p.slug == GenerateSlug(title)
    ensures p.title == title && p.subtitle == subtitle && p.content == content && p.contentType == contentType
    ensures p.categories == [] && p.tags == [] && p.createdAt == now
    ensures p.publishedAt.None? && p.wordpressId.None? && p.wordpressUrl.None?
  {
    GenerateSlugIsSlug(title);
    BlogPost(title, subtitle, content, contentType, Draft, GenerateSlug(title), [], [], now, None, None, None)
  }

  // ---------------------------------------------------------------------------
  // The prompt context
  // ---------------------------------------------------------------------------

  const OptionalMark: string := "（任意）"
  const ContentLimit: nat := 2000

  /** The heading line of section number `n`, marked when it is optional. */
  function SectionHeading(n: nat, s: TemplateSection): string {
    NatToString(n) + ". **" + s.title + "**" + (if s.required then "" else OptionalMark)
  }

  /** The two lines of each section, numbered from 1. */
  function SectionLines(sections: seq<TemplateSection>): (r: seq<string>)
    ensures |r| == 2 * |sections|
  {
    if sections == [] then []
    else
      var n := |sections|;
      SectionLines(sections[..n - 1]) + [SectionHeading(n, sections[n - 1]), "   " + sections[n - 1].description]
  }

  /** The lines of one collected item: its heading, its URL when it has one, its
      content cut to `ContentLimit` characters, and a blank line. */
  function DataEntry(d: CollectedData): (r: seq<string>)
    ensures |r| == if Truthy(d.url) then 4 else 3
    ensures r[|r| - 2] == Take(d.content, ContentLimit) && r[|r| - 1] == ""
  {
    ["### [" + d.source + "] " + d.title]
    + (if Truthy(d.url) then ["URL: " + d.url.value] else [])
    + [Take(d.content, ContentLimit), ""]
  }

  function DataLines(data: seq<CollectedData>): seq<string> {
    if data == [] then [] else DataLines(data[..|data| - 1]) + DataEntry(data[|data| - 1])
  }

  function Header(t: ContentTemplate): (r: seq<string>)
    ensures |r| == 6
  {
    ["# 記事テンプレート: " + t.name,
     "タイプ: " + ContentTypeTag(t.contentType),
     "文字数目安: " + IntToString(t.minWords) + "〜" + IntToString(t.maxWords) + "字",
     "文体: " + t.styleGuide,
     "",
     "## セクション構成"]
  }

  /** Everything after the section list: the topic, the reference URL and the
      collected data, each only when given. */
  function Extras(topic: Option<string>, sourceUrl: Option<string>, data: seq<CollectedData>): seq<string> {
    (if Truthy(topic) then [TopicBlock(topic.value)] else [])
    + (if Truthy(sourceUrl) then [UrlBlock(sourceUrl.value)] else [])
    + (if data != [] then [DataHeading] + DataLines(data) else [])
  }

  function TopicBlock(topic: string): string {
    "## トピック\n" + topic + "\n"
  }

  function UrlBlock(url: string): string {
    "## 参照URL\n" + url + "\n"
  }

  const DataHeading: string := "## 収集データ"

  /** The lines of the prompt context, before they are joined. */
  function PromptParts(t: ContentTemplate, topic: Option<string>, sourceUrl: Option<string>,
                       data: seq<CollectedData>): seq<string> {
    Header(t) + SectionLines(t.sections) + [""] + Extras(topic, sourceUrl, data)
  }

  /** The loop over the sections: two lines each, numbered from 1. */
  method AppendSections(parts0: seq<string>, sections: seq<TemplateSection>) returns (parts: seq<string>)
    ensures parts == parts0 + SectionLines(sections)
  {
    parts := parts0;
    var i := 0;
    while i < |sections|
      invariant 0 <= i <= |sections|
      invariant parts == parts0 + SectionLines(sections[..i])
    {
      assert sections[..i + 1][..i] == sections[..i];
      var section := sections[i];
      var mark := if section.required then "" else OptionalMark;
      parts := parts + [NatToString(i + 1) + ". **" + section.title + "**" + mark];
      parts := parts + ["   " + section.description];
      i := i + 1;
    }
    assert sections[..i] == sections;
  }

  /** The loop over the collected items. */
  method AppendData(parts0: seq<string>, data: seq<CollectedData>) returns (parts: seq<string>)
    ensures parts == parts0 + DataLines(data)
  {
    parts := parts0;
    var j := 0;
    while j < |data|
      invariant 0 <= j <= |data|
      invariant parts == parts0 + DataLines(data[..j])
    {
      assert data[..j + 1][..j] == data[..j];
      var d := data[j];
      parts := parts + ["### [" + d.source + "] " + d.title];
      if Truthy(d.url) {
        parts := parts + ["URL: " + d.url.value];
      }
      parts := parts + [Take(d.content, ContentLimit)];
      parts := parts + [""];
      j := j + 1;
    }
    assert data[..j] == data;
  }

  /** `build_prompt_context`: the lines are collected in order and joined with
      newlines. */
  method BuildPromptContext(t: ContentTemplate, topic: Option<string>, sourceUrl: Option<string>,
                            data: seq<CollectedData>) returns (context: string)
    ensures context == Join("\n", PromptParts(t, topic, sourceUrl, data))
  {
    var parts := AppendSections(Header(t), t.sections);
    parts := parts + [""];
    var extras := AppendExtras(topic, sourceUrl, data);
    context := Join("\n", parts + extras);
  }

  /** The optional blocks after the section list. */
  method AppendExtras(topic: Option<string>, sourceUrl: Option<string>, data: seq<CollectedData>)
    returns (extras: seq<string>)
    ensures extras == Extras(topic, sourceUrl, data)
  {
    extras := [];
    if Truthy(topic) {
      extras := extras + [TopicBlock(topic.value)];
    }
    if Truthy(sourceUrl) {
      extras := extras + [UrlBlock(sourceUrl.value)];
    }
    if data != [] {
      extras := AppendData(extras + [DataHeading], data);
    }
  }

  /** Section `k` (from 0) is announced as number `k + 1`, with the optional mark
      exactly when it is not required, and followed by its description. */
  lemma {:induction false} SectionLinesAt(sections: seq<TemplateSection>, k: nat)
    requires k < |sections|
    ensures SectionLines(sections)[2 * k] == SectionHeading(k + 1, sections[k])
    ensures SectionLines(sections)[2 * k + 1] == "   " + sections[k].description
  {
    var n := |sections|;
    if k < n - 1 {
      SectionLinesAt(sections[..n - 1], k);
    }
  }

  /** The optional mark ends a heading exactly when the section is optional. */
  lemma SectionHeadingMarked(n: nat, s: TemplateSection)
    ensures !s.required <==> EndsWithOptionalMark(SectionHeading(n, s))
  {
    var h := SectionHeading(n, s);
    var m := |OptionalMark|;
    if s.required {
      assert h[|h| - 2..] == "**";
      assert h[|h| - m..][m - 2..] == h[|h| - 2..];
    } else {
      assert h[|h| - m..] == OptionalMark;
    }
  }

  predicate EndsWithOptionalMark(h: string) {
    |h| >= |OptionalMark| && h[|h| - |OptionalMark|..] == OptionalMark
  }

  /** The sections sit in the prompt right after the six header lines. */
  lemma PromptSection(t: ContentTemplate, topic: Option<string>, sourceUrl: Option<string>,
                      data: seq<CollectedData>, k: nat)
    requires k < |t.sections|
    ensures PromptParts(t, topic, sourceUrl, data)[6 + 2 * k] == SectionHeading(k + 1, t.sections[k])
  {
    SectionLinesAt(t.sections, k);
  }

  /** Every collected item contributes its content cut to `ContentLimit`. */
  lemma {:induction false} DataLinesHoldContent(data: seq<CollectedData>, k: nat)
    requires k < |data|
    ensures Take(data[k].content, ContentLimit) in DataLines(data)
  {
    var n := |data|;
    var e := DataEntry(data[n - 1]);
    assert e[|e| - 2] == Take(data[n - 1].content, ContentLimit);
    if k < n - 1 {
      DataLinesHoldContent(data[..n - 1], k);
      assert data[..n - 1][k] == data[k];
    }
  }

  // ---------------------------------------------------------------------------
  // The article store
  // ---------------------------------------------------------------------------

  /** A Markdown file with front matter: its metadata and its body. */
  datatype Doc = Doc(metadata: map<string, Json>, body: string)

  datatype StoreFailure =
    | SaveFailed(path: string, message: string)
    | DestinationExists(path: string)
    | FileMissing(path: string)
    | InvalidField(key: string)
    | OsFailure(message: string)

  /** `docs/drafts/{type}/{YYYYMMDD}-{slug}.md`. */
  function DraftPath(post: BlogPost): string {
    "docs/drafts/" + ContentTypeTag(post.contentType) + "/" + DateStamp(post.createdAt) + "-" + post.slug + ".md"
  }

  /** `docs/posts/{YYYY}/{MM}/{YYYYMMDD}-{type}-{slug}.md`, dated by the moment of publication. */
  function PublishedPath(post: BlogPost, now: DateTime): string {
    "docs/posts/" + YearMonthPath(now) + "/" + DateStamp(now) + "-" + ContentTypeTag(post.contentType)
    + "-" + post.slug + ".md"
  }

  function StrList(xs: seq<string>): (j: Json)
    ensures j.JList? && |j.items| == |xs|
  {
    JList(seq(|xs|, i requires 0 <= i < |xs| => JStr(xs[i])))
  }

  /** The metadata of a saved draft: title, date, type, status and slug always;
      subtitle, categories and tags only when they have a value. */
  function DraftMetadata(post: BlogPost): (m: map<string, Json>)
    ensures Describes(m, post) && m["status"] == JStr(StatusTag(post.status))
    ensures "published_at" !in m
  {
    var always := map["title" := JStr(post.title), "date" := JStr(IsoFormat(post.createdAt)),
                      "type" := JStr(ContentTypeTag(post.contentType)), "status" := JStr(StatusTag(post.status)),
                      "slug" := JStr(post.slug)];
    var m1 := if Truthy(post.subtitle) then always["subtitle" := JStr(post.subtitle.value)] else always;
    var m2 := if post.categories != [] then m1["categories" := StrList(post.categories)] else m1;
    if post.tags != [] then m2["tags" := StrList(post.tags)] else m2
  }

  /** `m` holds every field of `post` that a draft file records, apart from
      its status. */
  predicate Describes(m: map<string, Json>, post: BlogPost) {
    && "title" in m && m["title"] == JStr(post.title)
    && "date" in m && m["date"] == JStr(IsoFormat(post.createdAt))
    && "type" in m && m["type"] == JStr(ContentTypeTag(post.contentType))
    && "status" in m
    && "slug" in m && m["slug"] == JStr(post.slug)
    && ("subtitle" in m <==> Truthy(post.subtitle))
    && (Truthy(post.subtitle) ==> m["subtitle"] == JStr(post.subtitle.value))
    && ("categories" in m <==> post.categories != [])
    && (post.categories != [] ==> m["categories"] == StrList(post.categories))
    && ("tags" in m <==> post.tags != [])
    && (post.tags != [] ==> m["tags"] == StrList(post.tags))
  }

  function DraftDoc(post: BlogPost): Doc {
    Doc(DraftMetadata(post), post.content)
  }

  /** A list of strings as the model validates it; anything else is refused. */
  function StrListOf(j: Json): (r: Option<seq<string>>)
    ensures r.Some? ==> j.JList? && |r.value| == |j.items|
  {
    if j.JList? && forall i :: 0 <= i < |j.items| ==> j.items[i].JStr? then
      Some(seq(|j.items|, i requires 0 <= i < |j.items| => j.items[i].s))
    else None
  }

  lemma StrListRoundTrip(xs: seq<string>)
    ensures StrListOf(StrList(xs)) == Some(xs)
  {
    var j := StrList(xs);
    forall i | 0 <= i < |xs| ensures j.items[i] == JStr(xs[i]) {
    }
    assert StrListOf(j).Some?;
    assert StrListOf(j).value == xs;
  }

  /** `subtitle`: `str()` of the value unless it is absent or null. */
  function ReadSubtitle(m: map<string, Json>): (r: Option<string>)
    ensures r.Some? <==> "subtitle" in m && !m["subtitle"].JNull?
  {
    if "subtitle" in m && !m["subtitle"].JNull? then Some(Str(m["subtitle"])) else None
  }

  /** `type`, which must name a content type; "weekly-ai-news" when absent. */
  function ReadType(m: map<string, Json>): (r: Option<ContentType>)
    ensures "type" !in m ==> r == Some(WeeklyAiNews)
  {
    match GetOr(m, "type", JStr("weekly-ai-news"))
    case JStr(s) => ParseContentType(s)
    case _ => None
  }

  /** `status`, which must name a status; "draft" when absent. */
  function ReadStatus(m: map<string, Json>): (r: Option<PostStatus>)
    ensures "status" !in m ==> r == Some(Draft)
  {
    match GetOr(m, "status", JStr("draft"))
    case JStr(s) => ParseStatus(s)
    case _ => None
  }

  /** `categories` or `tags`, which must be a list of strings; empty when absent. */
  function ReadList(m: map<string, Json>, key: string): (r: Option<seq<string>>)
    ensures key !in m ==> r == Some([])
  {
    StrListOf(GetOr(m, key, JList([])))
  }

  /** `date`, read with `fromisoformat`; `now` when absent. */
  function ReadDate(m: map<string, Json>, now: DateTime): Option<DateTime> {
    ParseIso(Str(GetOr(m, "date", JStr(IsoFormat(now)))))
  }

  /** `load_draft` on a document: absent keys take their defaults (type
      "weekly-ai-news", status "draft", empty title and slug, no categories or
      tags, no subtitle, and `now` for the date); a value the article model
      refuses is an error. The date is parsed while the arguments are built,
      so a date `fromisoformat` refuses is reported before any other field. */
  function ReadDraft(doc: Doc, now: DateTime): (r: Result<BlogPost, StoreFailure>)
    ensures ReadDate(doc.metadata, now).None? ==> r == Err(InvalidField("date"))
    ensures r.Ok? ==> Some(r.value.createdAt) == ReadDate(doc.metadata, now)
    ensures r.Ok? ==> r.value.content == doc.body && r.value.title == StrField(doc.metadata, "title")
    ensures r.Ok? ==> r.value.slug == StrField(doc.metadata, "slug") && r.value.subtitle == ReadSubtitle(doc.metadata)
    ensures r.Ok? ==> r.value.publishedAt.None? && r.value.wordpressId.None? && r.value.wordpressUrl.None?
  {
    var m := doc.metadata;
    var contentType := ReadType(m);
    var status := ReadStatus(m);
    var categories := ReadList(m, "categories");
    var tags := ReadList(m, "tags");
    var created := ReadDate(m, now);
    if created.None? then Err(InvalidField("date"))
    else if contentType.None? then Err(InvalidField("type"))
    else if status.None? then Err(InvalidField("status"))
    else if categories.None? then Err(InvalidField("categories"))
    else if tags.None? then Err(InvalidField("tags"))
    else Ok(BlogPost(StrField(m, "title"), ReadSubtitle(m), doc.body, contentType.value, status.value,
                     StrField(m, "slug"), categories.value, tags.value, created.value, None, None, None))
  }

  /** A document whose metadata describes `post` and names status `st` loads as
      `post` with that status and the document's body. */
  lemma ReadDescribed(m: map<string, Json>, body: string, post: BlogPost, st: PostStatus, now: DateTime)
    requires Describes(m, post) && m["status"] == JStr(StatusTag(st)) && Valid(post.createdAt)
    ensures ReadDraft(Doc(m, body), now) == Ok(Reloaded(post).(status := st, content := body))
  {
    IsoRoundTrip(post.createdAt);
    ContentTypeRoundTrip(post.contentType);
    StatusRoundTrip(st);
    StrListRoundTrip(post.categories);
    StrListRoundTrip(post.tags);
    assert ReadDate(m, now) == Some(post.createdAt);
    assert ReadType(m) == Some(post.contentType);
    assert ReadStatus(m) == Some(st);
    assert ReadList(m, "categories") == Some(post.categories);
    assert ReadList(m, "tags") == Some(post.tags);
  }

  /** A document without metadata loads with every default. */
  lemma ReadDraftDefaults(body: string, now: DateTime)
    requires Valid(now)
    ensures ReadDraft(Doc(map[], body), now) ==
      Ok(BlogPost("", None, body, WeeklyAiNews, Draft, "", [], [], now, None, None, None))
  {
    IsoRoundTrip(now);
  }

  /** What a saved draft loads back as: everything the draft holds, with an empty
      subtitle read as none, and nothing about publication. */
  function Reloaded(post: BlogPost): BlogPost {
    post.(subtitle := if Truthy(post.subtitle) then post.subtitle else None,
          publishedAt := None, wordpressId := None, wordpressUrl := None)
  }

  /** Saving a draft and loading it again gives the same article. */
  lemma SaveLoadRoundTrip(post: BlogPost, now: DateTime)
    requires Valid(post.createdAt)
    ensures ReadDraft(DraftDoc(post), now) == Ok(Reloaded(post))
  {
    ReadDescribed(DraftMetadata(post), post.content, post, post.status, now);
  }

  /** The document of a published article: the draft's metadata with the moment
      of publication and the status "published". */
  function PublishedDoc(draft: Doc, now: DateTime): (d: Doc)
    ensures d.body == draft.body
    ensures forall k :: k in d.metadata <==> k in draft.metadata || k == "published_at" || k == "status"
    ensures d.metadata["status"] == JStr("published") && d.metadata["published_at"] == JStr(IsoFormat(now))
    ensures forall k :: k in draft.metadata && k != "published_at" && k != "status" ==>
      d.metadata[k] == draft.metadata[k]
  {
    Doc(draft.metadata["published_at" := JStr(IsoFormat(now))]["status" := JStr("published")], draft.body)
  }

  /** Setting `published_at` and `status` leaves the recorded fields alone. */
  lemma DescribesIgnoresStatus(m: map<string, Json>, post: BlogPost, at: Json, status: Json)
    requires Describes(m, post)
    ensures Describes(m["published_at" := at]["status" := status], post)
  {
  }

  /** A published draft loads as the same article with the status "published". */
  lemma PublishedDraftLoads(m: map<string, Json>, body: string, post: BlogPost, now: DateTime, later: DateTime)
    requires Describes(m, post) && Valid(post.createdAt)
    ensures ReadDraft(PublishedDoc(Doc(m, body), now), later) == Ok(Reloaded(post).(status := Published, content := body))
  {
    DescribesIgnoresStatus(m, post, JStr(IsoFormat(now)), JStr("published"));
    ReadDescribed(PublishedDoc(Doc(m, body), now).metadata, body, post, Published, later);
  }

  /** The files under the base directory, and the generator's operations on them. */
  class DraftStore {
    var files: map<string, Doc>

    constructor(initial: map<string, Doc>)
      ensures files == initial
    {
      files := initial;
    }

    /** `save_draft`: writes the draft at its path, replacing any file there.
        `writeError` is the message of the `OSError` the write raises, if it
        does; it becomes a `DraftSaveError` naming the path, and no file changes. */
    method SaveDraft(post: BlogPost, writeError: Option<string>) returns (r: Result<string, StoreFailure>)
      modifies this
      ensures writeError.None? ==> r == Ok(DraftPath(post)) && files == old(files)[DraftPath(post) := DraftDoc(post)]
      ensures writeError.Some? ==> r == Err(SaveFailed(DraftPath(post), writeError.value)) && files == old(files)
    {
      var path := "docs/drafts/" + ContentTypeTag(post.contentType) + "/" + DateStamp(post.createdAt) + "-"
                  + post.slug + ".md";
      if writeError.Some? {
        return Err(SaveFailed(path, writeError.value));
      }
      files := files[path := Doc(DraftMetadata(post), post.content)];
      r := Ok(path);
    }

    /** `load_draft`: a missing file is an error. */
    function LoadDraft(path: string, now: DateTime): (r: Result<BlogPost, StoreFailure>)
      reads this
      ensures path !in files ==> r == Err(FileMissing(path))
      ensures path in files ==> r == ReadDraft(files[path], now)
    {
      if path in files then ReadDraft(files[path], now) else Err(FileMissing(path))
    }

    /** `move_to_published`: refuses when the destination exists, and then
        touches nothing; otherwise reads the draft, writes the published
        document and only then deletes the draft. `writeError` is the `OSError`
        the directory creation or the write raises (nothing is written);
        `unlinkError` the one deleting the draft raises (the published copy is
        already written and the draft stays). */
    method MoveToPublished(post: BlogPost, draftPath: string, now: DateTime,
                           writeError: Option<string>, unlinkError: Option<string>)
      returns (r: Result<string, StoreFailure>)
      modifies this
      ensures PublishedPath(post, now) in old(files) ==>
        r == Err(DestinationExists(PublishedPath(post, now))) && files == old(files)
      ensures PublishedPath(post, now) !in old(files) && draftPath !in old(files) ==>
        r == Err(FileMissing(draftPath)) && files == old(files)
      ensures PublishedPath(post, now) !in old(files) && draftPath in old(files) && writeError.Some? ==>
        r == Err(OsFailure(writeError.value)) && files == old(files)
      ensures PublishedPath(post, now) !in old(files) && draftPath in old(files) && writeError.None? && unlinkError.Some? ==>
        && r == Err(OsFailure(unlinkError.value))
        && files == old(files)[PublishedPath(post, now) := PublishedDoc(old(files)[draftPath], now)]
      ensures PublishedPath(post, now) !in old(files) && draftPath in old(files) && writeError.None? && unlinkError.None? ==>
        && r == Ok(PublishedPath(post, now))
        && files == old(files)[PublishedPath(post, now) := PublishedDoc(old(files)[draftPath], now)] - {draftPath}
        && PublishedPath(post, now) in files && draftPath !in files
    {
      var dest := PublishedPath(post, now);
      if dest in files {
        return Err(DestinationExists(dest));
      }
      if draftPath !in files {
        return Err(FileMissing(draftPath));
      }
      var doc := files[draftPath];
      var metadata := doc.metadata["published_at" := JStr(IsoFormat(now))];
      metadata := metadata["status" := JStr("published")];
      if writeError.Some? {
        return Err(OsFailure(writeError.value));
      }
      files := files[dest := Doc(metadata, doc.body)];
      if unlinkError.Some? {
        return Err(OsFailure(unlinkError.value));
      }
      files := files - {draftPath};
      r := Ok(dest);
    }
  }

  /** Saving and then loading through the store gives the saved article back. */
  method SaveThenLoad(store: DraftStore, post: BlogPost, now: DateTime) returns (loaded: Result<BlogPost, StoreFailure>)
    requires Valid(post.createdAt)
    modifies store
    ensures loaded == Ok(Reloaded(post))
  {
    var saved := store.SaveDraft(post, None);
    loaded := store.LoadDraft(saved.value, now);
    SaveLoadRoundTrip(post, now);
  }
}
