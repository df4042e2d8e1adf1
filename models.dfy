/** The records every component exchanges: the article (`BlogPost`), the
    collectors' output (`CollectedData`) and the publishers' outcome
    (`PublishResult`), with the two enumerations they use. */
module Models {
  import opened Common
  import opened DateTimes

  /** The eight article kinds, one per template. */
  datatype ContentType =
    | WeeklyAiNews | PaperReview | ProjectIntro | ToolTips
    | MarketAnalysis | MlPractice | Cv | Feature

  function ContentTypeTag(ct: ContentType): string {
    match ct
    case WeeklyAiNews => "weekly-ai-news"
    case PaperReview => "paper-review"
    case ProjectIntro => "project-intro"
    case ToolTips => "tool-tips"
    case MarketAnalysis => "market-analysis"
    case MlPractice => "ml-practice"
    case Cv => "cv"
    case Feature => "feature"
  }

  /** Validation of a string against the `ContentType` literal. */
  function ParseContentType(s: string): (r: Option<ContentType>)
    ensures r.Some? ==> ContentTypeTag(r.value) == s
  {
    if s == "weekly-ai-news" then Some(WeeklyAiNews)
    else if s == "paper-review" then Some(PaperReview)
    else if s == "project-intro" then Some(ProjectIntro)
    else if s == "tool-tips" then Some(ToolTips)
    else if s == "market-analysis" then Some(MarketAnalysis)
    else if s == "ml-practice" then Some(MlPractice)
    else if s == "cv" then Some(Cv)
    else if s == "feature" then Some(Feature)
    else None
  }

  /** Every content type survives being written as its tag and read back. */
  lemma ContentTypeRoundTrip(ct: ContentType)
    ensures ParseContentType(ContentTypeTag(ct)) == Some(ct)
  {
  }

  datatype PostStatus = Draft | Review | Ready | Published

  function StatusTag(st: PostStatus): string {
    match st
    case Draft => "draft"
    case Review => "review"
    case Ready => "ready"
    case Published => "published"
  }

  /** Validation of a string against the `PostStatus` literal. */
  function ParseStatus(s: string): (r: Option<PostStatus>)
    ensures r.Some? ==> StatusTag(r.value) == s
  {
    if s == "draft" then Some(Draft)
    else if s == "review" then Some(Review)
    else if s == "ready" then Some(Ready)
    else if s == "published" then Some(Published)
    else None
  }

  lemma StatusRoundTrip(st: PostStatus)
    ensures ParseStatus(StatusTag(st)) == Some(st)
  {
  }

  /** An article. `subtitle` is passed and read by the generator although the
      model class in the source does not declare it; the model follows the users. */
  datatype BlogPost = BlogPost(
    title: string,
    subtitle: Option<string>,
    content: string,
    contentType: ContentType,
    status: PostStatus,
    slug: string,
    categories: seq<string>,
    tags: seq<string>,
    createdAt: DateTime,
    publishedAt: Option<DateTime>,
    wordpressId: Option<int>,
    wordpressUrl: Option<string>)

  /** One collected item. `publishedDate` is set only by the Notion Medium collector. */
  datatype CollectedData = CollectedData(
    source: string,
    title: string,
    url: Option<string>,
    content: string,
    collectedAt: DateTime,
    publishedDate: Option<string>)

  datatype PublishResult = PublishResult(
    success: bool,
    postId: Option<int>,
    url: Option<string>,
    errorMessage: Option<string>)

  /** Python truthiness of an optional string: present and non-empty. */
  predicate Truthy(s: Option<string>) {
    s.Some? && s.value != []
  }

  /** `arg or os.environ.get(name, "")`. */
  function ArgOrEnv(arg: Option<string>, env: map<string, string>, name: string): (r: string)
    ensures Truthy(arg) ==> r == arg.value
    ensures !Truthy(arg) ==> r == (if name in env then env[name] else "")
  {
    if Truthy(arg) then arg.value else if name in env then env[name] else ""
  }

  /** One section of a content template. */
  datatype TemplateSection = TemplateSection(title: string, description: string, required: bool)

  /** A content template: its kind, its name, the word-count bounds, the ordered
      sections and the style guide. */
  datatype ContentTemplate = ContentTemplate(
    contentType: ContentType,
    name: string,
    description: string,
    minWords: int,
    maxWords: int,
    sections: seq<TemplateSection>,
    styleGuide: string)
}
