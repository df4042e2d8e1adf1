/** `src/templates/__init__.py`: the registry of content templates, a
    dictionary filled on first use with the template of every article kind and
    then read by `get_template` and `list_templates`. The templates themselves
    are the data of the modules beside it in `src/templates`. */
module Templates {
  import opened Common
  import opened Models

  /** `src/templates/weekly_ai_news.py`: `create_template`. */
  const WeeklyAiNewsTemplate: ContentTemplate := ContentTemplate(
    WeeklyAiNews,
    "週刊AIニュースハイライト",
    "過去1週間のAI関連ニュースを厳選して紹介する記事",
    3000, 5000,
    [
      TemplateSection("今週のハイライト", "最も注目すべきニュース1〜2件を詳しく解説", true),
      TemplateSection("主要ニュースまとめ", "3〜5件のニュースを簡潔にまとめる", true),
      TemplateSection("業界動向・トレンド", "今週のニュースから読み取れる業界全体の動きを分析", true),
      TemplateSection("注目の新サービス・ツール", "新しくリリースされたAI関連サービスやツールを紹介", false),
      TemplateSection("まとめと来週の注目ポイント", "今週の総括と来週注目すべきイベント・リリース", true)
    ],
    "です・ます調。"
    + "丁寧かつ親しみやすいトーン。"
    + "技術的な内容は具体例を交えてわかりやすく解説する。"
    + "タイトルは「【週刊AIニュースハイライト】（{年}年{月}月第{週}週）〜{トピック1}、{トピック2}、{トピック3}〜」の形式とする。"
    + "見出し（h2/h3/h4）には「1. 」のような番号を付けないこと。"
    + "WordPressテーマ（Cocoon）が目次を自動生成する際に二重番号になるため。")

  /** `src/templates/paper_review.py`: `create_template`. */
  const PaperReviewTemplate: ContentTemplate := ContentTemplate(
    PaperReview,
    "論文解説",
    "AI/ML分野の注目論文を分かりやすく解説する記事",
    5000, 8000,
    [
      TemplateSection("論文の概要", "タイトル、著者、発表先、キーワードを含む概要", true),
      TemplateSection("背景と課題", "この研究の背景と解決しようとしている課題", true),
      TemplateSection("提案手法", "論文で提案されている手法の詳細な解説", true),
      TemplateSection("実験結果", "主要な実験結果とベースラインとの比較", true),
      TemplateSection("考察・インパクト", "実務への応用可能性や業界へのインパクトを考察", true),
      TemplateSection("まとめ", "論文の要点まとめと今後の展望", true)
    ],
    "です・ます調。"
    + "技術的に正確でありつつ、専門外の読者にも理解できるよう噛み砕いた表現を心がける。"
    + "図表の説明を丁寧に行う。")

  /** `src/templates/project_intro.py`: `create_template`. */
  const ProjectIntroTemplate: ContentTemplate := ContentTemplate(
    ProjectIntro,
    "GitHubプロジェクト紹介",
    "注目のGitHubリポジトリを紹介・レビューする記事",
    3000, 5000,
    [
      TemplateSection("プロジェクト概要", "プロジェクトの目的、主要機能、対象ユーザーを紹介", true),
      TemplateSection("技術スタック・アーキテクチャ", "使用されている技術やアーキテクチャの特徴", true),
      TemplateSection("インストール・使い方", "セットアップ手順と基本的な使い方をコード例付きで解説", true),
      TemplateSection("特徴的な機能・設計", "他のプロジェクトとの差別化ポイントや優れた設計思想", true),
      TemplateSection("まとめ・おすすめポイント", "どんな場面で活用できるかの総括", true)
    ],
    "です・ます調。"
    + "コード例を積極的に示し、実際に使えるイメージを伝える。"
    + "読者が「試してみたい」と思えるような紹介を心がける。"
    + "メインタイトルは30文字以内目安。"
    + "補足情報はサブタイトルとして分離する。")

  /** `src/templates/tool_tips.py`: `create_template`. */
  const ToolTipsTemplate: ContentTemplate := ContentTemplate(
    ToolTips,
    "ツール・Tips紹介",
    "AI開発に役立つツールやTipsを紹介する記事",
    3000, 5000,
    [
      TemplateSection("はじめに", "紹介するツール/Tipsの概要と、なぜ今注目すべきか", true),
      TemplateSection("セットアップ・導入方法", "インストール手順や初期設定をステップバイステップで解説", true),
      TemplateSection("基本的な使い方", "主要な機能や使い方をコード例・スクリーンショット付きで紹介", true),
      TemplateSection("実践的な活用例", "実際のプロジェクトでの活用シーンやユースケース", true),
      TemplateSection("まとめ・他のツールとの比較", "メリット・デメリットの整理と類似ツールとの比較", true)
    ],
    "です・ます調。"
    + "ハンズオン形式で読者が手を動かしながら読めるように。"
    + "コマンドやコード例は正確に記載する。"
    + "メインタイトルは30文字以内目安。"
    + "補足情報はサブタイトルとして分離する。")

  /** `src/templates/market_analysis.py`: `create_template`. */
  const MarketAnalysisTemplate: ContentTemplate := ContentTemplate(
    MarketAnalysis,
    "AI×株式投資・企業分析",
    "AI技術を活用した株式投資分析や企業分析の記事",
    3000, 8000,
    [
      TemplateSection("分析対象の概要", "分析対象の企業・セクター・テーマの概要", true),
      TemplateSection("AI分析手法の説明", "使用したAI分析手法やモデルの解説", true),
      TemplateSection("分析結果", "データに基づく分析結果の詳細", true),
      TemplateSection("市場動向との関連", "マクロ経済やAI業界動向との関連性を考察", true),
      TemplateSection("まとめ・投資の視点", "分析の要約と投資判断に関する考察", true)
    ],
    "です・ます調。"
    + "データに基づく客観的な分析を心がける。"
    + "投資助言ではなく情報提供・分析共有のスタンスを明確にする。"
    + "免責事項を記載する。")

  /** `src/templates/ml_practice.py`: `create_template`. */
  const MlPracticeTemplate: ContentTemplate := ContentTemplate(
    MlPractice,
    "AI×データ分析・ML開発",
    "データ分析やML開発の実践的なノウハウを共有する記事",
    3000, 8000,
    [
      TemplateSection("課題設定", "解決したい課題やプロジェクトの背景", true),
      TemplateSection("データの準備・前処理", "使用するデータの概要と前処理パイプライン", true),
      TemplateSection("モデル設計・実装", "モデルの選定理由と実装の詳細をコード付きで解説", true),
      TemplateSection("評価・結果", "モデルの評価方法と実験結果", true),
      TemplateSection("実運用のポイント", "デプロイメント、監視、改善サイクルなど実運用の知見", false),
      TemplateSection("まとめ・学び", "プロジェクトの総括と得られた知見", true)
    ],
    "です・ます調。"
    + "コード例やデータの可視化を積極的に含める。"
    + "再現可能な内容を心がけ、ライブラリのバージョン情報も記載する。"
    + "メインタイトルは30文字以内目安。"
    + "補足情報はサブタイトルとして分離する。")

  /** `src/templates/cv.py`: `create_template`. */
  const CvTemplate: ContentTemplate := ContentTemplate(
    Cv,
    "画像認識・コンピュータビジョン",
    "画像認識やコンピュータビジョンの技術解説・実践記事",
    3000, 8000,
    [
      TemplateSection("技術の概要", "扱う技術やタスクの概要と応用分野", true),
      TemplateSection("アルゴリズム・モデル解説", "使用するアルゴリズムやモデルの仕組みを解説", true),
      TemplateSection("実装・コード例", "Pythonコード例を用いた実装の詳細", true),
      TemplateSection("結果の可視化・評価", "処理結果の可視化と性能評価", true),
      TemplateSection("まとめ・応用例", "技術の要約と実世界での応用可能性", true)
    ],
    "です・ます調。"
    + "図や画像を多用し、視覚的に理解しやすい記事を心がける。"
    + "コード例はPyTorch/OpenCV等の主要フレームワークを使用する。")

  /** `src/templates/feature.py`: `create_template`. */
  const FeatureTemplate: ContentTemplate := ContentTemplate(
    Feature,
    "特集記事",
    "特定テーマを深堀りする大型特集記事",
    15000, 20000,
    [
      TemplateSection("イントロダクション", "テーマの重要性と記事全体の構成を説明", true),
      TemplateSection("背景・歴史", "テーマの背景や発展の経緯を解説", true),
      TemplateSection("現状分析", "現在の技術・市場・業界の状況を多角的に分析", true),
      TemplateSection("詳細解説（パート1）", "テーマの核心部分を掘り下げて解説", true),
      TemplateSection("詳細解説（パート2）", "別の角度から深堀りした解説", true),
      TemplateSection("実践・ケーススタディ", "実際の事例やハンズオンコンテンツ", true),
      TemplateSection("今後の展望", "将来のトレンドや期待される発展", true),
      TemplateSection("まとめ", "記事全体の要約と読者へのメッセージ", true)
    ],
    "です・ます調。"
    + "大型記事のため、目次や小見出しを効果的に使い、読者が途中から読んでも理解できる構成にする。"
    + "図表、コード例、事例を豊富に含める。"
    + "メインタイトルは30文字以内目安。"
    + "補足情報はサブタイトルとして分離する。")

  /** The template of each kind: the `create_template` of its module. */
  function Create(ct: ContentType): (t: ContentTemplate)
    ensures t.contentType == ct
  {
    match ct
    case WeeklyAiNews => WeeklyAiNewsTemplate
    case PaperReview => PaperReviewTemplate
    case ProjectIntro => ProjectIntroTemplate
    case ToolTips => ToolTipsTemplate
    case MarketAnalysis => MarketAnalysisTemplate
    case MlPractice => MlPracticeTemplate
    case Cv => CvTemplate
    case Feature => FeatureTemplate
  }

  /** The kinds in the order `_init_registry` calls their creators. */
  const CreatorOrder: seq<ContentType> :=
    [WeeklyAiNews, PaperReview, ProjectIntro, ToolTips, MarketAnalysis, MlPractice, Cv, Feature]

  /** The templates the creators return, in that order. */
  function Creators(): (ts: seq<ContentTemplate>)
    ensures |ts| == 8
  {
    MapSeq(Create, CreatorOrder)
  }

  /** The dictionary key of a template: its `content_type` string. */
  function Key(t: ContentTemplate): string {
    ContentTypeTag(t.contentType)
  }

  /** The dictionary after `_REGISTRY[template.content_type] = template` for
      each template of `ts` in turn, starting from an empty one. */
  function Fill(ts: seq<ContentTemplate>): (m: map<string, ContentTemplate>)
    ensures forall k :: k in m ==> Key(m[k]) == k
    ensures forall i :: 0 <= i < |ts| ==> Key(ts[i]) in m
    decreases |ts|
  {
    if ts == [] then map[]
    else Fill(ts[..|ts| - 1])[Key(ts[|ts| - 1]) := ts[|ts| - 1]]
  }

  /** The dictionary's key order after the same assignments: a new key goes
      last, a key already present keeps its place. */
  function KeyOrder(ts: seq<ContentTemplate>): (ks: seq<string>)
    ensures forall k :: k in ks <==> k in Fill(ts)
    decreases |ts|
  {
    if ts == [] then []
    else
      var ks := KeyOrder(ts[..|ts| - 1]);
      if Key(ts[|ts| - 1]) in ks then ks else ks + [Key(ts[|ts| - 1])]
  }

  /** One more assignment: the dictionary and its key order after the first
      `i + 1` templates, from those after the first `i`. */
  lemma FillStep(ts: seq<ContentTemplate>, i: nat)
    requires i < |ts|
    ensures Fill(ts[..i + 1]) == Fill(ts[..i])[Key(ts[i]) := ts[i]]
    ensures KeyOrder(ts[..i + 1]) == if Key(ts[i]) in KeyOrder(ts[..i]) then KeyOrder(ts[..i]) else KeyOrder(ts[..i]) + [Key(ts[i])]
  {
    assert ts[..i + 1][..i] == ts[..i];
  }

  /** No element occurs twice. */
  predicate Distinct<T(==)>(xs: seq<T>) {
    forall i, j :: 0 <= i < j < |xs| ==> xs[i] != xs[j]
  }

  /** The key order lists each key of the dictionary once. */
  lemma {:induction false} KeyOrderLists(ts: seq<ContentTemplate>)
    ensures Distinct(KeyOrder(ts))
    decreases |ts|
  {
    if ts != [] {
      KeyOrderLists(ts[..|ts| - 1]);
    }
  }

  /** With pairwise different keys, every template gets its own entry, and the
      key order is the order of the templates. */
  lemma {:induction false} FillDistinct(ts: seq<ContentTemplate>)
    requires Distinct(MapSeq(Key, ts))
    ensures KeyOrder(ts) == MapSeq(Key, ts)
    ensures forall i :: 0 <= i < |ts| ==> Fill(ts)[Key(ts[i])] == ts[i]
    decreases |ts|
  {
    if ts != [] {
      var init := ts[..|ts| - 1];
      var last := ts[|ts| - 1];
      assert ts == init + [last];
      MapSeqSnoc(Key, init, last);
      assert Distinct(MapSeq(Key, init)) by {
        forall i, j | 0 <= i < j < |init| ensures MapSeq(Key, init)[i] != MapSeq(Key, init)[j] {
          assert MapSeq(Key, ts)[i] == MapSeq(Key, init)[i] && MapSeq(Key, ts)[j] == MapSeq(Key, init)[j];
        }
      }
      FillDistinct(init);
      forall i | 0 <= i < |init| ensures Key(init[i]) != Key(last) {
        assert MapSeq(Key, ts)[i] == Key(init[i]) && MapSeq(Key, ts)[|ts| - 1] == Key(last);
      }
      assert Key(last) !in KeyOrder(init);
    }
  }

  /** A list of templates holding exactly one template of each content type. */
  predicate OnePerKind(ts: seq<ContentTemplate>) {
    Distinct(MapSeq(Key, ts)) && forall ct :: Covers(ts, ct)
  }

  /** Some template of `ts` is of kind `ct`. */
  predicate Covers(ts: seq<ContentTemplate>, ct: ContentType) {
    exists i :: 0 <= i < |ts| && ts[i].contentType == ct
  }

  /** A list of templates whose kinds are those of `CreatorOrder`, in order. */
  predicate InCreatorOrder(ts: seq<ContentTemplate>) {
    |ts| == |CreatorOrder| && forall i :: 0 <= i < |ts| ==> ts[i].contentType == CreatorOrder[i]
  }

  /** The creators return the templates of `CreatorOrder`'s kinds, each the
      one its module's `create_template` builds. */
  lemma CreatorKinds()
    ensures InCreatorOrder(Creators())
  {
    var ts := Creators();
    forall i | 0 <= i < |ts| ensures ts[i].contentType == CreatorOrder[i] {
      assert ts[i] == Create(CreatorOrder[i]);
    }
  }

  /** Each kind's template stands at the kind's place in the creators' order. */
  lemma CreatorAt(ct: ContentType)
    ensures Creators()[IndexOf(ct)] == Create(ct)
  {
  }

  /** Templates in the creators' order hold one template of each kind. */
  lemma InCreatorOrderOnePerKind(ts: seq<ContentTemplate>)
    requires InCreatorOrder(ts)
    ensures OnePerKind(ts)
  {
    OrderIndex();
    forall i, j | 0 <= i < j < |ts| ensures MapSeq(Key, ts)[i] != MapSeq(Key, ts)[j] {
      ContentTypeRoundTrip(ts[i].contentType);
      ContentTypeRoundTrip(ts[j].contentType);
      assert IndexOf(ts[i].contentType) == i && IndexOf(ts[j].contentType) == j;
    }
    forall ct ensures Covers(ts, ct) {
      assert ts[IndexOf(ct)].contentType == ct;
    }
  }

  /** Where a kind's creator stands in the creators' order. */
  function IndexOf(ct: ContentType): (i: nat)
    ensures i < |CreatorOrder| && CreatorOrder[i] == ct
  {
    match ct
    case WeeklyAiNews => 0
    case PaperReview => 1
    case ProjectIntro => 2
    case ToolTips => 3
    case MarketAnalysis => 4
    case MlPractice => 5
    case Cv => 6
    case Feature => 7
  }

  /** A registry filled from one template per kind holds a template under
      exactly the strings that name a content type, the template of that
      type, and lists them in the order they were added. */
  lemma {:induction false} FilledOnePerKind(ts: seq<ContentTemplate>)
    requires OnePerKind(ts)
    ensures KeyOrder(ts) == MapSeq(Key, ts)
    ensures forall s :: s in Fill(ts) <==> ParseContentType(s).Some?
    ensures forall s :: s in Fill(ts) ==> Fill(ts)[s].contentType == ParseContentType(s).value
  {
    FillDistinct(ts);
    forall s ensures s in Fill(ts) <==> ParseContentType(s).Some? {
      if s in Fill(ts) {
        ContentTypeRoundTrip(Fill(ts)[s].contentType);
      }
      if ParseContentType(s).Some? {
        assert Covers(ts, ParseContentType(s).value);
        var i :| 0 <= i < |ts| && ts[i].contentType == ParseContentType(s).value;
        assert Key(ts[i]) == s;
      }
    }
    forall s | s in Fill(ts) ensures Fill(ts)[s].contentType == ParseContentType(s).value {
      ContentTypeRoundTrip(Fill(ts)[s].contentType);
    }
  }

  /** Read in key order, a registry filled from templates in the creators'
      order gives back those templates in that order. */
  lemma ListedInOrder(ts: seq<ContentTemplate>)
    requires InCreatorOrder(ts)
    ensures |KeyOrder(ts)| == |ts|
    ensures forall i :: 0 <= i < |ts| ==> KeyOrder(ts)[i] in Fill(ts) && Fill(ts)[KeyOrder(ts)[i]] == ts[i]
  {
    InCreatorOrderOnePerKind(ts);
    FillDistinct(ts);
  }

  /** `IndexOf` undoes indexing into `CreatorOrder`: no kind is created twice. */
  lemma OrderIndex()
    ensures forall i :: 0 <= i < |CreatorOrder| ==> IndexOf(CreatorOrder[i]) == i
  {
  }

  /** The eight kinds named by the repository's template tests: every
      template is complete, with a name, a description, a positive minimum
      below the maximum, sections and a style guide. */
  predicate WellFormed(t: ContentTemplate) {
    t.name != [] && t.description != [] && 0 < t.minWords < t.maxWords
    && t.sections != [] && t.styleGuide != []
  }

  lemma TemplatesWellFormed(ct: ContentType)
    ensures WellFormed(Create(ct))
  {
  }

  /** `TemplateNotFoundError(content_type)`. */
  datatype NotFound = TemplateNotFound(contentType: string)

  function NotFoundText(e: NotFound): string {
    "テンプレートが見つかりません: " + e.contentType
  }

  /** `list(d.values())` for a dictionary `d` whose keys in insertion order
      are `keys`: the value of each key, in that order. */
  method Values(d: map<string, ContentTemplate>, keys: seq<string>) returns (vs: seq<ContentTemplate>)
    requires forall k :: k in keys ==> k in d
    ensures |vs| == |keys|
    ensures forall i :: 0 <= i < |keys| ==> vs[i] == d[keys[i]]
  {
    vs := [];
    var i := 0;
    while i < |keys|
      invariant 0 <= i <= |keys|
      invariant |vs| == i && forall j :: 0 <= j < i ==> vs[j] == d[keys[j]]
    {
      vs := vs + [d[keys[i]]];
      i := i + 1;
    }
  }

  /** The module-level `_REGISTRY` dictionary: its entries and the order of its
      keys, which is the order `values()` lists them in. `creators` is the
      fixed list of templates `_init_registry` adds. */
  class Registry {
    var entries: map<string, ContentTemplate>
    var order: seq<string>
    const creators: seq<ContentTemplate>

    /** Only `_init_registry` writes to the dictionary, so it is either still
        empty or filled with the creators' templates. */
    ghost predicate Valid()
      reads this
    {
      InCreatorOrder(creators)
      && ((entries == map[] && order == []) || (entries == Fill(creators) && order == KeyOrder(creators)))
    }

    /** `_REGISTRY = {}` at import, with the templates `_init_registry`
        will add: any list in the creators' order, `Creators()` being the
        repository's own (`CreatorKinds`). */
    constructor(creators: seq<ContentTemplate>)
      requires InCreatorOrder(creators)
      ensures entries == map[] && order == [] && this.creators == creators && Valid()
    {
      entries := map[];
      order := [];
      this.creators := creators;
    }

    /** `_init_registry`: fill an empty registry from the creators, in order;
        leave a filled one alone. */
    method Init()
      requires Valid()
      modifies this
      ensures Valid() && entries == Fill(creators) && order == KeyOrder(creators)
      ensures old(entries) != map[] ==> entries == old(entries) && order == old(order)
    {
      if entries != map[] {
        return;
      }
      assert Key(creators[0]) in Fill(creators);
      var registry, keys := entries, order;
      var i := 0;
      while i < |creators|
        invariant 0 <= i <= |creators|
        invariant registry == Fill(creators[..i]) && keys == KeyOrder(creators[..i])
      {
        var template := creators[i];
        FillStep(creators, i);
        if Key(template) !in keys {
          keys := keys + [Key(template)];
        }
        registry := registry[Key(template) := template];
        i := i + 1;
      }
      assert creators[..i] == creators;
      entries, order := registry, keys;
    }

    /** `get_template`: the template registered under `contentType`, which is
        there exactly when the string names a content type and is then the
        template of that type; `TemplateNotFoundError` otherwise. */
    method GetTemplate(contentType: string) returns (r: Result<ContentTemplate, NotFound>)
      requires Valid()
      modifies this
      ensures Valid() && entries == Fill(creators) && order == KeyOrder(creators)
      ensures r.Ok? <==> ParseContentType(contentType).Some?
      ensures r.Ok? ==> contentType in entries && r.value == entries[contentType] && r.value.contentType == ParseContentType(contentType).value
      ensures r.Err? ==> r.error == TemplateNotFound(contentType)
    {
      Init();
      InCreatorOrderOnePerKind(creators);
      FilledOnePerKind(creators);
      if contentType !in entries {
        return Err(TemplateNotFound(contentType));
      }
      return Ok(entries[contentType]);
    }

    /** `list_templates`: the registered templates in key order, which is
        the order their creators ran in. */
    method ListTemplates() returns (ts: seq<ContentTemplate>)
      requires Valid()
      modifies this
      ensures Valid() && entries == Fill(creators) && order == KeyOrder(creators)
      ensures ts == creators
    {
      Init();
      ts := Values(entries, order);
      ListedInOrder(creators);
      assert ts == creators;
    }
  }
}
