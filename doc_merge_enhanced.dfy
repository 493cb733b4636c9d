/**
 * The enhanced documentation merger (`scripts/merge_docs_enhanced.py`): which files a scan
 * admits, the keyword-weighted theme classifier, the importance score and master selection,
 * title and content cleanup, the key-section line filter and the write-then-delete order of a
 * theme merge over an in-memory folder.
 */
module DocMergeEnhanced {
  import opened Wrappers
  import opened Strings
  import opened DocCommon

  /** The theme table, in the order the classifier visits it. */
  const Themes: seq<(string, seq<string>)> := [
    ("交易记录", ["交易记录", "transaction", "记录页面", "日期筛选", "查询功能", "交易", "记录"]),
    ("资产管理", ["资产", "assets", "资产页面", "资产数据", "历史快照", "资产管理"]),
    ("预算管理", ["预算", "budget", "预算对比", "预算数据", "预算管理"]),
    ("家庭协作", ["家庭协作", "家庭管理", "协作功能", "成员管理", "家庭", "协作"]),
    ("报表统计", ["报表", "统计", "reports", "趋势图", "分析", "报表统计"]),
    ("问题修复", ["修复", "fix", "问题", "错误", "bug", "问题修复"]),
    ("功能优化", ["优化", "optimization", "改进", "enhancement", "功能优化"]),
    ("测试相关", ["测试", "test", "验证", "检查", "测试相关"]),
    ("数据库相关", ["数据库", "database", "集合", "索引", "云开发", "数据库相关"]),
    ("UI界面", ["UI", "界面", "交互", "导航", "安全区", "UI界面"]),
    ("技术文档", ["技术", "API", "接口", "架构", "设计", "技术文档"]),
    ("兼容性", ["兼容", "compatibility", "适配", "版本", "兼容性"])
  ]

  /** Name keywords and the importance each adds. */
  const Weights: seq<(string, nat)> := [
    ("合并文档", 15), ("总结", 10), ("完成", 9), ("最终", 8), ("方案", 7),
    ("报告", 6), ("记录", 5), ("分析", 4), ("计划", 3), ("指南", 2)
  ]

  /** The signal words that keep a line outside a code fence. */
  const SignalWords: seq<string> := ["问题", "解决", "修复", "优化", "结果", "总结", "完成", "实现"]

  /** The key-section output keeps at most this many lines before "...". */
  const KeyLineCap: nat := 50

  // ---------------------------------------------------------------- scanning

  /** A directory the walk does not descend into. */
  predicate PrunedDir(dir: string)
  {
    StartsWith(dir, ".") || dir == "_archived" || dir == "_backup"
  }

  /** Whether the scan reports a file: no pruned directory on its path, a supported suffix, not a merged file. */
  predicate Admitted(d: Doc)
  {
    (forall k :: 0 <= k < |d.dirs| ==> !PrunedDir(d.dirs[k]))
    && SupportedSuffix(Suffix(d.name))
    && !EndsWith(d.name, MergedSuffix)
  }

  /** `scan_documents` over the files of a directory walk, in walk order. */
  function ScanDocuments(listing: seq<Doc>): seq<Doc>
  {
    if |listing| == 0 then []
    else
      var n := |listing| - 1;
      ScanDocuments(listing[..n]) + (if Admitted(listing[n]) then [listing[n]] else [])
  }

  /** The scan reports exactly the admitted files of the walk. */
  lemma {:induction false} ScanDocumentsSpec(listing: seq<Doc>, d: Doc)
    ensures d in ScanDocuments(listing) <==> d in listing && Admitted(d)
  {
    if |listing| > 0 {
      var n := |listing| - 1;
      ScanDocumentsSpec(listing[..n], d);
      assert listing == listing[..n] + [listing[n]];
    }
  }

  // ---------------------------------------------------------------- classification

  /** The three texts a theme is matched against, each lower-cased. */
  datatype DocView = DocView(name: string, path: string, head: string)

  /** The lower-cased stem, relative path and first 2000 characters of content. */
  function View(d: Doc): DocView
  {
    DocView(Lower(DocStem(d)), Lower(RelPath(d)), Lower(Prefix(Content(d), 2000)))
  }

  /**
   * The score of one theme as the script computes it: every keyword adds 3 if it occurs in the
   * name, 2 if in the relative path and 1 if in the first 2000 characters. The texts are
   * lower-cased but the keywords are compared as written, so a keyword holding an upper-case
   * letter never matches.
   */
  function ThemeScore(v: DocView, keywords: seq<string>): nat
  {
    3 * Hits(v.name, keywords) + 2 * Hits(v.path, keywords) + Hits(v.head, keywords)
  }

  /** The intended case-insensitive score: the same weights, with the keywords lower-cased too. */
  function ThemeScoreFixed(v: DocView, keywords: seq<string>): nat
  {
    ThemeScore(v, LowerAll(keywords))
  }

  lemma {:induction false} NoUpperInLower(s: string, p: string, k: nat)
    requires k < |p| && IsUpperAscii(p[k])
    ensures !Contains(Lower(s), p)
  {
    assert p[k] !in Lower(s) by {
      forall j | 0 <= j < |s| ensures Lower(s)[j] != p[k] {
      }
    }
    MissingCharNotContained(Lower(s), p, k);
  }

  lemma {:induction false} HitsUpperOnly(s: string, keywords: seq<string>)
    requires forall i :: 0 <= i < |keywords| ==> |keywords[i]| > 0 && IsUpperAscii(keywords[i][0])
    ensures Hits(Lower(s), keywords) == 0
  {
    forall i | 0 <= i < |keywords| ensures !Contains(Lower(s), keywords[i]) {
      NoUpperInLower(s, keywords[i], 0);
    }
  }

  /**
   * As written, the keywords "UI", "API" and "UI界面" contribute nothing to any document's
   * score, whatever its name, path or content.
   */
  lemma UpperKeywordsNeverScoreAsWritten(d: Doc)
    ensures ThemeScore(View(d), ["UI", "API", "UI界面"]) == 0
  {
    var kws := ["UI", "API", "UI界面"];
    HitsUpperOnly(DocStem(d), kws);
    HitsUpperOnly(RelPath(d), kws);
    HitsUpperOnly(Prefix(Content(d), 2000), kws);
  }

  /** The lower-cased texts of an empty document named `UI.md` at the docs root. */
  lemma UiDocumentView()
    ensures View(Doc([], "UI.md", Some(""))) == DocView("ui", "ui.md", "")
  {
    var d := Doc([], "UI.md", Some(""));
    assert LastDot("UI.md") == 2;
    assert DocStem(d) == "UI";
    assert RelPath(d) == "UI.md";
    assert Content(d) == "";
  }

  /** Keywords whose first character occurs in none of the three texts score nothing. */
  lemma AbsentFirstCharsScoreZero(v: DocView, keywords: seq<string>)
    requires forall i :: 0 <= i < |keywords| ==>
      |keywords[i]| > 0 && keywords[i][0] !in v.name && keywords[i][0] !in v.path && keywords[i][0] !in v.head
    ensures ThemeScore(v, keywords) == 0
  {
    forall i | 0 <= i < |keywords| ensures !Contains(v.name, keywords[i]) && !Contains(v.path, keywords[i]) && !Contains(v.head, keywords[i]) {
      MissingCharNotContained(v.name, keywords[i], 0);
      MissingCharNotContained(v.path, keywords[i], 0);
      MissingCharNotContained(v.head, keywords[i], 0);
    }
  }

  /** A name starting with the first keyword, as written, gives the theme a positive score. */
  lemma FirstKeywordInNameScores(v: DocView, keywords: seq<string>)
    requires |keywords| > 0 && StartsWith(v.name, keywords[0])
    ensures ThemeScore(v, keywords) > 0
  {
    assert Contains(v.name, keywords[0]);
  }

  /** With the keywords lower-cased, a name starting with the lower-cased first keyword scores. */
  lemma FirstKeywordInNameScoresFixed(v: DocView, keywords: seq<string>)
    requires |keywords| > 0 && StartsWith(v.name, Lower(keywords[0]))
    ensures ThemeScoreFixed(v, keywords) > 0
  {
    FirstKeywordInNameScores(v, LowerAll(keywords));
  }

  /** The keyword list of the "UI界面" theme. */
  lemma UiThemeKeywords() returns (kws: seq<string>)
    ensures Themes[9].1 == kws == ["UI", "界面", "交互", "导航", "安全区", "UI界面"]
  {
    kws := Themes[9].1;
  }

  /** A document named `UI.md` scores 0 for the "UI界面" theme as the script computes it. */
  lemma UiDocumentMissesUiTheme()
    ensures ThemeScore(View(Doc([], "UI.md", Some(""))), Themes[9].1) == 0
  {
    UiDocumentView();
    var kws := UiThemeKeywords();
    assert kws[0][0] == 'U' && kws[1][0] == '界' && kws[2][0] == '交';
    assert kws[3][0] == '导' && kws[4][0] == '安' && kws[5][0] == 'U';
    forall c | c in "U界交导安"
      ensures c !in "ui" && c !in "ui.md" && c !in ""
    {
    }
    AbsentFirstCharsScoreZero(DocView("ui", "ui.md", ""), kws);
  }

  /** With the keywords lower-cased too, the same document scores for the "UI界面" theme. */
  lemma UiDocumentMatchesUiTheme()
    ensures ThemeScoreFixed(View(Doc([], "UI.md", Some(""))), Themes[9].1) > 0
  {
    UiDocumentView();
    var kws := UiThemeKeywords();
    assert Lower(kws[0]) == "ui";
    FirstKeywordInNameScoresFixed(DocView("ui", "ui.md", ""), kws);
  }

  /** For keywords without upper-case letters the script's score is the intended one. */
  lemma ScoresAgreeOnLowerKeywords(v: DocView, keywords: seq<string>)
    requires forall i, k :: 0 <= i < |keywords| && 0 <= k < |keywords[i]| ==> !IsUpperAscii(keywords[i][k])
    ensures ThemeScore(v, keywords) == ThemeScoreFixed(v, keywords)
  {
    assert LowerAll(keywords) == keywords by {
      forall i | 0 <= i < |keywords| ensures Lower(keywords[i]) == keywords[i] {
      }
    }
  }

  /**
   * A theme scores zero exactly when none of its keywords, as written, occurs in the lower-cased
   * name, path or content prefix.
   */
  lemma ThemeScoreZeroIff(v: DocView, keywords: seq<string>)
    ensures ThemeScore(v, keywords) == 0 <==>
      forall i :: 0 <= i < |keywords| ==>
        !Contains(v.name, keywords[i]) && !Contains(v.path, keywords[i]) && !Contains(v.head, keywords[i])
  {
  }

  /** Counts the keywords, as written, occurring in `hay`, keyword by keyword. */
  method CountHits(hay: string, keywords: seq<string>) returns (n: nat)
    ensures n == Hits(hay, keywords)
  {
    n := 0;
    var i := 0;
    while i < |keywords|
      invariant 0 <= i <= |keywords|
      invariant n == Hits(hay, keywords[..i])
    {
      assert keywords[..i + 1][..i] == keywords[..i];
      if Contains(hay, keywords[i]) {
        n := n + 1;
      }
      i := i + 1;
    }
    assert keywords[..i] == keywords;
  }

  /** One theme's score, accumulated over the three keyword loops of the classifier. */
  method ScoreTheme(v: DocView, keywords: seq<string>) returns (score: nat)
    ensures score == ThemeScore(v, keywords)
  {
    var inName := CountHits(v.name, keywords);
    var inPath := CountHits(v.path, keywords);
    var inContent := CountHits(v.head, keywords);
    score := 3 * inName + 2 * inPath + inContent;
  }

  /** The document's score for every theme, in table order. */
  function Scores(v: DocView, themes: seq<(string, seq<string>)>): (r: seq<nat>)
    ensures |r| == |themes|
  {
    seq(|themes|, i requires 0 <= i < |themes| => ThemeScore(v, themes[i].1))
  }

  /** The group a document is sent to. */
  function Label(themes: seq<(string, seq<string>)>, d: Doc): string
  {
    BestTheme(ThemeNames(themes), Scores(View(d), themes))
  }

  /** The label of every document, in input order. */
  function Labels(themes: seq<(string, seq<string>)>, docs: seq<Doc>): (r: seq<string>)
    ensures |r| == |docs|
  {
    seq(|docs|, i requires 0 <= i < |docs| => Label(themes, docs[i]))
  }

  /** No theme of the table is called "未分类", so that group only ever holds unmatched documents. */
  lemma UnclassifiedNotATheme()
    ensures Unclassified !in ThemeNames(Themes)
  {
    var names := ThemeNames(Themes);
    forall i | 0 <= i < |names| ensures names[i] != Unclassified {
      assert names[i][0] != Unclassified[0];
    }
  }

  /** A document goes to "未分类" iff it scores zero everywhere, and otherwise to the first theme with the top score. */
  lemma LabelSpec(themes: seq<(string, seq<string>)>, d: Doc)
    requires Unclassified !in ThemeNames(themes)
    ensures Label(themes, d) == Unclassified <==> forall j :: 0 <= j < |themes| ==> Scores(View(d), themes)[j] == 0
    ensures Label(themes, d) != Unclassified ==>
      exists k :: (0 <= k < |themes| && Label(themes, d) == themes[k].0 && Scores(View(d), themes)[k] > 0
                   && (forall j :: 0 <= j < |themes| ==> Scores(View(d), themes)[j] <= Scores(View(d), themes)[k])
                   && (forall j :: 0 <= j < k ==> Scores(View(d), themes)[j] < Scores(View(d), themes)[k]))
  {
    BestThemeSpec(ThemeNames(themes), Scores(View(d), themes));
  }

  /** The loop over the theme table, collecting each theme's score. */
  method ScoreThemes(v: DocView, themes: seq<(string, seq<string>)>) returns (scores: seq<nat>)
    ensures scores == Scores(v, themes)
  {
    scores := [];
    var i := 0;
    while i < |themes|
      invariant 0 <= i <= |themes|
      invariant |scores| == i
      invariant forall j :: 0 <= j < i ==> scores[j] == ThemeScore(v, themes[j].1)
    {
      var s := ScoreTheme(v, themes[i].1);
      scores := scores + [s];
      i := i + 1;
    }
  }

  /** Scores every theme for one document and picks its group. */
  method ClassifyDocument(themes: seq<(string, seq<string>)>, d: Doc) returns (group: string)
    ensures group == Label(themes, d)
  {
    var scores := ScoreThemes(View(d), themes);
    if |scores| > 0 && scores[ArgMax(scores)] > 0 {
      group := themes[ArgMax(scores)].0;
    } else {
      group := Unclassified;
    }
  }

  /**
   * The loop of `classify_by_theme`: documents with a positive score are appended to their
   * theme's list as they are met, the rest are collected in a separate list.
   */
  method CollectByTheme(themes: seq<(string, seq<string>)>, docs: seq<Doc>)
    returns (themed: map<string, seq<Doc>>, unclassified: seq<Doc>)
    ensures Groups(themed, unclassified) == Collect(docs, Labels(themes, docs))
  {
    themed, unclassified := map[], [];
    ghost var seen: seq<Doc>, labels: seq<string> := [], [];
    var i := 0;
    while i < |docs|
      invariant 0 <= i <= |docs| && seen == docs[..i] && labels == Labels(themes, seen)
      invariant Groups(themed, unclassified) == Collect(seen, labels)
    {
      TakeNext(docs, i);
      var group := ClassifyDocument(themes, docs[i]);
      LabelsAppend(themes, seen, docs[i]);
      CollectAppend(seen, labels, docs[i], group);
      if group == Unclassified {
        unclassified := unclassified + [docs[i]];
      } else {
        themed := themed[group := (if group in themed then themed[group] else []) + [docs[i]]];
      }
      seen, labels := seen + [docs[i]], labels + [group];
      i := i + 1;
    }
    TakeAll(docs);
  }

  /**
   * `classify_by_theme`: the walk, then the "未分类" list stored under its own key when it is
   * not empty. Every document ends up in the group of its label, and only there.
   */
  method ClassifyByTheme(themes: seq<(string, seq<string>)>, docs: seq<Doc>) returns (groups: map<string, seq<Doc>>)
    requires Unclassified !in ThemeNames(themes)
    ensures groups == GroupBy(docs, Labels(themes, docs))
  {
    var themed, unclassified := CollectByTheme(themes, docs);
    GroupsAssembled(docs, Labels(themes, docs));
    if |unclassified| > 0 {
      groups := themed[Unclassified := unclassified];
    } else {
      groups := themed;
    }
  }

  lemma LabelsAppend(themes: seq<(string, seq<string>)>, docs: seq<Doc>, d: Doc)
    ensures Labels(themes, docs + [d]) == Labels(themes, docs) + [Label(themes, d)]
  {
  }

  // ---------------------------------------------------------------- the intended classifier

  /** The intended score of every theme, in table order. */
  function ScoresFixed(v: DocView, themes: seq<(string, seq<string>)>): (r: seq<nat>)
    ensures |r| == |themes|
  {
    seq(|themes|, i requires 0 <= i < |themes| => ThemeScoreFixed(v, themes[i].1))
  }

  /** The group a document is meant to go to: the best theme by the case-insensitive score. */
  function LabelFixed(themes: seq<(string, seq<string>)>, d: Doc): string
  {
    BestTheme(ThemeNames(themes), ScoresFixed(View(d), themes))
  }

  function LabelsFixed(themes: seq<(string, seq<string>)>, docs: seq<Doc>): (r: seq<string>)
    ensures |r| == |docs|
  {
    seq(|docs|, i requires 0 <= i < |docs| => LabelFixed(themes, docs[i]))
  }

  /**
   * The intended label: "未分类" iff no keyword, compared case-insensitively, occurs anywhere,
   * and otherwise the first theme with the top intended score.
   */
  lemma LabelFixedSpec(themes: seq<(string, seq<string>)>, d: Doc)
    requires Unclassified !in ThemeNames(themes)
    ensures LabelFixed(themes, d) == Unclassified <==> forall j :: 0 <= j < |themes| ==> ScoresFixed(View(d), themes)[j] == 0
    ensures LabelFixed(themes, d) != Unclassified ==>
      exists k :: (0 <= k < |themes| && LabelFixed(themes, d) == themes[k].0 && ScoresFixed(View(d), themes)[k] > 0
                   && (forall j :: 0 <= j < |themes| ==> ScoresFixed(View(d), themes)[j] <= ScoresFixed(View(d), themes)[k])
                   && (forall j :: 0 <= j < k ==> ScoresFixed(View(d), themes)[j] < ScoresFixed(View(d), themes)[k]))
  {
    BestThemeSpec(ThemeNames(themes), ScoresFixed(View(d), themes));
  }

  /** The table with every keyword lower-cased. */
  function LowerThemes(themes: seq<(string, seq<string>)>): (r: seq<(string, seq<string>)>)
    ensures |r| == |themes|
  {
    seq(|themes|, i requires 0 <= i < |themes| => (themes[i].0, LowerAll(themes[i].1)))
  }

  /** Running the script's classifier over the lower-cased table gives the intended labels. */
  lemma LowerThemesLabels(themes: seq<(string, seq<string>)>, docs: seq<Doc>)
    ensures ThemeNames(LowerThemes(themes)) == ThemeNames(themes)
    ensures Labels(LowerThemes(themes), docs) == LabelsFixed(themes, docs)
  {
    forall i | 0 <= i < |docs| ensures Label(LowerThemes(themes), docs[i]) == LabelFixed(themes, docs[i]) {
      assert Scores(View(docs[i]), LowerThemes(themes)) == ScoresFixed(View(docs[i]), themes);
    }
  }

  /**
   * The intended `classify_by_theme`: the same walk over the table with its keywords
   * lower-cased, so every document lands in the group of its intended label.
   */
  method ClassifyByThemeFixed(themes: seq<(string, seq<string>)>, docs: seq<Doc>) returns (groups: map<string, seq<Doc>>)
    requires Unclassified !in ThemeNames(themes)
    ensures groups == GroupBy(docs, LabelsFixed(themes, docs))
  {
    LowerThemesLabels(themes, docs);
    groups := ClassifyByTheme(LowerThemes(themes), docs);
  }

  // ---------------------------------------------------------------- importance

  /** The content-size tier. */
  function SizeTier(len: nat): nat
  {
    if len > 10000 then 8 else if len > 5000 then 5 else if len > 2000 then 3 else if len > 500 then 1 else 0
  }

  /** Heading, subheading, code-fence and separator markers, each counted once. */
  function StructureBonus(content: string): nat
  {
    (if Contains(content, "# ") then 3 else 0) + (if Contains(content, "## ") then 2 else 0)
    + (if Contains(content, "```") then 1 else 0) + (if Contains(content, "---") then 1 else 0)
  }

  /** `calculate_document_importance` for a document under the docs root `root`. */
  function Importance(weights: seq<(string, nat)>, root: string, d: Doc): nat
  {
    var content := Content(d);
    NameWeight(Lower(DocStem(d)), weights) + SizeTier(|content|) + StructureBonus(content)
    + (if Contains(FullPath(root, d), "analysis-reports") then 2 else 0)
  }

  /**
   * A name holding "合并文档" gains 15, so such a document is outranked by at most 2 points by
   * a document whose name holds no weighted keyword (whose score is at most 8 + 7 + 2).
   */
  lemma MergedNameOutranks(root: string, d: Doc, e: Doc)
    requires Contains(Lower(DocStem(d)), "合并文档")
    requires forall k :: 0 <= k < |Weights| ==> !Contains(Lower(DocStem(e)), Weights[k].0)
    ensures Importance(Weights, root, e) <= Importance(Weights, root, d) + 2
  {
    NameWeightBounds(Lower(DocStem(d)), Weights, 0);
    NameWeightNone(Lower(DocStem(e)), Weights);
    ImportanceAboveNameWeight(Weights, root, d);
    ImportanceAboveNameWeight(Weights, root, e);
  }

  /** Size, structure and path add between 0 and 17 points to the name weight. */
  lemma ImportanceAboveNameWeight(weights: seq<(string, nat)>, root: string, d: Doc)
    ensures NameWeight(Lower(DocStem(d)), weights) <= Importance(weights, root, d) <= NameWeight(Lower(DocStem(d)), weights) + 17
  {
    var content := Content(d);
    assert SizeTier(|content|) <= 8 && StructureBonus(content) <= 7;
  }

  /** The importance score, accumulated over the weight table as the script does. */
  method CalculateImportance(weights: seq<(string, nat)>, root: string, d: Doc) returns (score: nat)
    ensures score == Importance(weights, root, d)
  {
    var name := Lower(DocStem(d));
    score := 0;
    var i := 0;
    while i < |weights|
      invariant 0 <= i <= |weights|
      invariant score == NameWeight(name, weights[..i])
    {
      assert weights[..i + 1][..i] == weights[..i];
      if Contains(name, weights[i].0) {
        score := score + weights[i].1;
      }
      i := i + 1;
    }
    assert weights[..i] == weights;
    var content := Content(d);
    score := score + SizeTier(|content|) + StructureBonus(content);
    if Contains(FullPath(root, d), "analysis-reports") {
      score := score + 2;
    }
  }

  // ---------------------------------------------------------------- master selection

  function Rank(weights: seq<(string, nat)>, root: string, d: Doc): Ranked
  {
    Ranked(d, Importance(weights, root, d), |Content(d)|)
  }

  function RankAll(weights: seq<(string, nat)>, root: string, docs: seq<Doc>): (r: seq<Ranked>)
    ensures |r| == |docs|
  {
    seq(|docs|, i requires 0 <= i < |docs| => Rank(weights, root, docs[i]))
  }

  lemma RankAllAppend(weights: seq<(string, nat)>, root: string, docs: seq<Doc>, d: Doc)
    ensures RankAll(weights, root, docs + [d]) == RankAll(weights, root, docs) + [Rank(weights, root, d)]
  {
  }

  /** `select_master_document`: the only member of a singleton, else the head of the stable descending sort. */
  function SelectMaster(weights: seq<(string, nat)>, root: string, docs: seq<Doc>): Doc
    requires |docs| >= 1
  {
    Master(RankAll(weights, root, docs))
  }

  /**
   * The master is one of the documents, no document ranks above it by (score, length), and
   * every earlier document ranks strictly below it: exact ties go to the first one met.
   */
  lemma SelectMasterSpec(weights: seq<(string, nat)>, root: string, docs: seq<Doc>)
    requires |docs| >= 1
    ensures exists k :: (0 <= k < |docs| && SelectMaster(weights, root, docs) == docs[k]
                         && (forall j :: 0 <= j < |docs| ==> KeyGe(RankAll(weights, root, docs)[k], RankAll(weights, root, docs)[j]))
                         && (forall j :: 0 <= j < k ==> !KeyGe(RankAll(weights, root, docs)[j], RankAll(weights, root, docs)[k])))
  {
    var ranked := RankAll(weights, root, docs);
    MasterSpec(ranked);
    var k := FirstBest(ranked);
    assert ranked[k].doc == docs[k];
  }

  /** The scoring loop of `select_master_document`: (document, score, content length) per document. */
  method RankDocuments(weights: seq<(string, nat)>, root: string, docs: seq<Doc>) returns (ranked: seq<Ranked>)
    ensures ranked == RankAll(weights, root, docs)
  {
    ranked := [];
    var i := 0;
    while i < |docs|
      invariant 0 <= i <= |docs|
      invariant ranked == RankAll(weights, root, docs[..i])
    {
      var score := CalculateImportance(weights, root, docs[i]);
      var entry := Ranked(docs[i], score, |Content(docs[i])|);
      RankAllAppend(weights, root, docs[..i], docs[i]);
      TakeNext(docs, i);
      ranked := ranked + [entry];
      i := i + 1;
    }
    TakeAll(docs);
  }

  /** `select_master_document`: the only member of a singleton, else the head of the stable descending sort. */
  method SelectMasterDocument(weights: seq<(string, nat)>, root: string, docs: seq<Doc>) returns (master: Doc)
    requires |docs| >= 1
    ensures master == SelectMaster(weights, root, docs)
  {
    if |docs| == 1 {
      return docs[0];
    }
    var ranked := RankDocuments(weights, root, docs);
    master := SortDesc(ranked)[0].doc;
  }

  // ---------------------------------------------------------------- title and content cleanup

  /** Python's `s.replace(p, "")`: removes the non-overlapping occurrences of `p`, scanning left to right. */
  function RemoveAll(s: string, p: string): (r: string)
    requires |p| > 0
    ensures |r| <= |s|
    decreases |s|
  {
    if |s| < |p| then s
    else if StartsWith(s, p) then RemoveAll(s[|p|..], p)
    else [s[0]] + RemoveAll(s[1..], p)
  }

  /** Removing a pattern shortens the string exactly when the pattern occurs in it; otherwise the string is kept. */
  lemma {:induction false} RemoveAllShortens(s: string, p: string)
    requires |p| > 0
    ensures Contains(s, p) <==> |RemoveAll(s, p)| < |s|
    ensures !Contains(s, p) ==> RemoveAll(s, p) == s
    decreases |s|
  {
    if |s| < |p| {
      NotContainsShort(s, p);
    } else if !StartsWith(s, p) {
      RemoveAllShortens(s[1..], p);
      assert [s[0]] + s[1..] == s;
    }
  }

  lemma {:induction false} NotContainsShort(s: string, p: string)
    requires |s| < |p|
    ensures !Contains(s, p)
    decreases |s|
  {
    if |s| > 0 {
      NotContainsShort(s[1..], p);
    }
  }

  /** `get_clean_title`: drops the merge markers "_合并文档", "-合并" and "_总结" from a stem. */
  function CleanTitle(stem: string): string
  {
    RemoveAll(RemoveAll(RemoveAll(stem, "_合并文档"), "-合并"), "_总结")
  }

  /** A stem without any marker is its own title; the marker of a merged file's stem is removed. */
  lemma CleanTitleSpec(stem: string)
    ensures !Contains(stem, "_合并文档") && !Contains(stem, "-合并") && !Contains(stem, "_总结") ==> CleanTitle(stem) == stem
    ensures Contains(stem, "_合并文档") ==> |CleanTitle(stem)| < |stem|
  {
    RemoveAllShortens(stem, "_合并文档");
    var a := RemoveAll(stem, "_合并文档");
    RemoveAllShortens(a, "-合并");
    var b := RemoveAll(a, "-合并");
    RemoveAllShortens(b, "_总结");
  }

  /** A line carrying merge provenance: the "merged from" note, the merge time or the source count. */
  predicate IsProvenance(line: string)
  {
    (Contains(line, "本文档由") && Contains(line, "合并而成"))
    || Contains(line, "合并时间:") || Contains(line, "原始文档数量:")
  }

  /** The lines `clean_content` keeps, in order. */
  function KeptLines(lines: seq<string>): (r: seq<string>)
    ensures |r| <= |lines|
    ensures forall l :: l in r <==> l in lines && !IsProvenance(l)
  {
    if |lines| == 0 then []
    else
      var n := |lines| - 1;
      KeptLines(lines[..n]) + (if IsProvenance(lines[n]) then [] else [lines[n]])
  }

  function CleanContentSpec(content: string): string
  {
    Join(KeptLines(Split(content, '\n')), "\n")
  }

  /** `clean_content`: filters the provenance lines out in a loop and re-joins the rest. */
  method CleanContent(content: string) returns (r: string)
    ensures r == CleanContentSpec(content)
  {
    var lines := Split(content, '\n');
    var cleaned: seq<string> := [];
    var i := 0;
    while i < |lines|
      invariant 0 <= i <= |lines|
      invariant cleaned == KeptLines(lines[..i])
    {
      assert lines[..i + 1][..i] == lines[..i];
      if !IsProvenance(lines[i]) {
        cleaned := cleaned + [lines[i]];
      }
      i := i + 1;
    }
    assert lines[..i] == lines;
    r := Join(cleaned, "\n");
  }

  lemma {:induction false} KeptLinesOfKept(lines: seq<string>)
    requires forall k :: 0 <= k < |lines| ==> !IsProvenance(lines[k])
    ensures KeptLines(lines) == lines
  {
    if |lines| > 0 {
      var n := |lines| - 1;
      KeptLinesOfKept(lines[..n]);
      assert lines[..n] + [lines[n]] == lines;
    }
  }

  /** After cleanup no line carries provenance, and the remaining lines are the kept ones. */
  lemma CleanContentLines(content: string)
    ensures forall l :: l in Split(CleanContentSpec(content), '\n') ==> !IsProvenance(l)
    ensures |KeptLines(Split(content, '\n'))| > 0 ==> Split(CleanContentSpec(content), '\n') == KeptLines(Split(content, '\n'))
  {
    var kept := KeptLines(Split(content, '\n'));
    if |kept| > 0 {
      forall k | 0 <= k < |kept| ensures '\n' !in kept[k] {
        assert kept[k] in Split(content, '\n');
      }
      SplitJoin(kept, '\n');
    } else {
      assert Split("", '\n') == [""];
      assert !IsProvenance("");
    }
  }

  /** Cleaning is idempotent. */
  lemma CleanContentIdempotent(content: string)
    ensures CleanContentSpec(CleanContentSpec(content)) == CleanContentSpec(content)
  {
    CleanContentLines(content);
    var r := CleanContentSpec(content);
    var lines := Split(r, '\n');
    forall k | 0 <= k < |lines| ensures !IsProvenance(lines[k]) {
      assert lines[k] in lines;
    }
    KeptLinesOfKept(lines);
    JoinSplit(r, '\n');
  }

  // ---------------------------------------------------------------- key sections

  predicate IsFence(line: string) { StartsWith(Strip(line), "```") }

  /** Whether an odd number of the lines are fences, that is, whether they leave a code block open. */
  function OpenBlock(lines: seq<string>): bool
  {
    if |lines| == 0 then false else OpenBlock(lines[..|lines| - 1]) != IsFence(lines[|lines| - 1])
  }

  lemma OpenBlockAppend(s: seq<string>, x: string)
    ensures OpenBlock(s + [x]) == (OpenBlock(s) != IsFence(x))
  {
    assert (s + [x])[..|s|] == s;
  }

  /** `re.match(r'^\d+\.', s)`: one or more digits followed by a dot. */
  predicate NumberedItem(s: string)
    decreases |s|
  {
    |s| >= 2 && IsDigit(s[0]) && (s[1] == '.' || NumberedItem(s[1..]))
  }

  /** Whether a stripped, non-blank line outside a code block is worth keeping. */
  predicate KeyLine(stripped: string)
  {
    StartsWith(stripped, "#")
    || (exists k :: 0 <= k < |SignalWords| && Contains(stripped, SignalWords[k]))
    || StartsWith(stripped, "-") || StartsWith(stripped, "*") || StartsWith(stripped, "+")
    || NumberedItem(stripped)
  }

  /** How the filter treats a line outside a code block. */
  datatype LineKind = Fence | Blank | Key | Other

  function KindOf(line: string): LineKind
  {
    var stripped := Strip(line);
    if StartsWith(stripped, "```") then Fence
    else if stripped == "" then Blank
    else if KeyLine(stripped) then Key
    else Other
  }

  /** The filter's state: the lines kept so far and whether the scan is inside a code block. */
  datatype KeyScan = KeyScan(kept: seq<string>, inBlock: bool)

  /**
   * One line of `extract_key_sections`: a fence toggles the block state and is kept, a line
   * inside a block is kept, a blank line is kept (as "") only after a non-blank one, a key
   * line is kept, anything else is dropped.
   */
  function Step(st: KeyScan, line: string, kind: LineKind): KeyScan
  {
    if kind == Fence then KeyScan(st.kept + [line], !st.inBlock)
    else if st.inBlock then KeyScan(st.kept + [line], true)
    else if kind == Blank then
      (if |st.kept| > 0 && !IsBlank(st.kept[|st.kept| - 1]) then KeyScan(st.kept + [""], false) else st)
    else if kind == Key then KeyScan(st.kept + [line], false)
    else st
  }

  function Scan(lines: seq<string>): KeyScan
  {
    if |lines| == 0 then KeyScan([], false)
    else
      var n := |lines| - 1;
      Step(Scan(lines[..n]), lines[n], KindOf(lines[n]))
  }

  /** A line is classified as a fence exactly when it is one, and a blank line is blank. */
  lemma KindOfSpec(line: string)
    ensures (KindOf(line) == Fence) == IsFence(line)
    ensures KindOf(line) == Blank ==> IsBlank(line)
    ensures KindOf(line) == Key ==> !IsBlank(line)
  {
  }

  /** At most 50 lines followed by "..." when more were kept. */
  function Cap(kept: seq<string>): seq<string>
  {
    if |kept| > KeyLineCap then kept[..KeyLineCap] + ["..."] else kept
  }

  /** Whether the last line is blank. */
  predicate EndsBlank(s: seq<string>)
  {
    |s| > 0 && IsBlank(s[|s| - 1])
  }

  /** The key lines without their trailing blank lines. */
  function DropTrailingBlanks(s: seq<string>): seq<string>
  {
    if EndsBlank(s) then DropTrailingBlanks(s[..|s| - 1]) else s
  }

  /** Trimming keeps a prefix that does not end in a blank line. */
  lemma {:induction false} DropTrailingBlanksSpec(s: seq<string>)
    ensures |DropTrailingBlanks(s)| <= |s| && DropTrailingBlanks(s) == s[..|DropTrailingBlanks(s)|]
    ensures !EndsBlank(DropTrailingBlanks(s))
  {
    if EndsBlank(s) {
      var p := s[..|s| - 1];
      DropTrailingBlanksSpec(p);
      assert p[..|DropTrailingBlanks(p)|] == s[..|DropTrailingBlanks(p)|];
    }
  }

  /** The lines `extract_key_sections` joins with newlines. */
  function KeyLines(lines: seq<string>): seq<string>
  {
    DropTrailingBlanks(Cap(Scan(lines).kept))
  }

  function KeySections(content: string): string
  {
    Join(KeyLines(Split(content, '\n')), "\n")
  }

  /** Line `i` is not a blank line outside a block that opens the output or follows another blank line. */
  predicate GoodAt(s: seq<string>, i: nat)
    requires i < |s|
  {
    IsBlank(s[i]) && !OpenBlock(s[..i]) ==> i > 0 && !IsBlank(s[i - 1])
  }

  /** Outside a code block no blank line follows a blank line or opens the output. */
  predicate NoDoubleBlankOutside(s: seq<string>)
  {
    forall i :: 0 <= i < |s| ==> GoodAt(s, i)
  }

  lemma GoodAtPrefix(s: seq<string>, m: nat, i: nat)
    requires i < m <= |s|
    ensures GoodAt(s[..m], i) == GoodAt(s, i)
  {
    assert s[..m][..i] == s[..i];
  }

  lemma NoDoubleBlankPrefix(s: seq<string>, m: nat)
    requires m <= |s| && NoDoubleBlankOutside(s)
    ensures NoDoubleBlankOutside(s[..m])
  {
    forall i | 0 <= i < m ensures GoodAt(s[..m], i) {
      GoodAtPrefix(s, m, i);
    }
  }

  lemma NoDoubleBlankAppend(s: seq<string>, x: string)
    requires NoDoubleBlankOutside(s) && GoodAt(s + [x], |s|)
    ensures NoDoubleBlankOutside(s + [x])
  {
    forall i | 0 <= i < |s| ensures GoodAt(s + [x], i) {
      GoodAtPrefix(s + [x], |s|, i);
      assert (s + [x])[..|s|] == s;
    }
  }

  lemma AppendKeepsInvariant(kept: seq<string>, x: string, inBlock: bool)
    requires inBlock == OpenBlock(kept) && NoDoubleBlankOutside(kept)
    requires !IsBlank(x) || inBlock || (|kept| > 0 && !IsBlank(kept[|kept| - 1]))
    ensures (inBlock != IsFence(x)) == OpenBlock(kept + [x])
    ensures NoDoubleBlankOutside(kept + [x])
  {
    OpenBlockAppend(kept, x);
    assert (kept + [x])[..|kept|] == kept;
    NoDoubleBlankAppend(kept, x);
  }

  /** One step keeps the block flag equal to the fence parity and adds no blank line after a blank line outside a block. */
  lemma StepKeepsInvariant(st: KeyScan, line: string, kind: LineKind)
    requires st.inBlock == OpenBlock(st.kept) && NoDoubleBlankOutside(st.kept)
    requires (kind == Fence) == IsFence(line)
    requires (kind == Blank ==> IsBlank(line)) && (kind == Key ==> !IsBlank(line))
    ensures Step(st, line, kind).inBlock == (st.inBlock != IsFence(line))
    ensures Step(st, line, kind).inBlock == OpenBlock(Step(st, line, kind).kept)
    ensures NoDoubleBlankOutside(Step(st, line, kind).kept)
  {
    if kind == Fence {
      assert !IsBlank(line) by {
        assert Strip(line) != "";
      }
      AppendKeepsInvariant(st.kept, line, st.inBlock);
    } else if st.inBlock {
      AppendKeepsInvariant(st.kept, line, st.inBlock);
    } else if kind == Blank {
      if |st.kept| > 0 && !IsBlank(st.kept[|st.kept| - 1]) {
        assert !IsFence("");
        AppendKeepsInvariant(st.kept, "", false);
      }
    } else if kind == Key {
      AppendKeepsInvariant(st.kept, line, false);
    }
  }

  /**
   * The scan is inside a code block exactly when it has seen an odd number of fences, both
   * among the input lines and among the lines it kept, and it never keeps two blank lines in
   * a row outside a block.
   */
  lemma {:induction false} ScanInvariant(lines: seq<string>)
    ensures Scan(lines).inBlock == OpenBlock(lines)
    ensures Scan(lines).inBlock == OpenBlock(Scan(lines).kept)
    ensures NoDoubleBlankOutside(Scan(lines).kept)
  {
    if |lines| > 0 {
      var n := |lines| - 1;
      ScanInvariant(lines[..n]);
      KindOfSpec(lines[n]);
      StepKeepsInvariant(Scan(lines[..n]), lines[n], KindOf(lines[n]));
    }
  }

  /** Every fence line, and every line inside a code block, is kept verbatim. */
  lemma FencedLinesKeptVerbatim(lines: seq<string>, j: nat)
    requires j < |lines|
    requires IsFence(lines[j]) || OpenBlock(lines[..j])
    ensures Scan(lines[..j + 1]).kept == Scan(lines[..j]).kept + [lines[j]]
  {
    var p, q := lines[..j], lines[..j + 1];
    ScanInvariant(p);
    KindOfSpec(lines[j]);
    assert q[..j] == p && q[j] == lines[j];
    assert Scan(q) == Step(Scan(p), lines[j], KindOf(lines[j]));
  }

  /** Capping and trimming keep at most 51 lines, end in "..." after a cap, and keep the blank-line invariant. */
  lemma CapTrimSpec(kept: seq<string>)
    requires NoDoubleBlankOutside(kept)
    ensures |DropTrailingBlanks(Cap(kept))| <= KeyLineCap + 1
    ensures |kept| > KeyLineCap ==> DropTrailingBlanks(Cap(kept)) == kept[..KeyLineCap] + ["..."]
    ensures NoDoubleBlankOutside(DropTrailingBlanks(Cap(kept)))
  {
    var capped := Cap(kept);
    if |kept| > KeyLineCap {
      assert !IsBlank("...") by {
        assert Strip("...") == "...";
      }
      NoDoubleBlankPrefix(kept, KeyLineCap);
      NoDoubleBlankAppend(kept[..KeyLineCap], "...");
    }
    DropTrailingBlanksSpec(capped);
    NoDoubleBlankPrefix(capped, |DropTrailingBlanks(capped)|);
  }

  /**
   * The key lines never exceed 51, end with "..." after exactly 50 kept lines when more were
   * kept, never end with a blank line and never hold two blank lines in a row outside a block.
   */
  lemma KeyLinesSpec(lines: seq<string>)
    ensures |KeyLines(lines)| <= KeyLineCap + 1
    ensures |Scan(lines).kept| > KeyLineCap ==> KeyLines(lines) == Scan(lines).kept[..KeyLineCap] + ["..."]
    ensures |KeyLines(lines)| > 0 ==> !IsBlank(KeyLines(lines)[|KeyLines(lines)| - 1])
    ensures NoDoubleBlankOutside(KeyLines(lines))
  {
    ScanInvariant(lines);
    CapTrimSpec(Scan(lines).kept);
    DropTrailingBlanksSpec(Cap(Scan(lines).kept));
  }

  /** The line loop of `extract_key_sections`, with its code-block flag. */
  method ScanKeyLines(lines: seq<string>) returns (keyLines: seq<string>, inCodeBlock: bool)
    ensures KeyScan(keyLines, inCodeBlock) == Scan(lines)
    ensures inCodeBlock == OpenBlock(lines)
  {
    keyLines, inCodeBlock := [], false;
    var i := 0;
    while i < |lines|
      invariant 0 <= i <= |lines|
      invariant KeyScan(keyLines, inCodeBlock) == Scan(lines[..i])
    {
      assert lines[..i + 1][..i] == lines[..i];
      var line := lines[i];
      ghost var before := KeyScan(keyLines, inCodeBlock);
      assert Scan(lines[..i + 1]) == Step(before, line, KindOf(line));
      var stripped := Strip(line);
      if StartsWith(stripped, "```") {
        inCodeBlock := !inCodeBlock;
        keyLines := keyLines + [line];
      } else if inCodeBlock {
        keyLines := keyLines + [line];
      } else if stripped == "" {
        if |keyLines| > 0 && !IsBlank(keyLines[|keyLines| - 1]) {
          keyLines := keyLines + [""];
        }
      } else if KeyLine(stripped) {
        keyLines := keyLines + [line];
      }
      i := i + 1;
    }
    assert lines[..i] == lines;
    ScanInvariant(lines);
  }

  /** `extract_key_sections`: the line loop, the cap at 50 lines and the trailing-blank trim. */
  method ExtractKeySections(content: string) returns (r: string)
    ensures r == KeySections(content)
  {
    var keyLines, _ := ScanKeyLines(Split(content, '\n'));
    if |keyLines| > KeyLineCap {
      keyLines := keyLines[..KeyLineCap] + ["..."];
    }
    ghost var capped := keyLines;
    while EndsBlank(keyLines)
      invariant DropTrailingBlanks(keyLines) == DropTrailingBlanks(capped)
      decreases |keyLines|
    {
      keyLines := keyLines[..|keyLines| - 1];
    }
    r := Join(keyLines, "\n");
  }

  // ---------------------------------------------------------------- naming and writing the merged file

  /** A merged file is never picked up by a later scan, whatever the theme. */
  lemma MergedNeverRescanned(theme: string, listing: seq<Doc>, d: Doc)
    requires d in ScanDocuments(listing)
    ensures d.name != MergedName(theme)
  {
    ScanDocumentsSpec(listing, d);
    var m := MergedName(theme);
    assert m[|m| - |MergedSuffix|..] == MergedSuffix;
  }

  /** The supplementary section for the non-master documents, numbered from 1 over all of them. */
  function Supplement(others: seq<Doc>, from: nat): string
    decreases |others|
  {
    if |others| == 0 then ""
    else
      var content := Content(others[0]);
      var ks := KeySections(content);
      var part :=
        if content != "" && |Strip(content)| > 100 then
          "### " + Ordinal(from) + "来源: " + others[0].name + "\n\n"
          + (if Strip(ks) != "" then ks + "\n\n" else "")
        else "";
      part + Supplement(others[1..], from + 1)
  }

  /**
   * `extract_key_information`: header, cleaned master content, supplementary key sections,
   * the numbered source list and the footer; `started` and `finished` are the two clock readings.
   */
  function MergedContent(docs: seq<Doc>, master: Doc, started: string, finished: string): string
  {
    var count := NatToString(|docs|);
    var masterContent := Content(master);
    var others := Others(docs, master);
    "# " + CleanTitle(DocStem(master)) + "\n\n"
    + "> 📝 本文档由 " + count + " 个相关文档合并而成\n"
    + "> 🕒 合并时间: " + started + "\n"
    + "> 📂 原始文档数量: " + count + "\n"
    + "> 🎯 主文档: " + master.name + "\n\n---\n\n"
    + (if masterContent != "" then "## 主要内容\n\n" + CleanContentSpec(masterContent) + "\n\n---\n\n" else "")
    + (if |others| > 0 then "## 补充信息\n\n" + Supplement(others, 0) else "")
    + "## 原始文档列表\n\n" + Manifest(docs, 0)
    + "\n---\n\n*合并完成时间: " + finished + "*\n"
  }

  /** The merger: the docs folder it works on and its name-keyword weights. */
  class EnhancedDocumentMerger {
    const folder: DocsFolder
    const weights: seq<(string, nat)>

    constructor (folder: DocsFolder)
      ensures this.folder == folder && weights == Weights
    {
      this.folder := folder;
      weights := Weights;
    }

    /**
     * `merge_theme_documents`: a group of at most one document is left alone and reported as
     * merged; otherwise the merged file is written at the docs root first, and only after that
     * write succeeds is each member other than the merged file unlinked (a failed unlink is
     * skipped). A failed write changes nothing and reports failure.
     */
    method MergeThemeDocuments(theme: string, docs: seq<Doc>, started: string, finished: string,
                               writeFails: bool, undeletable: set<string>) returns (ok: bool)
      modifies folder
      ensures |docs| <= 1 ==> ok && folder.files == old(folder.files)
      ensures |docs| > 1 && writeFails ==> !ok && folder.files == old(folder.files)
      ensures |docs| > 1 && !writeFails ==>
        ok && MergedName(theme) in folder.files
        && folder.files == old(folder.files)[MergedName(theme) := MergedContent(docs, SelectMaster(weights, folder.root, docs), started, finished)]
                           - Deleted(MergedName(theme), docs, undeletable)
    {
      if |docs| <= 1 {
        return true;
      }
      var master := SelectMasterDocument(weights, folder.root, docs);
      var content := MergedContent(docs, master, started, finished);
      var merged := MergedName(theme);
      if writeFails {
        return false;
      }
      folder.files := folder.files[merged := content];
      folder.RemoveMembers(merged, docs, undeletable);
      ok := true;
    }
  }
}
