/**
 * The first documentation merger (`scripts/merge_docs_by_theme.py`): which files a scan
 * admits, the case-sensitive keyword-count classifier, the importance score and master
 * selection, the key-section line filter, the merged file's text, and the merge and run
 * steps over an in-memory folder.
 */
module DocMergeByTheme {
  import opened Wrappers
  import opened Strings
  import opened DocCommon

  /** The theme table, in the order the classifier visits it. */
  const Themes: seq<(string, seq<string>)> := [
    ("交易记录", ["交易记录", "transaction", "记录页面", "日期筛选", "查询功能"]),
    ("资产管理", ["资产", "assets", "资产页面", "资产数据", "历史快照"]),
    ("预算管理", ["预算", "budget", "预算对比", "预算数据"]),
    ("家庭协作", ["家庭协作", "家庭管理", "协作功能", "成员管理"]),
    ("报表统计", ["报表", "统计", "reports", "趋势图", "分析"]),
    ("问题修复", ["修复", "fix", "问题", "错误", "bug"]),
    ("功能优化", ["优化", "optimization", "改进", "enhancement"]),
    ("测试相关", ["测试", "test", "验证", "检查"]),
    ("数据库相关", ["数据库", "database", "集合", "索引", "云开发"]),
    ("UI界面", ["UI", "界面", "交互", "导航", "安全区"]),
    ("技术文档", ["技术", "API", "接口", "架构", "设计"]),
    ("兼容性", ["兼容", "compatibility", "适配", "版本"])
  ]

  /** Name keywords and the importance each adds. */
  const Weights: seq<(string, nat)> := [
    ("总结", 10), ("完成", 9), ("最终", 8), ("方案", 7), ("报告", 6),
    ("记录", 5), ("分析", 4), ("计划", 3), ("指南", 2)
  ]

  /** The signal words that make a line worth keeping. */
  const SignalWords: seq<string> := ["问题", "解决", "修复", "优化", "结果", "总结"]

  /** The key-section output keeps at most this many lines before "...". */
  const KeyLineCap: nat := 20

  // ---------------------------------------------------------------- scanning

  /** A directory the walk does not descend into. */
  predicate PrunedDir(dir: string)
  {
    StartsWith(dir, ".") || dir == "_archived"
  }

  /** Whether the scan reports a file: no pruned directory on its path and a supported suffix. */
  predicate Admitted(d: Doc)
  {
    (forall k :: 0 <= k < |d.dirs| ==> !PrunedDir(d.dirs[k]))
    && SupportedSuffix(Suffix(d.name))
  }

  /** `scan_documents` over the files of a directory walk, in walk order. */
  function ScanDocuments(listing: seq<Doc>): seq<Doc>
  {
    if |listing| == 0 then []
    else
      var n := |listing| - 1;
      ScanDocuments(listing[..n]) + (if Admitted(listing[n]) then [listing[n]] else [])
  }

  /** The scan reports exactly the admitted files of the walk. */
  lemma {:induction false} ScanDocumentsSpec(listing: seq<Doc>, d: Doc)
    ensures d in ScanDocuments(listing) <==> d in listing && Admitted(d)
  {
    if |listing| > 0 {
      var n := |listing| - 1;
      ScanDocumentsSpec(listing[..n], d);
      assert listing == listing[..n] + [listing[n]];
    }
  }

  /**
   * This scanner has no merged-file filter: a merged file written by an earlier run, in any
   * directory the walk enters, is scanned (and classified and merged) again.
   */
  lemma MergedFileRescanned(theme: string, listing: seq<Doc>, dirs: seq<string>, text: Option<string>)
    requires Doc(dirs, MergedName(theme), text) in listing
    requires forall k :: 0 <= k < |dirs| ==> !PrunedDir(dirs[k])
    ensures Doc(dirs, MergedName(theme), text) in ScanDocuments(listing)
  {
    ScanDocumentsSpec(listing, Doc(dirs, MergedName(theme), text));
    MergedNameSuffix(theme);
  }

  // ---------------------------------------------------------------- classification

  /** The two texts a theme is matched against, as written: the stem and the first 1000 characters of content. */
  datatype DocView = DocView(name: string, head: string)

  function View(d: Doc): DocView
  {
    DocView(DocStem(d), Prefix(Content(d), 1000))
  }

  /** A theme's score: the number of its keywords occurring in the name or in the content prefix, case-sensitively. */
  function ThemeScore(v: DocView, keywords: seq<string>): (n: nat)
    ensures n <= |keywords|
  {
    if |keywords| == 0 then 0
    else
      var k := |keywords| - 1;
      ThemeScore(v, keywords[..k]) + (if Contains(v.name, keywords[k]) || Contains(v.head, keywords[k]) then 1 else 0)
  }

  /**
   * Each keyword counts at most once: the score is at least the number of keywords in the
   * name and at least the number in the content prefix, and at most their sum.
   */
  lemma {:induction false} ThemeScoreBounds(v: DocView, keywords: seq<string>)
    ensures Hits(v.name, keywords) <= ThemeScore(v, keywords)
    ensures Hits(v.head, keywords) <= ThemeScore(v, keywords)
    ensures ThemeScore(v, keywords) <= Hits(v.name, keywords) + Hits(v.head, keywords)
  {
    if |keywords| > 0 {
      ThemeScoreBounds(v, keywords[..|keywords| - 1]);
    }
  }

  /** A theme scores zero exactly when none of its keywords occurs in the name or the content prefix. */
  lemma ThemeScoreZeroIff(v: DocView, keywords: seq<string>)
    ensures ThemeScore(v, keywords) == 0 <==>
      forall i :: 0 <= i < |keywords| ==> !Contains(v.name, keywords[i]) && !Contains(v.head, keywords[i])
  {
    ThemeScoreBounds(v, keywords);
  }

  /** The keyword loop of `classify_by_theme` for one theme. */
  method MatchCount(v: DocView, keywords: seq<string>) returns (score: nat)
    ensures score == ThemeScore(v, keywords)
  {
    score := 0;
    var i := 0;
    while i < |keywords|
      invariant 0 <= i <= |keywords|
      invariant score == ThemeScore(v, keywords[..i])
    {
      TakeNext(keywords, i);
      assert keywords[..i + 1][..i] == keywords[..i];
      if Contains(v.name, keywords[i]) || Contains(v.head, keywords[i]) {
        score := score + 1;
      }
      i := i + 1;
    }
    TakeAll(keywords);
  }

  /** The document's score for every theme, in table order. */
  function Scores(v: DocView, themes: seq<(string, seq<string>)>): (r: seq<nat>)
    ensures |r| == |themes|
  {
    seq(|themes|, i requires 0 <= i < |themes| => ThemeScore(v, themes[i].1))
  }

  /** The group a document is sent to. */
  function Label(themes: seq<(string, seq<string>)>, d: Doc): string
  {
    BestTheme(ThemeNames(themes), Scores(View(d), themes))
  }

  /** The label of every document, in input order. */
  function Labels(themes: seq<(string, seq<string>)>, docs: seq<Doc>): (r: seq<string>)
    ensures |r| == |docs|
  {
    seq(|docs|, i requires 0 <= i < |docs| => Label(themes, docs[i]))
  }

  lemma LabelsAppend(themes: seq<(string, seq<string>)>, docs: seq<Doc>, d: Doc)
    ensures Labels(themes, docs + [d]) == Labels(themes, docs) + [Label(themes, d)]
  {
  }

  /** No theme of the table is called "未分类", so that group only ever holds unmatched documents. */
  lemma UnclassifiedNotATheme()
    ensures Unclassified !in ThemeNames(Themes)
  {
    var names := ThemeNames(Themes);
    forall i | 0 <= i < |names| ensures names[i] != Unclassified {
      assert names[i][0] != Unclassified[0];
    }
  }

  /** A document goes to "未分类" iff it scores zero everywhere, and otherwise to the first theme with the top score. */
  lemma LabelSpec(themes: seq<(string, seq<string>)>, d: Doc)
    requires Unclassified !in ThemeNames(themes)
    ensures Label(themes, d) == Unclassified <==> forall j :: 0 <= j < |themes| ==> Scores(View(d), themes)[j] == 0
    ensures Label(themes, d) != Unclassified ==>
      exists k :: (0 <= k < |themes| && Label(themes, d) == themes[k].0 && Scores(View(d), themes)[k] > 0
                   && (forall j :: 0 <= j < |themes| ==> Scores(View(d), themes)[j] <= Scores(View(d), themes)[k])
                   && (forall j :: 0 <= j < k ==> Scores(View(d), themes)[j] < Scores(View(d), themes)[k]))
  {
    BestThemeSpec(ThemeNames(themes), Scores(View(d), themes));
  }

  /** The loop over the theme table, collecting each theme's score. */
  method ScoreThemes(v: DocView, themes: seq<(string, seq<string>)>) returns (scores: seq<nat>)
    ensures scores == Scores(v, themes)
  {
    scores := [];
    var i := 0;
    while i < |themes|
      invariant 0 <= i <= |themes|
      invariant |scores| == i
      invariant forall j :: 0 <= j < i ==> scores[j] == ThemeScore(v, themes[j].1)
    {
      var s := MatchCount(v, themes[i].1);
      scores := scores + [s];
      i := i + 1;
    }
  }

  /** Scores every theme for one document and picks its group. */
  method ClassifyDocument(themes: seq<(string, seq<string>)>, d: Doc) returns (group: string)
    ensures group == Label(themes, d)
  {
    var scores := ScoreThemes(View(d), themes);
    if |scores| > 0 && scores[ArgMax(scores)] > 0 {
      group := themes[ArgMax(scores)].0;
    } else {
      group := Unclassified;
    }
  }

  /** The document loop of `classify_by_theme`: matched documents join their theme's list, the rest a separate list. */
  method CollectByTheme(themes: seq<(string, seq<string>)>, docs: seq<Doc>)
    returns (themed: map<string, seq<Doc>>, unclassified: seq<Doc>)
    ensures Groups(themed, unclassified) == Collect(docs, Labels(themes, docs))
  {
    themed, unclassified := map[], [];
    ghost var seen: seq<Doc>, labels: seq<string> := [], [];
    var i := 0;
    while i < |docs|
      invariant 0 <= i <= |docs| && seen == docs[..i] && labels == Labels(themes, seen)
      invariant Groups(themed, unclassified) == Collect(seen, labels)
    {
      TakeNext(docs, i);
      var group := ClassifyDocument(themes, docs[i]);
      LabelsAppend(themes, seen, docs[i]);
      CollectAppend(seen, labels, docs[i], group);
      if group == Unclassified {
        unclassified := unclassified + [docs[i]];
      } else {
        themed := themed[group := (if group in themed then themed[group] else []) + [docs[i]]];
      }
      seen, labels := seen + [docs[i]], labels + [group];
      i := i + 1;
    }
    TakeAll(docs);
  }

  /**
   * `classify_by_theme`: the walk, then the "未分类" list stored under its own key when it is
   * not empty. Every document ends up in the group of its label, and only there.
   */
  method ClassifyByTheme(themes: seq<(string, seq<string>)>, docs: seq<Doc>) returns (groups: map<string, seq<Doc>>)
    requires Unclassified !in ThemeNames(themes)
    ensures groups == GroupBy(docs, Labels(themes, docs))
  {
    var themed, unclassified := CollectByTheme(themes, docs);
    GroupsAssembled(docs, Labels(themes, docs));
    if |unclassified| > 0 {
      groups := themed[Unclassified := unclassified];
    } else {
      groups := themed;
    }
  }

  // ---------------------------------------------------------------- importance

  /** The content-size tier. */
  function SizeTier(len: nat): nat
  {
    if len > 5000 then 5 else if len > 2000 then 3 else if len > 500 then 1 else 0
  }

  /** Heading, subheading and code-fence markers, each counted once. */
  function StructureBonus(content: string): nat
  {
    (if Contains(content, "# ") then 2 else 0) + (if Contains(content, "## ") then 1 else 0)
    + (if Contains(content, "```") then 1 else 0)
  }

  /** Every "## " holds a "# ", so a subheading always earns the heading bonus as well. */
  lemma {:induction false} SubheadingHasHeading(content: string)
    requires Contains(content, "## ")
    ensures Contains(content, "# ")
    ensures StructureBonus(content) >= 3
    decreases |content|
  {
    if StartsWith(content, "## ") {
      assert StartsWith(content[1..], "# ");
    } else {
      SubheadingHasHeading(content[1..]);
    }
  }

  /** `calculate_document_importance`: name weights on the stem as written, size tier and structure bonus. */
  function Importance(weights: seq<(string, nat)>, d: Doc): nat
  {
    var content := Content(d);
    NameWeight(DocStem(d), weights) + SizeTier(|content|) + StructureBonus(content)
  }

  /** The score lies between the weight of any keyword in the stem and the sum of all weights plus 9. */
  lemma ImportanceBounds(weights: seq<(string, nat)>, d: Doc, k: nat)
    requires k < |weights| && Contains(DocStem(d), weights[k].0)
    ensures weights[k].1 <= Importance(weights, d) <= TotalWeight(weights) + 9
  {
    NameWeightBounds(DocStem(d), weights, k);
  }

  /** The importance score, accumulated over the weight table as the script does. */
  method CalculateImportance(weights: seq<(string, nat)>, d: Doc) returns (score: nat)
    ensures score == Importance(weights, d)
  {
    var name := DocStem(d);
    score := 0;
    var i := 0;
    while i < |weights|
      invariant 0 <= i <= |weights|
      invariant score == NameWeight(name, weights[..i])
    {
      TakeNext(weights, i);
      assert weights[..i + 1][..i] == weights[..i];
      if Contains(name, weights[i].0) {
        score := score + weights[i].1;
      }
      i := i + 1;
    }
    TakeAll(weights);
    var content := Content(d);
    var length := |content|;
    if length > 5000 {
      score := score + 5;
    } else if length > 2000 {
      score := score + 3;
    } else if length > 500 {
      score := score + 1;
    }
    if Contains(content, "# ") {
      score := score + 2;
    }
    if Contains(content, "## ") {
      score := score + 1;
    }
    if Contains(content, "```") {
      score := score + 1;
    }
  }

  // ---------------------------------------------------------------- master selection

  function Rank(weights: seq<(string, nat)>, d: Doc): Ranked
  {
    Ranked(d, Importance(weights, d), |Content(d)|)
  }

  function RankAll(weights: seq<(string, nat)>, docs: seq<Doc>): (r: seq<Ranked>)
    ensures |r| == |docs|
  {
    seq(|docs|, i requires 0 <= i < |docs| => Rank(weights, docs[i]))
  }

  lemma RankAllAppend(weights: seq<(string, nat)>, docs: seq<Doc>, d: Doc)
    ensures RankAll(weights, docs + [d]) == RankAll(weights, docs) + [Rank(weights, d)]
  {
  }

  function SelectMaster(weights: seq<(string, nat)>, docs: seq<Doc>): Doc
    requires |docs| >= 1
  {
    Master(RankAll(weights, docs))
  }

  /**
   * The master is one of the documents, no document ranks above it by (score, length), and
   * every earlier document ranks strictly below it: exact ties go to the first one met.
   */
  lemma SelectMasterSpec(weights: seq<(string, nat)>, docs: seq<Doc>)
    requires |docs| >= 1
    ensures exists k :: (0 <= k < |docs| && SelectMaster(weights, docs) == docs[k]
                         && (forall j :: 0 <= j < |docs| ==> KeyGe(RankAll(weights, docs)[k], RankAll(weights, docs)[j]))
                         && (forall j :: 0 <= j < k ==> !KeyGe(RankAll(weights, docs)[j], RankAll(weights, docs)[k])))
  {
    var ranked := RankAll(weights, docs);
    MasterSpec(ranked);
    var k := FirstBest(ranked);
    assert ranked[k].doc == docs[k];
  }

  /** The scoring loop of `select_master_document`: (document, score, content length) per document. */
  method RankDocuments(weights: seq<(string, nat)>, docs: seq<Doc>) returns (ranked: seq<Ranked>)
    ensures ranked == RankAll(weights, docs)
  {
    ranked := [];
    var i := 0;
    while i < |docs|
      invariant 0 <= i <= |docs|
      invariant ranked == RankAll(weights, docs[..i])
    {
      var score := CalculateImportance(weights, docs[i]);
      var entry := Ranked(docs[i], score, |Content(docs[i])|);
      RankAllAppend(weights, docs[..i], docs[i]);
      TakeNext(docs, i);
      ranked := ranked + [entry];
      i := i + 1;
    }
    TakeAll(docs);
  }

  /** `select_master_document`: the only member of a singleton, else the head of the stable descending sort. */
  method SelectMasterDocument(weights: seq<(string, nat)>, docs: seq<Doc>) returns (master: Doc)
    requires |docs| >= 1
    ensures master == SelectMaster(weights, docs)
  {
    if |docs| == 1 {
      return docs[0];
    }
    var ranked := RankDocuments(weights, docs);
    master := SortDesc(ranked)[0].doc;
  }

  // ---------------------------------------------------------------- key sections

  /** Whether a stripped, non-blank line is kept: a heading, a line with a signal word, or a fence. */
  predicate KeyLine(stripped: string)
  {
    StartsWith(stripped, "#")
    || (exists k :: 0 <= k < |SignalWords| && Contains(stripped, SignalWords[k]))
    || StartsWith(stripped, "```")
  }

  /** Whether a line is kept: its stripped form is non-blank and a key line. */
  predicate Kept(line: string)
  {
    Strip(line) != "" && KeyLine(Strip(line))
  }

  /** The stripped lines `extract_key_sections` keeps, in input order. */
  function KeyLines(lines: seq<string>): (r: seq<string>)
    ensures |r| <= |lines|
  {
    if |lines| == 0 then []
    else
      var n := |lines| - 1;
      KeyLines(lines[..n]) + (if Kept(lines[n]) then [Strip(lines[n])] else [])
  }

  /** At most 20 lines followed by "..." when more were kept. */
  function Capped(kept: seq<string>): seq<string>
  {
    if |kept| > KeyLineCap then kept[..KeyLineCap] + ["..."] else kept
  }

  function KeySections(content: string): string
  {
    Join(Capped(KeyLines(Split(content, '\n'))), "\n") + "\n"
  }

  /** Every kept line is the stripped form of a non-blank key line of the input, and is itself stripped. */
  lemma {:induction false} KeyLineOrigin(lines: seq<string>, l: string)
    requires l in KeyLines(lines)
    ensures exists i :: 0 <= i < |lines| && Kept(lines[i]) && l == Strip(lines[i])
    ensures Strip(l) == l && l != "" && KeyLine(l)
  {
    var n := |lines| - 1;
    var prefix := lines[..n];
    var last := lines[n];
    var tail := if Kept(last) then [Strip(last)] else [];
    assert KeyLines(lines) == KeyLines(prefix) + tail;
    if l in KeyLines(prefix) {
      KeyLineOrigin(prefix, l);
      var i :| 0 <= i < n && Kept(prefix[i]) && l == Strip(prefix[i]);
      assert prefix[i] == lines[i];
    } else {
      assert l in tail;
      assert Kept(last) && l == Strip(last);
      StripIdempotent(last);
    }
  }

  /** The key lines of all lines extend those of all but the last, by the last one when it is kept. */
  lemma KeyLinesStep(lines: seq<string>, x: string)
    requires |lines| > 0
    ensures x in KeyLines(lines[..|lines| - 1]) ==> x in KeyLines(lines)
    ensures Kept(lines[|lines| - 1]) ==> Strip(lines[|lines| - 1]) in KeyLines(lines)
  {
  }

  /** Every non-blank key line of the input is kept, stripped. */
  lemma {:induction false} KeyLineKept(lines: seq<string>, i: nat)
    requires i < |lines| && Kept(lines[i])
    ensures Strip(lines[i]) in KeyLines(lines)
  {
    var n := |lines| - 1;
    var prefix := lines[..n];
    var l := Strip(lines[i]);
    if i < n {
      assert prefix[i] == lines[i];
      KeyLineKept(prefix, i);
      KeyLinesStep(lines, l);
    } else {
      assert i == n;
      KeyLinesStep(lines, l);
    }
  }

  /** The kept lines of a split hold no newline. */
  lemma {:induction false} KeyLinesNoNewline(lines: seq<string>)
    requires forall i :: 0 <= i < |lines| ==> '\n' !in lines[i]
    ensures forall k :: 0 <= k < |KeyLines(lines)| ==> '\n' !in KeyLines(lines)[k]
  {
    if |lines| > 0 {
      var n := |lines| - 1;
      KeyLinesNoNewline(lines[..n]);
      StripChars(lines[n]);
    }
  }

  /**
   * At most 21 lines come out, and the text splits back into exactly those lines followed by
   * the empty part after the final newline.
   */
  lemma KeySectionsSpec(content: string)
    ensures |Capped(KeyLines(Split(content, '\n')))| <= KeyLineCap + 1
    ensures var capped := Capped(KeyLines(Split(content, '\n')));
      Split(KeySections(content), '\n') == (if |capped| > 0 then capped else [""]) + [""]
  {
    var kept := KeyLines(Split(content, '\n'));
    var capped := Capped(kept);
    KeyLinesNoNewline(Split(content, '\n'));
    var parts := if |capped| > 0 then capped else [""];
    forall k | 0 <= k < |parts| ensures '\n' !in parts[k] {
      if |kept| > KeyLineCap && k == KeyLineCap {
        assert parts[k] == "...";
      } else if |capped| > 0 {
        assert parts[k] == kept[k];
      }
    }
    var whole := parts + [""];
    assert forall k :: 0 <= k < |whole| ==> '\n' !in whole[k];
    JoinAppend(parts, "", "\n");
    assert Join(whole, "\n") == KeySections(content);
    SplitJoin(whole, '\n');
  }

  /** The line loop of `extract_key_sections`: strip each line, skip blank ones, keep key lines. */
  method FilterKeyLines(lines: seq<string>) returns (keyLines: seq<string>)
    ensures keyLines == KeyLines(lines)
  {
    keyLines := [];
    var i := 0;
    while i < |lines|
      invariant 0 <= i <= |lines|
      invariant keyLines == KeyLines(lines[..i])
    {
      TakeNext(lines, i);
      assert lines[..i + 1][..i] == lines[..i];
      var line := Strip(lines[i]);
      if line != "" && KeyLine(line) {
        keyLines := keyLines + [line];
      }
      i := i + 1;
    }
    TakeAll(lines);
  }

  /** `extract_key_sections`: the line loop, the cap at 20 lines plus "...", then join and a final newline. */
  method ExtractKeySections(content: string) returns (r: string)
    ensures r == KeySections(content)
  {
    var keyLines := FilterKeyLines(Split(content, '\n'));
    if |keyLines| > KeyLineCap {
      keyLines := keyLines[..KeyLineCap] + ["..."];
    }
    r := Join(keyLines, "\n") + "\n";
  }

  // ---------------------------------------------------------------- the merged file

  /** The supplementary section: a source heading and key sections for each document with over 50 non-blank characters. */
  function Supplement(others: seq<Doc>): string
  {
    if |others| == 0 then ""
    else
      var content := Content(others[0]);
      (if content != "" && |Strip(content)| > 50 then "### 来源: " + others[0].name + "\n" + KeySections(content) + "\n" else "")
      + Supplement(others[1..])
  }

  /** `extract_key_information`: header, the master's full content, the supplement and the numbered source list. */
  function MergedContent(docs: seq<Doc>, master: Doc, now: string): string
  {
    var masterContent := Content(master);
    var others := Others(docs, master);
    "# " + DocStem(master) + "\n\n"
    + "> 📝 本文档由多个相关文档合并而成\n"
    + "> 🕒 合并时间: " + now + "\n"
    + "> 📂 原始文档数量: " + NatToString(|docs|) + "\n\n---\n\n"
    + (if masterContent != "" then "## 主要内容\n" + masterContent + "\n---\n" else "")
    + (if |others| > 0 then "## 补充信息\n" + Supplement(others) else "")
    + "## 原始文档列表\n" + Manifest(docs, 0)
  }

  /** The merged file's relative path: in the master document's own directory. */
  function MergedPath(theme: string, master: Doc): string
  {
    Join(master.dirs + [MergedName(theme)], "/")
  }

  /**
   * The folder after `merge_theme_documents`: unchanged for a group of at most one document
   * or when the write fails; otherwise the merged file is written next to the master and
   * every member except the merged file and the undeletable ones is removed.
   */
  function MergeEffect(files: map<string, string>, weights: seq<(string, nat)>, theme: string, docs: seq<Doc>,
                       now: string, writeFails: bool, undeletable: set<string>): map<string, string>
  {
    if |docs| <= 1 || writeFails then files
    else
      var master := SelectMaster(weights, docs);
      var merged := MergedPath(theme, master);
      files[merged := MergedContent(docs, master, now)] - Deleted(merged, docs, undeletable)
  }

  /**
   * A successful merge leaves the merged file holding the merged text, removes every member
   * other than the merged file and the undeletable ones, and leaves every other file alone.
   */
  lemma MergeEffectSpec(files: map<string, string>, weights: seq<(string, nat)>, theme: string, docs: seq<Doc>,
                        now: string, undeletable: set<string>)
    requires |docs| > 1
    ensures var master := SelectMaster(weights, docs);
      var merged := MergedPath(theme, master);
      var after := MergeEffect(files, weights, theme, docs, now, false, undeletable);
      merged in after && after[merged] == MergedContent(docs, master, now)
      && (forall d :: d in docs && RelPath(d) in after ==> RelPath(d) == merged || RelPath(d) in undeletable)
      && (forall p :: p in files && p != merged && (forall d :: d in docs ==> RelPath(d) != p) ==> p in after && after[p] == files[p])
  {
    var master := SelectMaster(weights, docs);
    var merged := MergedPath(theme, master);
    var content := MergedContent(docs, master, now);
    var gone := Deleted(merged, docs, undeletable);
    var after := MergeEffect(files, weights, theme, docs, now, false, undeletable);
    assert after == files[merged := content] - gone;
    assert merged !in gone;
    forall d | d in docs && RelPath(d) in after ensures RelPath(d) == merged || RelPath(d) in undeletable {
      assert RelPath(d) !in gone;
    }
    forall p | p in files && p != merged && (forall d :: d in docs ==> RelPath(d) != p) ensures p in after && after[p] == files[p] {
      assert p !in gone;
    }
  }

  /** The folder after merging each (theme, group) pair in turn, each merge failing to write when its theme is in `failing`. */
  function RunEffect(files: map<string, string>, weights: seq<(string, nat)>, groups: seq<(string, seq<Doc>)>,
                     now: string, failing: set<string>, undeletable: set<string>): map<string, string>
  {
    if |groups| == 0 then files
    else
      var n := |groups| - 1;
      MergeEffect(RunEffect(files, weights, groups[..n], now, failing, undeletable), weights,
                  groups[n].0, groups[n].1, now, groups[n].0 in failing, undeletable)
  }

  /** The result `run` records per theme: a group of more than one document records whether its merge succeeded, any other group success. */
  function RunResults(groups: seq<(string, seq<Doc>)>, failing: set<string>): map<string, bool>
  {
    if |groups| == 0 then map[]
    else
      var n := |groups| - 1;
      RunResults(groups[..n], failing)[groups[n].0 := |groups[n].1| <= 1 || groups[n].0 !in failing]
  }

  /** With distinct theme names every theme gets exactly one result: failure only for a larger group whose write fails. */
  lemma {:induction false} RunResultsSpec(groups: seq<(string, seq<Doc>)>, failing: set<string>)
    requires forall i, j :: 0 <= i < j < |groups| ==> groups[i].0 != groups[j].0
    ensures forall t :: t in RunResults(groups, failing) <==> exists i :: 0 <= i < |groups| && groups[i].0 == t
    ensures forall i :: 0 <= i < |groups| ==>
      RunResults(groups, failing)[groups[i].0] == (|groups[i].1| <= 1 || groups[i].0 !in failing)
  {
    if |groups| > 0 {
      var n := |groups| - 1;
      var prefix := groups[..n];
      assert forall i :: 0 <= i < n ==> prefix[i] == groups[i];
      RunResultsSpec(prefix, failing);
      forall t | t in RunResults(groups, failing) ensures exists i :: 0 <= i < |groups| && groups[i].0 == t {
        if t != groups[n].0 {
          var i :| 0 <= i < n && prefix[i].0 == t;
          assert groups[i].0 == t;
        }
      }
    }
  }

  lemma RunStep(files: map<string, string>, weights: seq<(string, nat)>, groups: seq<(string, seq<Doc>)>, i: nat,
                now: string, failing: set<string>, undeletable: set<string>)
    requires i < |groups|
    ensures RunEffect(files, weights, groups[..i + 1], now, failing, undeletable) ==
      MergeEffect(RunEffect(files, weights, groups[..i], now, failing, undeletable), weights,
                  groups[i].0, groups[i].1, now, groups[i].0 in failing, undeletable)
    ensures RunResults(groups[..i + 1], failing) ==
      RunResults(groups[..i], failing)[groups[i].0 := |groups[i].1| <= 1 || groups[i].0 !in failing]
  {
    assert groups[..i + 1][..i] == groups[..i];
  }

  /** A run over groups of at most one document each writes and deletes nothing. */
  lemma {:induction false} RunSingletonsUntouched(files: map<string, string>, weights: seq<(string, nat)>,
                                                  groups: seq<(string, seq<Doc>)>, now: string,
                                                  failing: set<string>, undeletable: set<string>)
    requires forall i :: 0 <= i < |groups| ==> |groups[i].1| <= 1
    ensures RunEffect(files, weights, groups, now, failing, undeletable) == files
  {
    if |groups| > 0 {
      var n := |groups| - 1;
      assert forall i :: 0 <= i < n ==> groups[..n][i] == groups[i];
      RunSingletonsUntouched(files, weights, groups[..n], now, failing, undeletable);
    }
  }

  /** The merger: the docs folder it works on and its name-keyword weights. */
  class DocumentMerger {
    const folder: DocsFolder
    const weights: seq<(string, nat)>

    constructor (folder: DocsFolder)
      ensures this.folder == folder && weights == Weights
    {
      this.folder := folder;
      weights := Weights;
    }

    /**
     * `merge_theme_documents`: a group of at most one document is reported as merged and
     * left alone; otherwise the merged file is written first and the members are unlinked
     * after it. A failed write reports failure.
     */
    method MergeThemeDocuments(theme: string, docs: seq<Doc>, now: string, writeFails: bool, undeletable: set<string>)
      returns (ok: bool)
      modifies folder
      ensures ok == (|docs| <= 1 || !writeFails)
      ensures folder.files == MergeEffect(old(folder.files), weights, theme, docs, now, writeFails, undeletable)
    {
      if |docs| <= 1 {
        return true;
      }
      var master := SelectMasterDocument(weights, docs);
      var content := MergedContent(docs, master, now);
      var merged := MergedPath(theme, master);
      if writeFails {
        return false;
      }
      folder.files := folder.files[merged := content];
      folder.RemoveMembers(merged, docs, undeletable);
      ok := true;
    }

    /**
     * The merge loop of `run`, over the classifier's groups in dictionary order: a group of
     * more than one document is merged and records whether that succeeded; a smaller group
     * is recorded as successful without being touched.
     */
    method Run(groups: seq<(string, seq<Doc>)>, now: string, failing: set<string>, undeletable: set<string>)
      returns (results: map<string, bool>)
      modifies folder
      ensures results == RunResults(groups, failing)
      ensures folder.files == RunEffect(old(folder.files), weights, groups, now, failing, undeletable)
    {
      results := map[];
      var i := 0;
      while i < |groups|
        invariant 0 <= i <= |groups|
        invariant results == RunResults(groups[..i], failing)
        invariant folder.files == RunEffect(old(folder.files), weights, groups[..i], now, failing, undeletable)
      {
        RunStep(old(folder.files), weights, groups, i, now, failing, undeletable);
        var (theme, docs) := groups[i];
        if |docs| > 1 {
          var ok := MergeThemeDocuments(theme, docs, now, theme in failing, undeletable);
          results := results[theme := ok];
        } else {
          results := results[theme := true];
        }
        i := i + 1;
      }
      TakeAll(groups);
    }
  }
}
