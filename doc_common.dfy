/**
 * What the two documentation-merge scripts share: documents as in-memory records, the
 * `pathlib` name/stem/suffix rules, how a directory walk is filtered, how a document's
 * content is read, keyword hit counting, the "first best theme" choice that Python's `max`
 * makes, grouping by theme and the stable descending sort used to pick a master document.
 */
module DocCommon {
  import opened Wrappers
  import opened Strings

  /** The group that documents matching no theme land in. */
  const Unclassified: string := "未分类"

  /** The suffix every merged output file carries. */
  const MergedSuffix: string := "_合并文档.md"

  /**
   * A document as the directory walk yields it: the directories between the docs root and
   * the file, the file name, and the text reading it would give (None when reading fails).
   */
  datatype Doc = Doc(dirs: seq<string>, name: string, text: Option<string>)

  /** Python's `s[:n]`. */
  function Prefix(s: string, n: nat): (r: string)
    ensures |r| == if |s| <= n then |s| else n
    ensures r == s[..|r|]
  {
    if |s| <= n then s else s[..n]
  }

  /** `str(doc_path.relative_to(docs_path))`: the components joined with '/'. */
  function RelPath(d: Doc): string
  {
    Join(d.dirs + [d.name], "/")
  }

  /** `name.rfind('.')`: the index of the last '.', or -1. */
  function LastDot(s: string): (i: int)
    ensures -1 <= i < |s|
    ensures i >= 0 ==> s[i] == '.'
    ensures forall j :: i < j < |s| ==> s[j] != '.'
    decreases |s|
  {
    if |s| == 0 then -1
    else if s[|s| - 1] == '.' then |s| - 1
    else LastDot(s[..|s| - 1])
  }

  /** `Path.suffix`: from the last dot, unless that dot leads the name or ends it. */
  function Suffix(name: string): string
  {
    var i := LastDot(name);
    if 0 < i < |name| - 1 then name[i..] else ""
  }

  /** `Path.stem`: the name without its suffix. */
  function Stem(name: string): string
  {
    var i := LastDot(name);
    if 0 < i < |name| - 1 then name[..i] else name
  }

  /** A name is always its stem followed by its suffix, and a suffix is empty or a dot and more. */
  lemma StemSuffix(name: string)
    ensures Stem(name) + Suffix(name) == name
    ensures Suffix(name) == "" || (|Suffix(name)| >= 2 && Suffix(name)[0] == '.' && '.' !in Suffix(name)[1..])
  {
    var i := LastDot(name);
    if 0 < i < |name| - 1 {
      assert name[..i] + name[i..] == name;
      forall j | 0 <= j < |name[i..]| - 1 ensures name[i..][1..][j] != '.' {
        assert name[i..][1..][j] == name[i + 1 + j];
      }
    }
  }

  /** The extensions the scanner accepts, compared after lower-casing the suffix. */
  predicate SupportedSuffix(suffix: string)
  {
    var s := Lower(suffix);
    s == ".md" || s == ".txt" || s == ".docx" || s == ".doc"
  }

  /**
   * The text `read_document_content` returns: the file's text for .md/.txt, the stem for
   * .docx/.doc, and "" otherwise or when reading fails.
   */
  function Content(d: Doc): string
  {
    var s := Lower(Suffix(d.name));
    if s == ".md" || s == ".txt" then d.text.GetOr("")
    else if s == ".docx" || s == ".doc" then Stem(d.name)
    else ""
  }

  /** The document's stem (`doc_path.stem`). */
  function DocStem(d: Doc): string { Stem(d.name) }

  /** `str(doc_path)` for a document under the docs root. */
  function FullPath(root: string, d: Doc): string { root + "/" + RelPath(d) }

  /** The number of keywords that occur in `hay`. */
  function Hits(hay: string, keywords: seq<string>): (n: nat)
    ensures n <= |keywords|
    ensures n == 0 <==> forall k :: 0 <= k < |keywords| ==> !Contains(hay, keywords[k])
  {
    if |keywords| == 0 then 0
    else
      var last := keywords[|keywords| - 1];
      Hits(hay, keywords[..|keywords| - 1]) + (if Contains(hay, last) then 1 else 0)
  }

  /** The keywords lower-cased, as a case-insensitive match needs. */
  function LowerAll(keywords: seq<string>): (r: seq<string>)
    ensures |r| == |keywords|
    ensures forall k :: 0 <= k < |r| ==> r[k] == Lower(keywords[k])
  {
    seq(|keywords|, k requires 0 <= k < |keywords| => Lower(keywords[k]))
  }

  /**
   * The index Python's `max(..., key=score)` picks: the first position holding the largest
   * score (a later score replaces the running best only when strictly larger).
   */
  function ArgMax(scores: seq<nat>): (k: nat)
    requires |scores| > 0
    ensures k < |scores|
    ensures forall j :: 0 <= j < |scores| ==> scores[j] <= scores[k]
    ensures forall j :: 0 <= j < k ==> scores[j] < scores[k]
  {
    if |scores| == 1 then 0
    else
      var k := ArgMax(scores[..|scores| - 1]);
      if scores[|scores| - 1] > scores[k] then |scores| - 1 else k
  }

  /**
   * The theme a document is classified into, given its score for every theme in table order:
   * the first best-scoring theme when some score is positive, and "未分类" otherwise.
   * Keeping only positive scores before taking the maximum, as the scripts do, picks the same
   * theme, because a positive maximum is never shared with a zero score.
   */
  function BestTheme(themes: seq<string>, scores: seq<nat>): string
    requires |themes| == |scores|
  {
    if |scores| == 0 then Unclassified
    else
      var k := ArgMax(scores);
      if scores[k] > 0 then themes[k] else Unclassified
  }

  /** Every document lands in "未分类" exactly when it scores zero for all themes, otherwise in the first best theme. */
  lemma BestThemeSpec(themes: seq<string>, scores: seq<nat>)
    requires |themes| == |scores|
    requires Unclassified !in themes
    ensures BestTheme(themes, scores) == Unclassified <==> forall j :: 0 <= j < |scores| ==> scores[j] == 0
    ensures BestTheme(themes, scores) != Unclassified ==>
      exists k :: 0 <= k < |scores| && BestTheme(themes, scores) == themes[k] && scores[k] > 0
        && (forall j :: 0 <= j < |scores| ==> scores[j] <= scores[k])
        && (forall j :: 0 <= j < k ==> scores[j] < scores[k])
  {
    if |scores| > 0 {
      var k := ArgMax(scores);
      if scores[k] > 0 {
        assert themes[k] in themes;
      }
    }
  }

  /** The documents labelled `t`, in input order. */
  function Select(docs: seq<Doc>, labels: seq<string>, t: string): (r: seq<Doc>)
    requires |docs| == |labels|
    ensures |r| <= |docs|
    ensures forall d :: d in r ==> d in docs
  {
    if |docs| == 0 then []
    else
      var n := |docs| - 1;
      Select(docs[..n], labels[..n], t) + (if labels[n] == t then [docs[n]] else [])
  }

  /** The groups `classify_by_theme` returns: one non-empty list per label used, in input order. */
  function GroupBy(docs: seq<Doc>, labels: seq<string>): map<string, seq<Doc>>
    requires |docs| == |labels|
  {
    map t | t in labels :: Select(docs, labels, t)
  }

  lemma {:induction false} SelectNonEmpty(docs: seq<Doc>, labels: seq<string>, i: nat)
    requires |docs| == |labels| && i < |docs|
    ensures docs[i] in Select(docs, labels, labels[i])
  {
    var n := |docs| - 1;
    if i < n {
      SelectNonEmpty(docs[..n], labels[..n], i);
    }
  }

  lemma {:induction false} SelectAbsent(docs: seq<Doc>, labels: seq<string>, t: string)
    requires |docs| == |labels| && t !in labels
    ensures Select(docs, labels, t) == []
  {
    if |docs| > 0 {
      var n := |docs| - 1;
      assert forall j :: 0 <= j < n ==> labels[..n][j] == labels[j];
      SelectAbsent(docs[..n], labels[..n], t);
    }
  }

  lemma {:induction false} SelectHasLabel(docs: seq<Doc>, labels: seq<string>, t: string)
    requires |docs| == |labels| && |Select(docs, labels, t)| > 0
    ensures t in labels
  {
    var n := |docs| - 1;
    if labels[n] != t {
      SelectHasLabel(docs[..n], labels[..n], t);
      assert labels[..n] <= labels;
    }
  }

  /** Each document is in the group of its own label, and every group is non-empty. */
  lemma GroupByMembership(docs: seq<Doc>, labels: seq<string>)
    requires |docs| == |labels|
    ensures forall i :: 0 <= i < |docs| ==> labels[i] in GroupBy(docs, labels) && docs[i] in GroupBy(docs, labels)[labels[i]]
    ensures forall t :: t in GroupBy(docs, labels) ==> |GroupBy(docs, labels)[t]| > 0
  {
    forall i | 0 <= i < |docs| ensures docs[i] in Select(docs, labels, labels[i]) {
      SelectNonEmpty(docs, labels, i);
    }
    forall t | t in labels ensures |Select(docs, labels, t)| > 0 {
      var i :| 0 <= i < |labels| && labels[i] == t;
      SelectNonEmpty(docs, labels, i);
    }
  }

  /** Adding one more labelled document appends it to its group and leaves the others alone. */
  lemma GroupByStep(docs: seq<Doc>, labels: seq<string>, d: Doc, t: string)
    requires |docs| == |labels|
    ensures GroupBy(docs + [d], labels + [t]) ==
      GroupBy(docs, labels)[t := (if t in GroupBy(docs, labels) then GroupBy(docs, labels)[t] else []) + [d]]
  {
    var docs', labels' := docs + [d], labels + [t];
    assert docs'[..|docs|] == docs && labels'[..|docs|] == labels;
    if t !in labels {
      SelectAbsent(docs, labels, t);
    }
    var g, g' := GroupBy(docs, labels), GroupBy(docs', labels');
    var h := g[t := (if t in g then g[t] else []) + [d]];
    forall u ensures u in g' <==> u in h {
      assert u in labels' <==> u in labels || u == t;
    }
    forall u | u in g' ensures g'[u] == h[u] {
      assert Select(docs', labels', u) == Select(docs, labels, u) + (if u == t then [d] else []);
    }
  }

  /**
   * One document of the classifier loop: the themed map and the "未分类" list, kept apart,
   * grow exactly as the grouping of the longer prefix does.
   */
  lemma GroupStepSplit(docs: seq<Doc>, labels: seq<string>, d: Doc, t: string,
                       themed: map<string, seq<Doc>>, unclassified: seq<Doc>)
    requires |docs| == |labels|
    requires themed == GroupBy(docs, labels) - {Unclassified}
    requires unclassified == Select(docs, labels, Unclassified)
    ensures t == Unclassified ==>
      themed == GroupBy(docs + [d], labels + [t]) - {Unclassified}
      && unclassified + [d] == Select(docs + [d], labels + [t], Unclassified)
    ensures t != Unclassified ==>
      themed[t := (if t in themed then themed[t] else []) + [d]] == GroupBy(docs + [d], labels + [t]) - {Unclassified}
      && unclassified == Select(docs + [d], labels + [t], Unclassified)
  {
    GroupByStep(docs, labels, d, t);
    var docs', labels' := docs + [d], labels + [t];
    assert docs'[..|docs|] == docs && labels'[..|docs|] == labels;
  }

  lemma TakeNext<T>(s: seq<T>, i: nat)
    requires i < |s|
    ensures s[..i + 1] == s[..i] + [s[i]]
  {
  }

  lemma IndexOfPrefix<T>(s: seq<T>, n: nat, i: nat)
    requires i < n <= |s|
    ensures s[..n][i] == s[i]
  {
  }

  lemma IndexOfAppend<T>(s: seq<T>, x: T, i: nat)
    requires i < |s|
    ensures (s + [x])[i] == s[i]
  {
  }

  lemma TakeAll<T>(s: seq<T>)
    ensures s[..|s|] == s
  {
  }

  /** The two collections `classify_by_theme` builds while it walks the documents. */
  datatype Groups = Groups(themed: map<string, seq<Doc>>, unclassified: seq<Doc>)

  /** The walk itself: a themed document is appended to its theme's list, any other to the "未分类" list. */
  function Collect(docs: seq<Doc>, labels: seq<string>): Groups
    requires |docs| == |labels|
  {
    if |docs| == 0 then Groups(map[], [])
    else
      var n := |docs| - 1;
      var g := Collect(docs[..n], labels[..n]);
      if labels[n] == Unclassified then Groups(g.themed, g.unclassified + [docs[n]])
      else Groups(g.themed[labels[n] := (if labels[n] in g.themed then g.themed[labels[n]] else []) + [docs[n]]], g.unclassified)
  }

  /** The walk sends every themed document to its theme's group and the rest to the "未分类" list. */
  lemma {:induction false} CollectSpec(docs: seq<Doc>, labels: seq<string>)
    requires |docs| == |labels|
    ensures Collect(docs, labels).themed == GroupBy(docs, labels) - {Unclassified}
    ensures Collect(docs, labels).unclassified == Select(docs, labels, Unclassified)
  {
    if |docs| > 0 {
      var n := |docs| - 1;
      var g := Collect(docs[..n], labels[..n]);
      CollectSpec(docs[..n], labels[..n]);
      GroupStepSplit(docs[..n], labels[..n], docs[n], labels[n], g.themed, g.unclassified);
      assert docs == docs[..n] + [docs[n]] && labels == labels[..n] + [labels[n]];
    }
  }

  lemma CollectAppend(docs: seq<Doc>, labels: seq<string>, d: Doc, t: string)
    requires |docs| == |labels|
    ensures var g := Collect(docs, labels);
      Collect(docs + [d], labels + [t]) ==
        if t == Unclassified then Groups(g.themed, g.unclassified + [d])
        else Groups(g.themed[t := (if t in g.themed then g.themed[t] else []) + [d]], g.unclassified)
  {
    assert (docs + [d])[..|docs|] == docs && (labels + [t])[..|docs|] == labels;
  }

  /**
   * Storing the non-empty "未分类" list under its own key after the walk yields the grouping:
   * each label used maps to its documents in input order.
   */
  lemma GroupsAssembled(docs: seq<Doc>, labels: seq<string>)
    requires |docs| == |labels|
    ensures var g := Collect(docs, labels);
      (if |g.unclassified| > 0 then g.themed[Unclassified := g.unclassified] else g.themed) == GroupBy(docs, labels)
  {
    var g := Collect(docs, labels);
    var full := GroupBy(docs, labels);
    CollectSpec(docs, labels);
    if |g.unclassified| > 0 {
      SelectHasLabel(docs, labels, Unclassified);
      var m := g.themed[Unclassified := g.unclassified];
      forall t ensures t in m <==> t in full {
      }
      forall t | t in m ensures m[t] == full[t] {
      }
    } else {
      assert Unclassified !in labels by {
        if Unclassified in labels {
          var i :| 0 <= i < |labels| && labels[i] == Unclassified;
          SelectNonEmpty(docs, labels, i);
        }
      }
      forall t ensures t in g.themed <==> t in full {
      }
    }
  }

  /** A document with its importance score and content length, as ranked by `select_master_document`. */
  datatype Ranked = Ranked(doc: Doc, score: nat, len: nat)

  /** The sort key (score, length) compared as a tuple. */
  predicate KeyGe(a: Ranked, b: Ranked)
  {
    a.score > b.score || (a.score == b.score && a.len >= b.len)
  }

  /**
   * `list.sort(key=(score, len), reverse=True)`: a stable sort, so among equal keys the
   * earlier element stays first. Inserting the head in front of the first element whose
   * key it reaches keeps it ahead of the later equal ones.
   */
  function Insert(x: Ranked, s: seq<Ranked>): (r: seq<Ranked>)
    ensures |r| == |s| + 1
    ensures multiset(r) == multiset(s) + multiset{x}
  {
    if |s| == 0 || KeyGe(x, s[0]) then [x] + s
    else
      assert s == [s[0]] + s[1..];
      [s[0]] + Insert(x, s[1..])
  }

  function SortDesc(s: seq<Ranked>): (r: seq<Ranked>)
    ensures |r| == |s|
    ensures multiset(r) == multiset(s)
  {
    if |s| == 0 then []
    else
      assert s == [s[0]] + s[1..];
      Insert(s[0], SortDesc(s[1..]))
  }

  predicate SortedDesc(s: seq<Ranked>)
  {
    forall i, j :: 0 <= i < j < |s| ==> KeyGe(s[i], s[j])
  }

  lemma {:induction false} InsertSorted(x: Ranked, s: seq<Ranked>)
    requires SortedDesc(s)
    ensures SortedDesc(Insert(x, s))
  {
    if |s| > 0 && !KeyGe(x, s[0]) {
      InsertSorted(x, s[1..]);
      var r := Insert(x, s[1..]);
      forall k | 0 <= k < |r| ensures KeyGe(s[0], r[k]) {
        assert r[k] in multiset(r);
        assert r[k] in multiset(s[1..]) + multiset{x};
        if r[k] == x {
        } else {
          assert r[k] in s[1..];
        }
      }
    }
  }

  /** The sort orders by (score, length) from largest to smallest and keeps every element. */
  lemma {:induction false} SortDescSorted(s: seq<Ranked>)
    ensures SortedDesc(SortDesc(s))
    ensures multiset(SortDesc(s)) == multiset(s)
  {
    if |s| > 0 {
      SortDescSorted(s[1..]);
      InsertSorted(s[0], SortDesc(s[1..]));
    }
  }

  /** The first position holding the largest key. */
  function FirstBest(s: seq<Ranked>): (k: nat)
    requires |s| > 0
    ensures k < |s|
    ensures forall j :: 0 <= j < |s| ==> KeyGe(s[k], s[j])
    ensures forall j :: 0 <= j < k ==> !KeyGe(s[j], s[k])
  {
    if |s| == 1 then 0
    else
      var k := 1 + FirstBest(s[1..]);
      assert forall j :: 1 <= j < |s| ==> s[j] == s[1..][j - 1];
      if KeyGe(s[0], s[k]) then 0 else k
  }

  /** `select_master_document` over ranked documents: a singleton's only member, else the head of the stable sort. */
  function Master(ranked: seq<Ranked>): Doc
    requires |ranked| >= 1
  {
    if |ranked| == 1 then ranked[0].doc else SortDesc(ranked)[0].doc
  }

  /** The head of the stable descending sort is the first element with the largest key. */
  lemma {:induction false} SortDescHead(s: seq<Ranked>)
    requires |s| > 0
    ensures SortDesc(s)[0] == s[FirstBest(s)]
  {
    if |s| > 1 {
      SortDescHead(s[1..]);
    }
  }

  /** The master is the first document whose (score, length) is largest. */
  lemma MasterSpec(ranked: seq<Ranked>)
    requires |ranked| >= 1
    ensures Master(ranked) == ranked[FirstBest(ranked)].doc
  {
    if |ranked| > 1 {
      SortDescHead(ranked);
    }
  }

  // ---------------------------------------------------------------- theme and weight tables

  /** The theme names of a table, in table order. */
  function ThemeNames(themes: seq<(string, seq<string>)>): (r: seq<string>)
    ensures |r| == |themes| && forall i :: 0 <= i < |r| ==> r[i] == themes[i].0
  {
    seq(|themes|, i requires 0 <= i < |themes| => themes[i].0)
  }

  /** The sum of the weights of the keywords occurring in `name`. */
  function NameWeight(name: string, weights: seq<(string, nat)>): nat
  {
    if |weights| == 0 then 0
    else
      var n := |weights| - 1;
      NameWeight(name, weights[..n]) + (if Contains(name, weights[n].0) then weights[n].1 else 0)
  }

  function TotalWeight(weights: seq<(string, nat)>): nat
  {
    if |weights| == 0 then 0 else TotalWeight(weights[..|weights| - 1]) + weights[|weights| - 1].1
  }

  /** Every keyword in the name adds its full weight, and the name weight never exceeds the sum of all weights. */
  lemma {:induction false} NameWeightBounds(name: string, weights: seq<(string, nat)>, k: nat)
    requires k < |weights| && Contains(name, weights[k].0)
    ensures weights[k].1 <= NameWeight(name, weights) <= TotalWeight(weights)
  {
    var n := |weights| - 1;
    if k < n {
      NameWeightBounds(name, weights[..n], k);
    } else {
      NameWeightAtMost(name, weights[..n]);
    }
  }

  lemma {:induction false} NameWeightAtMost(name: string, weights: seq<(string, nat)>)
    ensures NameWeight(name, weights) <= TotalWeight(weights)
  {
    if |weights| > 0 {
      NameWeightAtMost(name, weights[..|weights| - 1]);
    }
  }

  /** A name holding none of the keywords weighs nothing. */
  lemma {:induction false} NameWeightNone(name: string, weights: seq<(string, nat)>)
    requires forall k :: 0 <= k < |weights| ==> !Contains(name, weights[k].0)
    ensures NameWeight(name, weights) == 0
  {
    if |weights| > 0 {
      NameWeightNone(name, weights[..|weights| - 1]);
    }
  }

  // ---------------------------------------------------------------- merged output

  /** Characters `\w` matches here: ASCII letters, digits and '_', and CJK unified ideographs. */
  predicate IsWordChar(c: char)
  {
    ('a' <= c <= 'z') || ('A' <= c <= 'Z') || IsDigit(c) || c == '_' || ('\U{4E00}' <= c <= '\U{9FFF}')
  }

  /** `re.sub(r'[^\w\-_]', '_', theme)`. */
  function SafeTheme(theme: string): (r: string)
    ensures |r| == |theme|
    ensures forall i :: 0 <= i < |r| ==> r[i] == (if IsWordChar(theme[i]) || theme[i] == '-' then theme[i] else '_')
  {
    seq(|theme|, i requires 0 <= i < |theme| => if IsWordChar(theme[i]) || theme[i] == '-' then theme[i] else '_')
  }

  /** The merged file's name. */
  function MergedName(theme: string): string
  {
    SafeTheme(theme) + MergedSuffix
  }

  /** A merged file's suffix is ".md", one the scanners accept. */
  lemma MergedNameSuffix(theme: string)
    ensures Suffix(MergedName(theme)) == ".md"
    ensures SupportedSuffix(".md")
  {
    var m := MergedName(theme);
    var n := |m|;
    assert m[n - |MergedSuffix|..] == MergedSuffix;
    assert m[n - 1] == 'd' && m[n - 2] == 'm' && m[n - 3] == '.';
    var p := m[..n - 2];
    assert p[|p| - 1] == '.';
    assert LastDot(p) == n - 3;
    assert m[..n - 1][..n - 2] == p;
    assert LastDot(m[..n - 1]) == n - 3;
    assert LastDot(m) == n - 3;
    assert m[n - 3..] == ".md";
    assert Lower(".md") == ".md";
  }

  /** The "N. " counter `enumerate(..., 1)` prints. */
  function Ordinal(i: nat): string { NatToString(i + 1) + ". " }

  /** The numbered list of source paths. */
  function Manifest(docs: seq<Doc>, from: nat): string
    decreases |docs|
  {
    if |docs| == 0 then "" else Ordinal(from) + "`" + RelPath(docs[0]) + "`\n" + Manifest(docs[1..], from + 1)
  }

  /** `[doc for doc in docs if doc != master_doc]`. */
  function Others(docs: seq<Doc>, master: Doc): (r: seq<Doc>)
    ensures forall d :: d in r <==> d in docs && d != master
  {
    if |docs| == 0 then []
    else (if docs[0] != master then [docs[0]] else []) + Others(docs[1..], master)
  }

  /** The relative paths a merge deletes: every member except the merged file itself and those whose removal fails. */
  function Deleted(merged: string, docs: seq<Doc>, undeletable: set<string>): set<string>
  {
    set d | d in docs && RelPath(d) != merged && RelPath(d) !in undeletable :: RelPath(d)
  }

  lemma DeletedStep(merged: string, docs: seq<Doc>, d: Doc, undeletable: set<string>)
    ensures Deleted(merged, docs + [d], undeletable) ==
      Deleted(merged, docs, undeletable)
      + (if RelPath(d) != merged && RelPath(d) !in undeletable then {RelPath(d)} else {})
  {
    var l, r := Deleted(merged, docs + [d], undeletable), Deleted(merged, docs, undeletable);
    forall p | p in l ensures p in r || p == RelPath(d) {
      var e :| e in docs + [d] && RelPath(e) != merged && RelPath(e) !in undeletable && RelPath(e) == p;
      if e != d { assert e in docs; }
    }
  }

  /** The docs directory as a map from relative path to file text. */
  class DocsFolder {
    var files: map<string, string>
    const root: string

    constructor (root: string, files: map<string, string>)
      ensures this.root == root && this.files == files
    {
      this.root := root;
      this.files := files;
    }

    /** Unlinks every member other than the merged file itself, skipping the ones whose removal fails. */
    method RemoveMembers(merged: string, docs: seq<Doc>, undeletable: set<string>)
      modifies this
      ensures files == old(files) - Deleted(merged, docs, undeletable)
    {
      var i := 0;
      while i < |docs|
        invariant 0 <= i <= |docs|
        invariant files == old(files) - Deleted(merged, docs[..i], undeletable)
      {
        DeletedStep(merged, docs[..i], docs[i], undeletable);
        TakeNext(docs, i);
        if RelPath(docs[i]) != merged && RelPath(docs[i]) !in undeletable {
          files := files - {RelPath(docs[i])};
        }
        i := i + 1;
      }
      TakeAll(docs);
    }
  }
}
