# family_finance core, modelled in Dafny

This project models the decision-making core of a family-finance mini-program and of its
documentation tooling. It proves properties of that model. Every source file named below
becomes one Dafny module; `base.dfy` holds the shared pieces (Option/Result wrappers, string
helpers, JavaScript truthiness, list filters and a stable sort) and `calendar.dfy` holds the
calendar arithmetic of JavaScript's `new Date(y, m, d)`.

- **Documentation merge scripts** (`doc_common`, `doc_merge_by_theme`, `doc_merge_enhanced`).
  - Which files a scan admits.
  - The keyword classifiers that send each document to its best theme or to "未分类".
  - The importance score and the choice of the master document by a stable sort.
  - Title and content cleanup, and the key-section line filter with its code-fence state.
  - The text of a merged file, and the write-then-delete order of a merge.
  - The folder is an in-memory map from path to text.
- **Account ledgers.**
  - `transaction_sync`: create, delete and update handlers that change an accounts array in place, a validator that recomputes balances, and its fixer.
  - `account_sync`: the balance service with its balance log and stored accounts.
  - `data_consistency`: the consistency checker with balance and asset-total repair.
- **Lookups and lists.**
  - `id_resolver`: the id/name resolution chain.
  - `account_provider`: account normalisation, de-duplication and ordering.
  - `event_bus`: the event bus with `on`, `off`, `emit` and `once`.
  - `privacy`: the money-visibility flag with its subscribers, plus the per-page overrides.
- **Dates and cycles.**
  - `date_range`: month, year and custom ranges.
  - `cycle_calculator`: the accounting cycle, its display and the repair of its stored setting.
  - `custom_cycle`: the custom-cycle settings page with its validation and preview.
- **Other services.**
  - `conflict`: the three-way field merge, the 32-bit checksum, user priorities and strategy dispatch.
  - `export`: the export query, CSV text, file size and capped history.
  - `storage`: the expiring key-value store.
  - `theme`: the theme and font-size service.
  - `formatter`: duration, number and money formatting and parsing.
  - `transaction_list`: the transaction list's filter pipeline, account multi-select and month arrows.

Modelling conventions:
- Money is an integer number of cents, so a tolerance of 0.01 becomes equality.
- A JavaScript value that may be absent is an `Option`.
- Storage, clocks and `new Date(...)` parsing are parameters or class fields.
- Code that updates objects in place is a class whose methods are proved against specification functions.
- Code that only computes is functions and lemmas.

## Model

| member | source | states |
|---|---|---|
| DocCommon.Prefix | scripts/merge_docs_enhanced.py:128 | `s[:n]` is the first min(n, length) characters of `s` |
| DocCommon.StemSuffix | scripts/merge_docs_enhanced.py:90 | a file name is its stem followed by its suffix; the suffix is empty or a dot followed by a dot-free rest |
| DocCommon.Hits | scripts/merge_docs_enhanced.py:116-129 | the number of keywords occurring in a text is at most the number of keywords, and zero exactly when none occurs |
| DocCommon.LowerAll | scripts/merge_docs_enhanced.py:116-129 | the keywords lower-cased one by one, as a case-insensitive match needs (corrected classifier) |
| DocCommon.ArgMax | scripts/merge_docs_enhanced.py:136 | `max(..., key=score)` returns the first position holding the largest score |
| DocCommon.BestThemeSpec | scripts/merge_docs_enhanced.py:131-150 | a document goes to "未分类" exactly when every theme scores zero; otherwise to a theme with a positive, maximal score |
| DocCommon.GroupByMembership | scripts/merge_docs_enhanced.py:101-152 | every document is in the group of its own label, and no group is empty |
| DocCommon.GroupByStep | scripts/merge_docs_enhanced.py:134-140 | classifying one more document appends it to its label's group and leaves the other groups unchanged |
| DocCommon.CollectSpec | scripts/merge_docs_enhanced.py:103-152 | the walk sends each themed document to its theme's list and every other document to the unclassified list |
| DocCommon.GroupsAssembled | scripts/merge_docs_enhanced.py:147-152 | the returned dictionary adds "未分类" only when some document is unclassified, and equals the grouping by label |
| DocCommon.SortDesc | scripts/merge_docs_enhanced.py:218 | the descending sort by (score, length) is a permutation of its input |
| DocCommon.SortDescSorted | scripts/merge_docs_enhanced.py:218 | the sort orders by (score, length) from largest to smallest and keeps every element |
| DocCommon.FirstBest | scripts/merge_docs_enhanced.py:218-220 | the first position whose (score, length) is at least every other and strictly above every earlier one |
| DocCommon.SortDescHead | scripts/merge_docs_enhanced.py:218-220 | the stable reverse sort puts the first element with the largest key at the head |
| DocCommon.MasterSpec | scripts/merge_docs_enhanced.py:206-223 | the master is the first document whose (score, length) is largest |
| DocCommon.NameWeightBounds | scripts/merge_docs_enhanced.py:175-177 | every weight keyword in the name adds its full weight, and the total never exceeds the sum of all weights |
| DocCommon.NameWeightAtMost | scripts/merge_docs_enhanced.py:175-177 | the name weight never exceeds the sum of all weights |
| DocCommon.NameWeightNone | scripts/merge_docs_enhanced.py:175-177 | a name holding no weight keyword weighs nothing |
| DocCommon.SafeTheme | scripts/merge_docs_enhanced.py:367 | `re.sub(r'[^\w\-_]', '_', theme)` keeps the length and replaces exactly the characters outside `\w`, `-` and `_` |
| DocCommon.MergedNameSuffix | scripts/merge_docs_enhanced.py:367-368 | the merged file name ends in ".md", a suffix the scanner accepts |
| DocCommon.Others | scripts/merge_docs_enhanced.py:254 | the non-master documents are exactly the documents other than the master |
| DocCommon.DeletedStep | scripts/merge_docs_enhanced.py:378-386 | one more member adds its path to the deleted set unless it is the merged file or its removal fails |
| DocCommon.DocsFolder.RemoveMembers | scripts/merge_docs_enhanced.py:378-386 | the folder loses exactly the members that are not the merged file and whose removal succeeds |
| DocMergeEnhanced.ScanDocumentsSpec | scripts/merge_docs_enhanced.py:81-99 | the scan reports exactly the files of the walk under no pruned directory, with a supported suffix and not named `*_合并文档.md` |
| DocMergeEnhanced.MergedNeverRescanned | scripts/merge_docs_enhanced.py:94-96 | a merged file is never reported by a later scan, whatever its theme |
| DocMergeEnhanced.HitsUpperOnly | scripts/merge_docs_enhanced.py:116-129 | keywords starting with an upper-case ASCII letter never occur in a lower-cased text |
| DocMergeEnhanced.UpperKeywordsNeverScoreAsWritten | scripts/merge_docs_enhanced.py:116-129 | as written, the keywords "UI", "API" and "UI界面" score nothing for any document |
| DocMergeEnhanced.UiDocumentMissesUiTheme | scripts/merge_docs_enhanced.py:36 | as written, a document named `UI.md` scores 0 for the "UI界面" theme |
| DocMergeEnhanced.UiDocumentMatchesUiTheme | scripts/merge_docs_enhanced.py:36 | with the keywords lower-cased too, the same document scores for the "UI界面" theme |
| DocMergeEnhanced.ScoresAgreeOnLowerKeywords | scripts/merge_docs_enhanced.py:116-129 | for keywords without upper-case letters the script's score and the case-insensitive score agree |
| DocMergeEnhanced.ThemeScoreZeroIff | scripts/merge_docs_enhanced.py:113-132 | as the script computes it, a theme scores zero exactly when none of its keywords, compared as written, occurs in the lower-cased name, path or first 2000 characters |
| DocMergeEnhanced.FirstKeywordInNameScores | scripts/merge_docs_enhanced.py:117-119 | a lower-cased name starting with a theme's first keyword, as written, gives that theme a positive script score |
| DocMergeEnhanced.FirstKeywordInNameScoresFixed | scripts/merge_docs_enhanced.py:117-119 | with the keywords lower-cased (the intended matching), a name starting with the lower-cased first keyword gives the theme a positive score |
| DocMergeEnhanced.CountHits | scripts/merge_docs_enhanced.py:117-129 | each keyword loop counts the keywords, compared as written, that occur in its lower-cased text |
| DocMergeEnhanced.ScoreTheme | scripts/merge_docs_enhanced.py:113-129 | one theme's script score is 3 per keyword in the name, 2 per keyword in the path and 1 per keyword in the content prefix, keywords compared as written against lower-cased texts |
| DocMergeEnhanced.ScoreThemes | scripts/merge_docs_enhanced.py:112-132 | the loop over the theme table yields each theme's script score in table order |
| DocMergeEnhanced.UnclassifiedNotATheme | scripts/merge_docs_enhanced.py:26-39 | no theme of the built-in table is called "未分类" |
| DocMergeEnhanced.LabelSpec | scripts/merge_docs_enhanced.py:131-150 | a document goes to "未分类" exactly when its script scores are zero everywhere, otherwise to the first theme with the top script score |
| DocMergeEnhanced.ClassifyDocument | scripts/merge_docs_enhanced.py:104-150 | the group chosen for one document is its label under the script's scores |
| DocMergeEnhanced.CollectByTheme | scripts/merge_docs_enhanced.py:104-150 | the loop over the documents builds the themed lists and the unclassified list of the labelling |
| DocMergeEnhanced.ClassifyByTheme | scripts/merge_docs_enhanced.py:101-152 | `classify_by_theme` returns the documents grouped by their script label, each group in input order |
| DocMergeEnhanced.LabelFixedSpec | scripts/merge_docs_enhanced.py:113-150 | the intended label: "未分类" exactly when no keyword matches case-insensitively, otherwise the first theme with the top case-insensitive score |
| DocMergeEnhanced.LowerThemesLabels | scripts/merge_docs_enhanced.py:116-129 | the script's classifier run over the table with lower-cased keywords gives exactly the intended labels |
| DocMergeEnhanced.ClassifyByThemeFixed | scripts/merge_docs_enhanced.py:101-152 | the intended classification groups every document under its case-insensitive label, in input order |
| DocMergeEnhanced.ImportanceAboveNameWeight | scripts/merge_docs_enhanced.py:169-204 | size, structure and location add between 0 and 17 points to the name weight, so importance is never negative |
| DocMergeEnhanced.MergedNameOutranks | scripts/merge_docs_enhanced.py:42-44 | a merged document outranks, up to 2 points, any document without a weight keyword |
| DocMergeEnhanced.CalculateImportance | scripts/merge_docs_enhanced.py:169-204 | the importance accumulated by the loops is the weight of the name keywords plus the size tier, the structure bonuses and the location bonus |
| DocMergeEnhanced.SelectMasterSpec | scripts/merge_docs_enhanced.py:206-223 | the master is a member whose (score, length) is largest, and the first such one |
| DocMergeEnhanced.RankDocuments | scripts/merge_docs_enhanced.py:211-215 | the scoring loop pairs each document with its importance and content length, in order |
| DocMergeEnhanced.SelectMasterDocument | scripts/merge_docs_enhanced.py:206-223 | a singleton's only member, else the head of the stable descending sort |
| DocMergeEnhanced.RemoveAllShortens | scripts/merge_docs_enhanced.py:282 | `replace(p, "")` shortens a string exactly when `p` occurs in it, and otherwise leaves it unchanged |
| DocMergeEnhanced.CleanTitleSpec | scripts/merge_docs_enhanced.py:279-283 | a stem without any marker is its own title; a stem holding "_合并文档" gets shorter |
| DocMergeEnhanced.KeptLines | scripts/merge_docs_enhanced.py:290-299 | the kept lines are exactly the lines without provenance markers |
| DocMergeEnhanced.CleanContent | scripts/merge_docs_enhanced.py:285-301 | the filtering loop joins the kept lines with newlines |
| DocMergeEnhanced.CleanContentLines | scripts/merge_docs_enhanced.py:285-301 | after cleanup no line carries provenance, and the remaining lines are the kept ones in order |
| DocMergeEnhanced.CleanContentIdempotent | scripts/merge_docs_enhanced.py:285-301 | cleaning twice is cleaning once |
| DocMergeEnhanced.KindOfSpec | scripts/merge_docs_enhanced.py:310-338 | a line is treated as a fence exactly when its stripped form starts with three backquotes, and a blank line is blank |
| DocMergeEnhanced.DropTrailingBlanksSpec | scripts/merge_docs_enhanced.py:346-347 | the trim keeps a prefix that does not end in a blank line |
| DocMergeEnhanced.ScanInvariant | scripts/merge_docs_enhanced.py:309-338 | the code-block flag is the parity of fences seen, and no blank line outside a block opens the output or follows a blank line |
| DocMergeEnhanced.FencedLinesKeptVerbatim | scripts/merge_docs_enhanced.py:313-320 | every fence line and every line inside a code block is kept verbatim |
| DocMergeEnhanced.CapTrimSpec | scripts/merge_docs_enhanced.py:341-347 | capping and trimming keep at most 51 lines, end in "..." after a cap and keep the blank-line property |
| DocMergeEnhanced.KeyLinesSpec | scripts/merge_docs_enhanced.py:303-349 | the key lines number at most 51, end in "..." when more than 50 were kept, end in a non-blank line and have no doubled blank line outside a block |
| DocMergeEnhanced.ScanKeyLines | scripts/merge_docs_enhanced.py:309-338 | the line loop ends with the kept lines of the scan and the block flag equal to the fence parity |
| DocMergeEnhanced.ExtractKeySections | scripts/merge_docs_enhanced.py:303-349 | the loop, the cap at 50 lines and the trailing-blank trim give the key sections |
| DocMergeEnhanced.EnhancedDocumentMerger.MergeThemeDocuments | scripts/merge_docs_enhanced.py:351-393 | one document or none is skipped with success; a failed write fails and changes nothing; otherwise the merged file is written and the other members removed |
| DocMergeByTheme.ScanDocumentsSpec | scripts/merge_docs_by_theme.py:80-95 | the scan reports exactly the walked files under no pruned directory whose lower-cased suffix is .md, .txt, .docx or .doc |
| DocMergeByTheme.MergedFileRescanned | scripts/merge_docs_by_theme.py:87-92 | unlike the enhanced script, a `*_合并文档.md` file outside pruned directories is scanned again |
| DocMergeByTheme.ThemeScoreBounds | scripts/merge_docs_by_theme.py:108-112 | a theme's score lies between the keyword hits of the name (or of the content prefix) and their sum: each keyword counts at most once |
| DocMergeByTheme.ThemeScoreZeroIff | scripts/merge_docs_by_theme.py:108-115 | a theme scores zero exactly when none of its keywords occurs, case-sensitively, in the name or in the first 1000 characters |
| DocMergeByTheme.MatchCount | scripts/merge_docs_by_theme.py:109-112 | the keyword loop adds one per keyword found in the name or the content prefix |
| DocMergeByTheme.UnclassifiedNotATheme | scripts/merge_docs_by_theme.py:26-39 | no theme of the built-in table is called "未分类" |
| DocMergeByTheme.LabelSpec | scripts/merge_docs_by_theme.py:114-122 | a document goes to "未分类" exactly when every theme scores zero, otherwise to the first theme with the top positive score |
| DocMergeByTheme.ScoreThemes | scripts/merge_docs_by_theme.py:108-115 | the loop over the theme table yields each theme's score in table order |
| DocMergeByTheme.ClassifyDocument | scripts/merge_docs_by_theme.py:102-122 | the group chosen for one document is its label |
| DocMergeByTheme.CollectByTheme | scripts/merge_docs_by_theme.py:102-122 | the loop over the documents builds the themed lists and the unclassified list of the labelling |
| DocMergeByTheme.ClassifyByTheme | scripts/merge_docs_by_theme.py:97-132 | `classify_by_theme` returns the documents grouped by label, "未分类" only when non-empty |
| DocMergeByTheme.SubheadingHasHeading | scripts/merge_docs_by_theme.py:172-175 | content with "## " also contains "# ", so a second-level heading always earns both bonuses (3 points) |
| DocMergeByTheme.ImportanceBounds | scripts/merge_docs_by_theme.py:152-179 | a matched weight keyword adds its whole weight, and importance never exceeds the sum of all weights plus 9 |
| DocMergeByTheme.CalculateImportance | scripts/merge_docs_by_theme.py:152-179 | the score accumulated by the method is the name weight plus the size tier (5/3/1) plus the structure bonuses (2/1/1) |
| DocMergeByTheme.SelectMasterSpec | scripts/merge_docs_by_theme.py:181-198 | the master is a member whose (score, length) is largest, and the first such one |
| DocMergeByTheme.RankDocuments | scripts/merge_docs_by_theme.py:186-190 | the scoring loop pairs each document with its importance and content length, in order |
| DocMergeByTheme.SelectMasterDocument | scripts/merge_docs_by_theme.py:181-198 | a singleton's only member, else the head of the stable descending sort |
| DocMergeByTheme.KeyLineOrigin | scripts/merge_docs_by_theme.py:253-266 | every key line is a stripped, non-blank input line that is a heading, a signal-word line or a fence |
| DocMergeByTheme.KeyLineKept | scripts/merge_docs_by_theme.py:253-266 | every input line that is a heading, a signal-word line or a fence is kept, stripped |
| DocMergeByTheme.KeyLinesNoNewline | scripts/merge_docs_by_theme.py:250-254 | lines split at newlines stay free of newlines after filtering |
| DocMergeByTheme.KeySectionsSpec | scripts/merge_docs_by_theme.py:248-273 | at most 21 lines are kept, and the result is the kept lines joined by newlines with one trailing newline |
| DocMergeByTheme.FilterKeyLines | scripts/merge_docs_by_theme.py:253-266 | the line loop builds exactly the key lines |
| DocMergeByTheme.ExtractKeySections | scripts/merge_docs_by_theme.py:248-273 | the loop, the cap at 20 lines plus "..." and the join give the key sections |
| DocMergeByTheme.MergeEffectSpec | scripts/merge_docs_by_theme.py:275-311 | after a merge of two or more documents the merged file holds the merged text and every member other than it is gone unless its removal failed |
| DocMergeByTheme.RunResultsSpec | scripts/merge_docs_by_theme.py:369-375 | the run records one result per group: True for a group of one, otherwise whether its merge succeeded |
| DocMergeByTheme.RunStep | scripts/merge_docs_by_theme.py:370-375 | each group is merged in turn on the folder the previous groups left |
| DocMergeByTheme.RunSingletonsUntouched | scripts/merge_docs_by_theme.py:371-375 | when every group has at most one document, the run writes and deletes nothing |
| DocMergeByTheme.DocumentMerger.MergeThemeDocuments | scripts/merge_docs_by_theme.py:275-315 | the result is success unless the write fails for a group of two or more, and the folder changes as the merge effect says |
| DocMergeByTheme.DocumentMerger.Run | scripts/merge_docs_by_theme.py:351-375 | the loop over the groups records each result and leaves the folder as the run effect says |
| DocMergeByTheme.KeyLinesStep | scripts/merge_docs_by_theme.py:253-266 | one more line keeps every earlier key line and adds itself, stripped, when it is kept |
| DocMergeByTheme.DocumentMerger.constructor | scripts/merge_docs_by_theme.py:19-52 | the merger works on the given docs folder with the built-in name-keyword weights |
| DocMergeEnhanced.StepKeepsInvariant | scripts/merge_docs_enhanced.py:309-338 | one line of the scan keeps the block flag equal to the fence parity and adds no blank line after a blank line outside a block |
| DocMergeEnhanced.EnhancedDocumentMerger.constructor | scripts/merge_docs_enhanced.py:19-53 | the merger works on the given docs folder with the built-in name-keyword weights |
| IdResolver.Squeeze | utils/idResolver.js:73 | `replace(/[\s_\-]+/g, '')` leaves no separator and only characters of its input, and is never longer |
| IdResolver.SqueezeClean | utils/idResolver.js:73 | a string without separators is left as it is |
| IdResolver.NormalizeChars | utils/idResolver.js:69-74 | a normalised string holds no whitespace, `_`, `-` or upper-case letter |
| IdResolver.NormalizeIdempotent | utils/idResolver.js:69-74 | normalising twice gives what normalising once gives |
| IdResolver.LooseEqualSymmetric | utils/idResolver.js:77-82 | loose equality is symmetric and false whenever either side normalises to "" |
| IdResolver.LooseEqualReflexive | utils/idResolver.js:77-82 | two values with the same non-empty normal form are loosely equal |
| IdResolver.SeparatedAliasKeysUnused | utils/idResolver.js:37-106 | alias keys such as `bank_cmb` can never be hit, because the key looked up is normalised and holds no `_` or `-` |
| IdResolver.AliasTarget | utils/idResolver.js:105-107 | an alias target is the non-empty value the kind's alias table gives for the normalised input |
| IdResolver.Rules | utils/idResolver.js:90-119 | the chain has exactly five rules: id/_id, code/slug, exact name, alias, loose match |
| IdResolver.Rank | utils/idResolver.js:90-119 | an item's rank is the first rule it satisfies: it fails every earlier rule |
| IdResolver.FirstByRulesSpec | utils/idResolver.js:90-121 | the item found has the lowest rank in the list and is the first of that rank; nothing is found exactly when no item satisfies any rule |
| IdResolver.Lookup | utils/idResolver.js:90-121 | any position found lies inside the list |
| IdResolver.ByIdOrName | utils/idResolver.js:84-122 | no result for a missing list or a falsy input; any result is a member of the list |
| IdResolver.ExactIdWins | utils/idResolver.js:90-92 | an item whose id is the input string guarantees a hit, and the hit matches by id |
| IdResolver.CollectTagsSpec | utils/idResolver.js:132-143 | every resolved tag comes from the tag list and no two share a key `_id \|\| id` |
| IdResolver.CollectTagsComplete | utils/idResolver.js:136-141 | every query that resolves leaves a tag with the same key in the result |
| IdResolver.IsKeyTaken | utils/idResolver.js:138 | the search reports whether some collected tag has the same key |
| IdResolver.ResolveTags | utils/idResolver.js:132-143 | [] for a non-array tag list or a falsy argument; otherwise the tags collected query by query |
| AccountProvider.OrElse | services/accountProvider.js:14-19 | `x \|\| fallback` gives the property when it is truthy and the fallback otherwise |
| AccountProvider.ToBalance | services/accountProvider.js:18 | a numeric balance is kept and a falsy one becomes 0 |
| AccountProvider.NormalizeAccountSpec | services/accountProvider.js:12-21 | null for a falsy account; `id` and `_id` are each filled from whichever exists; type defaults to 'cash', icon to '💰', a numeric balance is kept |
| AccountProvider.DedupeKeys | services/accountProvider.js:23-31 | de-duplication keeps every key of its input |
| AccountProvider.DedupeDistinct | services/accountProvider.js:23-31 | no two kept accounts share a key `_id \|\| id \|\| name` |
| AccountProvider.DedupeFirst | services/accountProvider.js:28 | every kept account is the first of its key in the input |
| AccountProvider.DedupeById | services/accountProvider.js:23-31 | the loop over the list keeps the first account of each key, in first-seen order |
| AccountProvider.Weight | services/accountProvider.js:35 | type weights are 0 for cash, 1 for wallet, 2 for the rest |
| AccountProvider.BeforeTotal | services/accountProvider.js:36-40 | the comparator orders any two accounts one way or the other |
| AccountProvider.InsertPosition | services/accountProvider.js:36-40 | the stable sort places an account after the leading ones it may not precede and before the next |
| AccountProvider.InsertSorted | services/accountProvider.js:36-40 | inserting into a sorted list keeps it sorted |
| AccountProvider.BeforeTransitive | services/accountProvider.js:36-40 | the comparator is transitive |
| AccountProvider.SortAccountsSpec | services/accountProvider.js:33-41 | `sortAccounts` returns a permutation of its input ordered cash, wallet, others, then by name |
| AccountProvider.InsertTies | services/accountProvider.js:33-41 | one insertion step puts the account in front of the accounts it ties with and moves no other account of any key |
| AccountProvider.SortAccountsStable | services/accountProvider.js:33-41 | the sort is stable: accounts of the same type weight and name keep their stored order |
| AccountProvider.BalanceDisplayDecimals | services/accountProvider.js:46 | `(balance / 100).toFixed(2)` always ends in a point and two digits |
| AccountProvider.WithDisplay | services/accountProvider.js:43-48 | every account is kept in place, with its display balance added |
| AccountProvider.GetAvailableAccounts | services/accountProvider.js:50-57 | the stored list when it is a non-empty array, else the defaults, normalised, de-duplicated, sorted and rendered |
| AccountProvider.InsertDistinct | services/accountProvider.js:36-40 | inserting an account of a new key keeps the keys distinct and adds that key |
| AccountProvider.SortDistinct | services/accountProvider.js:33-41 | sorting keeps the keys distinct and the same |
| AccountProvider.AvailableAccountsSpec | services/accountProvider.js:53-56 | the available accounts are sorted, have distinct keys and cover every key of the normalised input |
| AccountProvider.DefaultsNormalized | services/accountProvider.js:4-10 | the three default accounts are already normal |
| AccountProvider.DefaultsSorted | services/accountProvider.js:33-41 | sorted, the defaults come as cash, Alipay (wallet), bank |
| AccountProvider.NothingStoredGivesDefaults | services/accountProvider.js:52-56 | with nothing stored the result is the three defaults in the order cash, wallet, bank |
| AccountProvider.DefaultsDeduped | services/accountProvider.js:23-31 | the defaults have distinct keys, so de-duplication keeps all three |
| TransactionSync.IndexOf | services/transaction-sync.js:50 | `findIndex` gives the first position holding the id, or none when no account has it |
| TransactionSync.SumAdjust | services/transaction-sync.js:63-88 | changing one balance by `delta` changes the total of all balances by `delta` |
| TransactionSync.CreateExpenseIncomeSpec | services/transaction-sync.js:46-69 | a missing source fails; an expense above the balance fails unchanged; otherwise only the source changes, by minus (expense) or plus (income) the amount |
| TransactionSync.TransferErrors | services/transaction-sync.js:71-89 | a transfer fails without a target id, with an unknown target or with too small a source balance, and succeeds otherwise |
| TransactionSync.TransferKeepsTotal | services/transaction-sync.js:87-88 | a successful transfer leaves the total of all balances unchanged |
| TransactionSync.CreateRejects | services/transaction-sync.js:52-157 | a missing source account or an unknown type fails on create and delete without touching any balance |
| TransactionSync.CreateThenDeleteRestores | services/transaction-sync.js:46-159 | deleting an expense or income right after creating it restores every balance (for income, given a non-negative start, since delete checks the balance) |
| TransactionSync.FindIndex | services/transaction-sync.js:50 | the search loop returns the first position of the id, or -1 |
| TransactionSync.AdjustAt | services/transaction-sync.js:63 | one array element's balance changes by `delta`, nothing else |
| TransactionSync.HandleCreate | services/transaction-sync.js:46-94 | the array after `handleCreateTransaction` and the error it throws are those of the create rule |
| TransactionSync.HandleDelete | services/transaction-sync.js:110-159 | the array after `handleDeleteTransaction` and the error are those of the delete rule, including the source credited before a failing target check |
| TransactionSync.HandleUpdate | services/transaction-sync.js:99-105 | update is delete of the old transaction followed by create of the new one, stopping at the first error |
| TransactionSync.MismatchesEmptyIff | services/transaction-sync.js:202-221 | no mismatch is reported exactly when every account is within one cent of its theoretical balance |
| TransactionSync.MismatchesSound | services/transaction-sync.js:204-216 | every reported mismatch is an inconsistent account with its theoretical balance and difference |
| TransactionSync.MismatchesComplete | services/transaction-sync.js:204-216 | every inconsistent account is reported |
| TransactionSync.InitBalances | services/transaction-sync.js:174-179 | the theoretical table starts with exactly the account ids, each at 0 |
| TransactionSync.ApplyTransactions | services/transaction-sync.js:182-199 | after the transaction loop each account's entry is its theoretical balance: incomes and transfers in minus expenses and transfers out |
| TransactionSync.CollectMismatches | services/transaction-sync.js:202-217 | the account loop collects exactly the mismatches, in order |
| TransactionSync.ValidateAccountBalance | services/transaction-sync.js:165-227 | the result lists the inconsistent accounts, and `isConsistent` holds exactly when every account is within one cent |
| TransactionSync.ApplyFixesKeepsIds | services/transaction-sync.js:244-250 | repair changes balances only, never ids or names |
| TransactionSync.ApplyFixesAt | services/transaction-sync.js:244-250 | after repair an account holds its theoretical balance when a mismatch names it and it is the first of its id, and its old balance otherwise |
| TransactionSync.FixRestoresConsistency | services/transaction-sync.js:232-262 | with distinct ids, repairing every reported mismatch leaves no mismatch |
| TransactionSync.FixBalances | services/transaction-sync.js:241-250 | the repair loop sets each reported account to its theoretical balance and reports the mismatches |
| TransactionSync.AccountStorage.constructor | services/transaction-sync.js:13 | the store starts with the given accounts |
| TransactionSync.AccountStorage.SyncTransactionWithAccount | services/transaction-sync.js:10-41 | a handler error leaves storage unchanged and is returned; otherwise the new balances are saved and stamped with the current time |
| TransactionSync.AccountStorage.FixAccountBalance | services/transaction-sync.js:232-262 | a consistent store is left as it is; otherwise the mismatches are repaired, saved and stamped, after which (ids distinct) nothing is inconsistent |
| AccountSync.IndexOf | services/account-sync.js:21 | the first account whose `id` or `_id` equals the given id, or none |
| AccountSync.UpdateBalanceSpec | services/account-sync.js:15-66 | no match fails; a decrease beyond the balance fails; both leave the store unchanged; otherwise only the matching account becomes old + amount, one log entry with that `balanceAfter` is appended and the stamp is set |
| AccountSync.UpdateSameEffectIsNoop | services/account-sync.js:132-141 | an update that keeps type, amount, account and (for transfers) target changes nothing, not even the log |
| AccountSync.TransferNeedsTarget | services/account-sync.js:114-171 | a transfer without a target is refused by create and delete before anything is written |
| AccountSync.CreateThenDeleteRestores | services/account-sync.js:100-180 | deleting an income or expense right after creating it restores every balance (given a non-negative start) and leaves two log entries |
| AccountSync.TransferToMissingTargetDebitsSource | services/account-sync.js:120-121 | as written, a transfer of 30 from an account holding 100 to a missing account fails but leaves the source at 70 with one log entry |
| AccountSync.CreateAtomicSpec | services/account-sync.js:100-127 | the corrected create fails without writing anything, succeeds exactly as the source does, and succeeds whenever the source does |
| AccountSync.TransferGoesThrough | services/account-sync.js:114-122 | with both accounts present and the source covering the amount, a transfer succeeds |
| AccountSync.AccountService.constructor | services/account-sync.js:18-46 | the service starts with the given accounts and no balance log |
| AccountSync.AccountService.UpdateAccountBalance | services/account-sync.js:15-66 | the stored accounts, log and stamp become those of the balance-update rule, and the result is its error or the new balance |
| AccountSync.AccountService.HandleCreateTransaction | services/account-sync.js:100-127 | the store and error after `handleCreateTransaction` are those of the create rule: expense −amount, income +amount, transfer out then in |
| AccountSync.AccountService.HandleDeleteTransaction | services/account-sync.js:153-180 | the store and error after `handleDeleteTransaction` are those of the delete rule: each create step reversed |
| AccountSync.AccountService.HandleUpdateTransaction | services/account-sync.js:132-148 | update is a no-op for an unchanged effect, otherwise delete of the old followed by create of the new |
| AccountSync.AccountService.SyncTransactionWithAccount | services/account-sync.js:74-95 | create, update and delete dispatch to their handlers, an unknown action fails, and the result is true or the error |
| AccountSync.AccountService.FixAccountBalance | services/account-sync.js:274-309 | the mismatches are reported and repaired by `a.id` as written; a consistent store is left as it is and the log is never touched |
| AccountSync.FindAccount | services/account-sync.js:21 | the search loop returns the first account matching by `id` or `_id`, or -1 |
| AccountSync.InitTable | services/account-sync.js:198-201 | every account's key `id \|\| _id` is in the table |
| AccountSync.ApplyTx | services/account-sync.js:204-240 | a transaction never adds keys to the table |
| AccountSync.ApplyAllIsNet | services/account-sync.js:204-240 | each key's entry is its start value plus incomes and transfers in minus expenses and transfers out, counting only transactions that name their accounts |
| AccountSync.InitTableAt | services/account-sync.js:198-201 | with distinct keys, each account's entry starts at its `initialBalance` |
| AccountSync.MismatchesEmptyIff | services/account-sync.js:245-263 | no mismatch is reported exactly when every account is within one cent of its theoretical balance |
| AccountSync.MismatchesSound | services/account-sync.js:245-258 | every reported mismatch is an inconsistent account with its theoretical balance |
| AccountSync.MismatchesComplete | services/account-sync.js:245-258 | every inconsistent account is reported |
| AccountSync.InitBalances | services/account-sync.js:198-201 | the initialisation loop builds the starting table |
| AccountSync.ApplyTransactions | services/account-sync.js:204-240 | the transaction loop applies every transaction to the table |
| AccountSync.CollectMismatches | services/account-sync.js:243-259 | the account loop collects exactly the mismatches, in order |
| AccountSync.ValidateAccountBalance | services/account-sync.js:186-269 | the result lists the inconsistent accounts and `isConsistent` holds exactly when every account is within one cent |
| AccountSync.IndexBy | services/account-sync.js:287 | the first account whose lookup field equals the id, or none |
| AccountSync.ApplyFixesKeeps | services/account-sync.js:286-292 | repair changes balances only |
| AccountSync.InitTableIgnoresBalances | services/account-sync.js:198-201 | the starting table does not depend on the current balances |
| AccountSync.ApplyFixesAt | services/account-sync.js:286-292 | after repair an account holds its theoretical balance when a mismatch names it and it is the first with that field, and its old balance otherwise |
| AccountSync.MismatchesCarryTable | services/account-sync.js:247-255 | every reported mismatch carries its account's table value |
| AccountSync.FixByKeyRestoresConsistency | services/account-sync.js:274-309 | repair by the validator's key `id \|\| _id` (the corrected lookup) leaves no mismatch when keys are distinct |
| AccountSync.FixByIdMissesDbIdOnlyAccount | services/account-sync.js:287 | as written, an account stored with only `_id` is reported but the repair leaves it unchanged |
| AccountSync.FindBy | services/account-sync.js:287 | the search loop returns the first account whose lookup field equals the id, or -1 |
| AccountSync.FixBalances | services/account-sync.js:286-292 | the repair loop applies each reported mismatch by `a.id` |
| DataConsistency.Filter | services/data-consistency.js:20-23 | the account's transactions are those of the list that name it as source, or as target of a transfer |
| DataConsistency.SumStep | services/data-consistency.js:29-47 | the balance loop adds one transaction's contribution at a time |
| DataConsistency.CalculatedIsIntended | services/data-consistency.js:26-47 | without self-transfers the calculated balance is initialBalance + income − expense − transfers out + transfers in |
| DataConsistency.SumIsIntended | services/data-consistency.js:29-47 | without self-transfers the contributions sum to income − expense − transfers out + transfers in |
| DataConsistency.ContributionIsTerm | services/data-consistency.js:30-46 | one transaction's contribution is its income, expense, outgoing and incoming terms |
| DataConsistency.SelfTransferCountedAsOutgoing | services/data-consistency.js:30-46 | as written, a transfer of 30 from an account to itself lowers the calculated balance 100 to 70, flagging a correct account |
| DataConsistency.CalculatedFixedIsIntended | services/data-consistency.js:26-47 | the corrected calculation, netting a self-transfer to zero, is the documented formula for every list of transactions |
| DataConsistency.SumFixedIsIntended | services/data-consistency.js:29-47 | the corrected contributions sum to income − expense − transfers out + transfers in |
| DataConsistency.ResultOf | services/data-consistency.js:50-59 | an account's result is valid exactly when its calculated balance equals its balance |
| DataConsistency.ResultsAt | services/data-consistency.js:18-60 | the k-th result is that of the k-th account |
| DataConsistency.CalculateBalance | services/data-consistency.js:20-47 | the filter and balance loop compute the calculated balance |
| DataConsistency.ValidateAccountBalances | services/data-consistency.js:8-70 | one result per account, in order, and `isAllValid` exactly when every account is valid |
| DataConsistency.AllResultsValid | services/data-consistency.js:63 | `every(r => r.isValid)` |
| DataConsistency.FindResult | services/data-consistency.js:106 | `find` returns a result for that account id, or none when no result has it |
| DataConsistency.RepairAll | services/data-consistency.js:105-113 | every account is repaired by its own found result, in place |
| DataConsistency.FindOwnResult | services/data-consistency.js:106 | with distinct ids each account finds its own result |
| DataConsistency.FindAt | services/data-consistency.js:106 | `find` returns the first result with the id |
| DataConsistency.RepairAllSpec | services/data-consistency.js:105-113 | with distinct ids, invalid accounts take their calculated balance, valid ones are unchanged, and afterwards every account is valid |
| DataConsistency.RepairValidIsIdentity | services/data-consistency.js:82-87 | when every account is valid the repair changes nothing |
| DataConsistency.Ledger.constructor | services/data-consistency.js:11-12 | the store holds the given accounts, transactions and total |
| DataConsistency.Ledger.FixAccountBalances | services/data-consistency.js:76-128 | `needFix` exactly when some account is invalid; balances are rewritten only when a fix is needed and `autoFix` is set |
| DataConsistency.Ledger.ValidateTotalAssets | services/data-consistency.js:133-157 | the calculated total is the sum of balances and the check passes exactly when it equals the stored total |
| DataConsistency.Ledger.FixTotalAssets | services/data-consistency.js:162-189 | `needFix` exactly when the stored total differs from the sum; afterwards the total is the sum and nothing else changes |
| DataConsistency.Ledger.PerformFullConsistencyCheck | services/data-consistency.js:195-258 | `needFix` exactly when an account or the total fails; only with `autoFix` are balances repaired and the total recomputed, after which (ids distinct) every account is valid |
| DataConsistency.RepairLoop | services/data-consistency.js:105-113 | the repair loop produces the repaired accounts and counts at most one fix per account |
| DataConsistency.SumBalances | services/data-consistency.js:139 | the `reduce` computes the sum of all balances |
| EventBus.WithoutMembers | utils/eventBus.js:36 | `filter(cb => cb !== callback)` keeps exactly the other listeners |
| EventBus.PurgedMembers | utils/eventBus.js:45-48 | the listeners left after once-wrappers remove themselves are those not both run and completed |
| EventBus.CallsAt | utils/eventBus.js:22-28 | emit calls every registered callback once, in registration order, whether or not earlier ones throw |
| EventBus.WithoutPurged | utils/eventBus.js:47 | a completed once-wrapper removing itself mid-emit is the same as purging it afterwards |
| EventBus.PurgedSkip | utils/eventBus.js:45-48 | a callback that threw, or a plain listener, removes nothing |
| EventBus.AfterEmitMembers | utils/eventBus.js:20-50 | after an emit exactly the plain listeners and the once-wrappers whose callback threw remain |
| EventBus.OnceFiresAtMostOnce | utils/eventBus.js:44-50 | a once-callback that returns normally is gone after the emit, so it fires at most once |
| EventBus.ThrowingOnceFiresAgain | utils/eventBus.js:45-48 | as written, a once-callback that throws stays registered and is called again by the next emit |
| EventBus.OnceFixedFiresOnce | utils/eventBus.js:44-50 | the corrected once (removal before the call) drops every once-wrapper on its first emit, keeps every plain listener, and removes at least what the code as written removes |
| EventBus.Bus.constructor | utils/eventBus.js:7-9 | a new bus has no listeners |
| EventBus.Bus.Register | utils/eventBus.js:12-17 | a listener is appended to its event's list, which is created when missing |
| EventBus.Bus.On | utils/eventBus.js:12-17 | `on` appends the callback after the earlier ones |
| EventBus.Bus.Off | utils/eventBus.js:33-41 | with a callback only that callback goes; without one the event's list is deleted; an unknown event changes nothing |
| EventBus.Bus.Once | utils/eventBus.js:44-50 | `once` appends a fresh wrapper around the callback |
| EventBus.Bus.Call | utils/eventBus.js:24-48 | calling one listener removes it exactly when it is a once-wrapper whose callback returned |
| EventBus.Bus.Emit | utils/eventBus.js:20-30 | emit calls every listener registered at the start in order, then leaves the list as the once rule says; an unknown event changes nothing |
| Privacy.Notify | services/privacy.js:55-59 | every listener receives the current value once, in subscription order |
| Privacy.RemoveSpec | services/privacy.js:81-83 | unsubscribing removes exactly that callback and changes nothing when it is not subscribed |
| Privacy.MoneyVisibility.constructor | services/privacy.js:7-44 | the state starts from a stored boolean (false otherwise), with no listeners; a missing or older version is set to the current one |
| Privacy.MoneyVisibility.SetMoneyVisible | services/privacy.js:61-66 | the state becomes `!!visible`; an unchanged value writes and notifies nothing; a change persists value and version, then notifies every listener with the new value |
| Privacy.MoneyVisibility.NotifyAll | services/privacy.js:55-59 | the loop delivers the current value to every listener in order |
| Privacy.MoneyVisibility.ToggleMoneyVisible | services/privacy.js:68-70 | the state is negated, persisted and sent to every listener |
| Privacy.MoneyVisibility.Subscribe | services/privacy.js:76-84 | a non-function is ignored; a function is appended and immediately receives the current value; the state is untouched |
| Privacy.MoneyVisibility.Unsubscribe | services/privacy.js:81-83 | the returned unsubscribe removes only its own callback |
| Privacy.KeyForRouteSpec | services/privacyScope.js:5-10 | a bare name `r` maps to the key of '/pages/r/r', the same key as the full route; a missing route is the empty one |
| Privacy.KeyForFullRoute | services/privacyScope.js:5-10 | a route starting with '/' is kept as it is after the prefix |
| Privacy.PageStore.constructor | services/privacyScope.js:15-24 | the page store starts with the given storage entries |
| Privacy.PageStore.SetPageVisible | services/privacyScope.js:29-37 | the route's key is set to `!!visible`, so reading the page value afterwards gives `!!visible` |
| Privacy.PageStore.ClearPageVisible | services/privacyScope.js:42-50 | the route's key is removed, so reading the page value afterwards gives null |
| Privacy.PageStore.GetEffectiveVisible | services/privacyScope.js:55-59 | the page override when one is stored, the global value otherwise |
| Privacy.OtherRoutesUnaffected | services/privacyScope.js:29-37 | setting one route's override leaves every route with another key unchanged |
| DateRange.Pad2Spec | utils/date-range.js:2-4 | `padStart(2, '0')` gives at least two digits that read back as the number, one leading zero below 10 |
| DateRange.FormatDate | utils/date-range.js:8-11 | '' exactly for an invalid date |
| DateRange.FourDigits | utils/date-range.js:10 | a year from 1000 to 9999 prints as four digits |
| DateRange.FormatDateRoundTrip | utils/date-range.js:8-14 | a valid date of a four-digit year formats as YYYY-MM-DD, passes `isValidDateStr`, and its three fields read back as year, month + 1 and day |
| DateRange.DateShape | utils/date-range.js:10-14 | four, two and two digits joined by '-' match `/^\d{4}-\d{2}-\d{2}$/` and split back into the parts |
| DateRange.ToNumberDigits | utils/date-range.js:33-34 | `Number` of a non-empty digit string is its value |
| DateRange.MonthRangeSpec | utils/date-range.js:17-21 | the month range runs from day 1 to the month's last day, after `Date` normalises the month |
| DateRange.YearRangeSpec | utils/date-range.js:24-28 | the year range runs from January 1 to December 31 |
| DateRange.BuildCustomRange | utils/date-range.js:31-44 | both dates are empty exactly when an argument is not a string, does not split in two, or holds a non-numeric part |
| DateRange.CustomDates | utils/date-range.js:41-43 | numeric year-month pairs always give two non-empty dates |
| DateRange.SplitYearMonth | utils/date-range.js:33-34 | "YYYY-MM" splits at '-' into its two parts |
| DateRange.YearMonthDigits | utils/date-range.js:33-38 | two digit strings joined by '-' read as that year and month |
| DateRange.CustomDatesSpec | utils/date-range.js:41-43 | for months 1..12 the custom range runs from the first of the start month to the last day of the end month |
| CycleCalculator.GetCycleSetting | utils/cycle-calculator.js:5-11 | a missing setting gives start day 1 and type 'monthly'; a falsy start day gives 1; truthy stored fields are kept |
| CycleCalculator.CycleOf | utils/cycle-calculator.js:25-33 | the cycle's ends are valid dates and it carries the start day |
| CycleCalculator.CalculateCycle | utils/cycle-calculator.js:14-40 | the cycle of a date is computed with the stored (or default) start day |
| CycleCalculator.InclusiveEnds | utils/cycle-calculator.js:48-51 | the comparison includes the start and end instants, but any instant after midnight on the end day is excluded |
| CycleCalculator.StartIn | utils/cycle-calculator.js:27-31 | the corrected start day of a month is clamped to that month's length |
| CycleCalculator.CycleFixed | utils/cycle-calculator.js:25-33 | the corrected cycle's ends are valid dates and it carries the start day |
| CycleCalculator.CycleFixedContains | utils/cycle-calculator.js:25-33 | the corrected cycle contains its date and starts on the clamped start day |
| CycleCalculator.CycleFixedPartition | utils/cycle-calculator.js:25-33 | every date inside a corrected cycle has that same cycle, so the cycles partition the calendar |
| CycleCalculator.CycleOfIsFixed | utils/cycle-calculator.js:25-33 | for start days 1..28 the code as written and the corrected cycle agree: from this month's start day to the day before next month's, or from last month's to the day before this month's |
| CycleCalculator.CycleContainsMidnight | utils/cycle-calculator.js:25-51 | for start days 1..28 a date's midnight lies in its own cycle |
| CycleCalculator.DateOutsideOwnCycle | utils/cycle-calculator.js:31-32 | as written, with start day 31 the cycle of 2025-03-01 runs from March 3 to March 30 and excludes that date; the corrected cycle runs from February 28 |
| CycleCalculator.LastDayAfterMidnightExcluded | utils/cycle-calculator.js:48-51 | as written, 10:00 on 2025-03-31 is outside the cycle March 1-31 that its own date lies in |
| CycleCalculator.IsDateInCycleFixedSpec | utils/cycle-calculator.js:48-51 | the corrected test compares calendar days: any instant of a day is in a cycle exactly when that day's midnight is, and every instant is in its own corrected cycle |
| CycleCalculator.CountDigits | utils/cycle-calculator.js:61-63 | a number printed in digits holds no '月' |
| CycleCalculator.ShortFormCount | utils/cycle-calculator.js:61 | the short form "M月D日-D日" holds one '月' |
| CycleCalculator.LongFormCount | utils/cycle-calculator.js:63 | the long form "M月D日-M月D日" holds two |
| CycleCalculator.FormatCycleSpec | utils/cycle-calculator.js:54-65 | the display uses the short same-month form exactly when start and end months are equal |
| CycleCalculator.FormatCycleEnds | utils/cycle-calculator.js:54-65 | the display starts with the start month and "月" and ends with the end day and "日" |
| CycleCalculator.SettingStore.constructor | utils/cycle-calculator.js:69 | the store holds the given stored setting |
| CycleCalculator.SettingStore.FixCycleSetting | utils/cycle-calculator.js:68-89 | a missing setting or start day is replaced by {1, 'monthly'}; a start day outside 1..31 is reset to 1; anything else is kept; the result is stored |
| CycleCalculator.FixedSettingReadsBack | utils/cycle-calculator.js:5-89 | after the fix the setting read back has the fixed start day, within 1..31 |
| Calendar.DaysInMonth | utils/date-range.js:19 | a month has 28 to 31 days, 28 exactly for February of a common year |
| Calendar.PrevMonth | utils/cycle-calculator.js:31 | the month before wraps January to December of the previous year and is undone by the next month |
| Calendar.MakeDateExact | utils/date-range.js:5-7 | `new Date(y, m, d)` with a day inside the month is that date |
| Calendar.MakeDateDayZero | utils/date-range.js:19 | day 0 of the next month is the last day of the month |
| Calendar.MakeDateMonthEnd | utils/date-range.js:19 | day 0 of month m + 1 is the last day of month m after the month carries into the year |
| Calendar.DayBefore | utils/cycle-calculator.js:28-32 | the day before a date is a valid, earlier date |
| Calendar.DayBeforeAdjacent | utils/cycle-calculator.js:28-32 | nothing lies strictly between a date and the day before it |
| Conflict.MergedSpec | services/conflict.js:629-654 | the merge has the base's fields and the changed ones; an unchanged field keeps the base value, one changed only in version1 takes version1's, one changed in version2 takes version2's, which wins conflicting edits |
| Conflict.MergeKeepsBase | services/conflict.js:629-654 | merging a base with itself gives the base, and a merge never drops a base field |
| Conflict.PerformThreeWayMerge | services/conflict.js:629-654 | the two passes over the versions' fields compute the merge above |
| Conflict.ApplyChanges | services/conflict.js:633-637 | one pass copies exactly the fields of the version that differ from the base and keeps every other field |
| Conflict.ToInt32 | services/conflict.js:778 | `hash & hash` yields a signed 32-bit integer |
| Conflict.Hash | services/conflict.js:774-779 | the hash stays a signed 32-bit integer |
| Conflict.ToInt32Offset | services/conflict.js:778 | wrapping to 32 bits takes away a multiple of 2^32 |
| Conflict.ToInt32Shift | services/conflict.js:778 | wrapping ignores multiples of 2^32 |
| Conflict.StepIsPoly | services/conflict.js:777-778 | one step `((hash << 5) - hash) + char` computes 31 * hash + char modulo 2^32 |
| Conflict.HashIsPoly | services/conflict.js:772-781 | the checksum is the polynomial hash (base 31) of the code units, wrapped to 32 bits |
| Conflict.ToInt32Injective | services/conflict.js:778 | numbers less than 2^32 apart wrap to different values |
| Conflict.LastUnitChangesHash | services/conflict.js:772-781 | strings differing only in their last code unit get different hashes |
| Conflict.Hex | services/conflict.js:780 | `toString(16)` produces at least one character |
| Conflict.CalculateChecksum | services/conflict.js:772-781 | the loop returns the hex form of the wrapped polynomial hash |
| Conflict.RolePriority | services/conflict.js:663-668 | a role has a priority exactly when it is owner, admin, member or viewer |
| Conflict.GetUserPriorities | services/conflict.js:657-688 | one entry per user id, in order, carrying that id; when the member list cannot be read everyone is 'member' with 60 |
| Conflict.UserPriorityOfMember | services/conflict.js:670-677 | a family member gets the role of the first member with that id and that role's priority |
| Conflict.UserPriorityOfStranger | services/conflict.js:670-677 | a user who is not a member gets role 'member' and priority 60 |
| Conflict.HighestIsLastMaximum | services/conflict.js:585-587 | with every priority known, the reduce picks a user of highest priority, the last such on a tie |
| Conflict.ResolveConflict | services/conflict.js:390-429 | without the conflict collection the result is `collection_missing`; a missing conflict throws; a strategy of the table runs its resolver and the conflict is marked resolved |
| Conflict.UnknownStrategyThrows | services/conflict.js:404-407 | a name that is neither a strategy nor inherited by every object throws |
| Conflict.InheritedStrategyMarksResolved | services/conflict.js:404-409 | as written, the name "toString" passes the lookup, and the conflict is marked resolved with no data applied |
| Conflict.ResolveConflictFixedSpec | services/conflict.js:404-407 | with the lookup restricted to the table's own keys, a conflict is marked resolved exactly for the four strategy names, and then as the source does |
| TtlStorage.MakeEntry | utils/storage.js:8-12 | the stored record holds the value and the write time; it has an expiry time exactly when a truthy ttl was given, and then it is now + ttl |
| TtlStorage.Lookup | utils/storage.js:22-35 | a missing or expired key answers the default, any other key its stored value |
| TtlStorage.AfterLookup | utils/storage.js:30-31 | reading removes exactly an expired key and nothing else |
| TtlStorage.Storage.constructor | utils/storage.js:103 | the wrapper starts over the given storage contents |
| TtlStorage.Storage.Set | utils/storage.js:6-14 | reports success, and the key now holds the stamped record, all other keys unchanged |
| TtlStorage.Storage.Get | utils/storage.js:22-40 | answers the lookup above and leaves the storage as reading leaves it |
| TtlStorage.Storage.Remove | utils/storage.js:43-51 | reports success and removes the key only |
| TtlStorage.Storage.Clear | utils/storage.js:54-62 | reports success and empties the storage |
| TtlStorage.SetGetRoundTrip | utils/storage.js:6-35 | a value set with no ttl, or read back before its expiry, is returned and the storage stays; read after the expiry the default is returned and the key is gone |
| TtlStorage.LookupOtherKey | utils/storage.js:30-31 | reading one key never adds, removes or changes another |
| Theme.KnownThemeIds | services/theme.js:5-38 | the theme table holds exactly the ids 'light' and 'dark' |
| Theme.KnownFontSizeIds | services/theme.js:40-45 | the font-size table holds exactly 'small', 'normal', 'large' and 'xlarge' |
| Theme.ThemeById | services/theme.js:73-75 | a theme is found exactly for a known id, and it is the table's entry with that id; otherwise null |
| Theme.FontSizeById | services/theme.js:77-79 | a font size is found exactly for a known id, and it is the table's entry with that id; otherwise null |
| Theme.ThemeService.CurrentTheme | services/theme.js:65-67 | the current theme is the table's entry for the current id, or the first theme for an unknown id |
| Theme.ThemeService.CurrentFontSize | services/theme.js:69-71 | the current font size is the table's entry for the current id, or 'normal' for an unknown id |
| Theme.ThemeService.constructor | services/theme.js:48-55 | the ids come from the saved settings, 'light' and 'normal' when missing or empty; not yet initialised; the current pair is applied |
| Theme.ThemeService.ApplyTheme | services/theme.js:117-155 | publishes the current theme and font size and changes no setting |
| Theme.ThemeService.SetTheme | services/theme.js:81-87 | succeeds exactly for a known theme id; then the id is current, applied and saved with the font size; otherwise nothing changes |
| Theme.ThemeService.SetFontSize | services/theme.js:89-95 | succeeds exactly for a known font-size id; then the id is current, applied and saved with the theme; otherwise nothing changes |
| Theme.ThemeService.Init | services/theme.js:98-114 | idempotent: the first call applies the current pair, later calls change nothing; afterwards the service is initialised |
| Theme.ThemeService.Reset | services/theme.js:157-162 | back to 'light' and 'normal', applied and saved |
| Theme.ThemeService.Save | services/theme.js:164-171 | stores the current theme and font-size ids and nothing else changes |
| Theme.CurrentThemeResolves | services/theme.js:65-75 | the theme in use is always a table entry that the lookup by its own id finds again |
| Export.GetTransactionDataStable | services/export.js:144-168 | transactions with the same time keep their stored order, as the stable `sort` leaves them |
| Lists.SortDescendingStable | services/export.js:167 | the descending sort by a key is stable: the elements of each key leave it in the order they came in |
| Lists.InsertWithKey | services/export.js:167 | one insertion step puts the element in front of its equal keys and moves no other element |
| Export.GetTransactionDataSpec | services/export.js:144-168 | the query returns, newest first, exactly the stored transactions inside both bounds (inclusive) that match the category and account filters, each as often as it is stored |
| Export.RowLines | services/export.js:455 | one line per row, the row's cells joined by commas |
| Export.JoinAvoids | services/export.js:455 | joining adds no character that neither the parts nor the separator hold |
| Export.ExcelContentRoundTrip | services/export.js:452-456 | when no cell holds a comma or a line break, splitting the text at line breaks and each line at commas gives the table back |
| Export.UnitBytes | services/export.js:472-475 | each code unit is priced 1 to 4 bytes, never more than 3 since a code unit is at most 0xFFFF |
| Export.CalculateFileSize | services/export.js:466-485 | a string's size is the sum of its code units' prices, a buffer's is its byte length, anything else 0 |
| Export.UnitsBytesBounds | services/export.js:470-477 | the reported size lies between one and three bytes per code unit |
| Export.Decode | services/export.js:469 | the code points of a UTF-16 string, pairs combined and lone surrogates replaced, are all valid scalar values |
| Export.Utf8Length | services/export.js:469 | a code point takes 1 to 4 bytes in UTF-8 |
| Export.UnitsBytesOvercount | services/export.js:470-477 | the loop's size exceeds the true UTF-8 size by exactly two bytes per surrogate pair |
| Export.EmojiCountedAsSixBytes | services/export.js:470-477 | as written, the emoji U+1F600 (D83D DE00) is sized 6 bytes, while its UTF-8 form has 4 |
| Export.CalculateFileSizeFixed | services/export.js:466-485 | the corrected loop reports the UTF-8 size of the string's code points |
| Export.WithId | services/export.js:555-558 | the new record keeps every property of the given one and has an id: its own if it had one, the clock reading in decimal otherwise |
| Export.PrependSpec | services/export.js:555-563 | the new record comes first, followed by the newest older records, at most 50 in all |
| Export.WithoutIdSpec | services/export.js:594-597 | deleting removes exactly the records with that id, keeps the order of the rest, and changes nothing when no record has it |
| Export.HistoryStaysCapped | services/export.js:561-597 | adding and deleting keep the history at 50 records or fewer |
| Export.ExportHistory.constructor | services/export.js:569-576 | the history starts as the stored list, or empty when none is stored |
| Export.ExportHistory.AddExportHistory | services/export.js:554-566 | the history becomes the capped list with the new record first, and is saved |
| Export.ExportHistory.ClearExportHistory | services/export.js:588-591 | the history is emptied and the empty list saved |
| Export.ExportHistory.DeleteExportRecord | services/export.js:594-598 | the history loses the records with that id, and is saved |
| Formatter.DigitRun | utils/formatter.js:207 | the leading run of digits is all digits and is followed by a non-digit or the end |
| Formatter.DurationSeconds | utils/formatter.js:184-185 | below 60 seconds the text 'N秒' reads back as N |
| Formatter.DurationMinutes | utils/formatter.js:186-189 | below an hour the minutes-and-seconds text (or 'M分钟' when no seconds remain) reads back as the same number of seconds |
| Formatter.DurationHours | utils/formatter.js:190-194 | from an hour on the hours-and-minutes text (or 'H小时') reads back as the seconds less the leftover seconds |
| Formatter.MinutesTextRoundTrip | utils/formatter.js:187-189 | the minutes form, with or without a seconds part, reads back as 60 * minutes + seconds |
| Formatter.HoursTextRoundTrip | utils/formatter.js:191-193 | the hours form, with or without a minutes part, reads back as 3600 * hours + 60 * minutes |
| Formatter.FormatDurationRoundTrip | utils/formatter.js:183-195 | the text of any duration names it exactly below an hour and to the minute from an hour on |
| Formatter.GroupSpec | utils/formatter.js:155-157 | the separator splits the digits into a first group of one to three digits and groups of exactly three, which together give the digits back |
| Formatter.CleanGroup | utils/formatter.js:156-206 | removing the commas from grouped digits gives the digits back |
| Formatter.Zeros | utils/formatter.js:152 | `toFixed` pads an integer with exactly the asked number of zeros |
| Formatter.FormatNumberReadBack | utils/formatter.js:141-212 | the two-decimal text of a number, with or without separators, reads back as a hundred times the number |
| Formatter.ParseFloatPrefix | utils/formatter.js:207 | the number read from the front of a string has digits only in its whole and fraction parts |
| Formatter.ParseAmountUnreadable | utils/formatter.js:202-209 | nothing, the empty string and a string with no digit after cleaning all read as 0 |
| Formatter.ValidAmountExact | utils/formatter.js:202-226 | an amount `isValidAmount` accepts has at most two decimals and converts to cents exactly and non-negatively |
| Formatter.ParseRendered | utils/formatter.js:99-212 | a rendered amount, whatever its symbol, sign and separators, reads back as its cents |
| Formatter.FormatAmountRoundTrip | utils/formatter.js:78-212 | an amount in cents formatted in yuan as intended reads back as the same cents, whatever the options |
| Formatter.FormattedAmountIsValid | utils/formatter.js:78-227 | a non-negative amount formatted as intended without a plus sign passes `isValidAmount` |
| Formatter.FormatAmountAgreesFromOneYuan | utils/formatter.js:94-96 | from one yuan up, and for any unit other than yuan, the code as written agrees with the corrected formatter |
| Formatter.FiftyCentsShownAsFiftyYuan | utils/formatter.js:94-96 | as written, 50 cents are shown as "50.00", which reads back as 5000 cents; the corrected formatter shows "0.50" |
| TransactionList.DigitsOf | pages/transaction-list/transaction-list.js:718 | a `YYYY-MM-DD` string is four, two and two digits joined by dashes |
| TransactionList.DateStringOrder | pages/transaction-list/transaction-list.js:724 | comparing two `YYYY-MM-DD` strings as strings is comparing the days they name |
| TransactionList.InRangeByDays | pages/transaction-list/transaction-list.js:679-727 | the date filter keeps exactly the transactions whose extracted `YYYY-MM-DD` day lies between the two bound days, inclusive |
| TransactionList.DateOnlyOfText | pages/transaction-list/transaction-list.js:687-695 | a date with a time after 'T' or a space, or with none, has its `YYYY-MM-DD` part taken |
| TransactionList.ToggleFound | pages/transaction-list/transaction-list.js:963-964 | toggling a selected id removes its first occurrence and keeps the rest in order |
| TransactionList.ToggleSpec | pages/transaction-list/transaction-list.js:962-964 | toggling removes one occurrence of a selected id, and appends an unselected one |
| TransactionList.ToggleKeepsDistinct | pages/transaction-list/transaction-list.js:962-964 | a selection without duplicates stays without duplicates |
| TransactionList.ToggleFlips | pages/transaction-list/transaction-list.js:962-964 | on a selection without duplicates, toggling flips exactly the membership of the id |
| TransactionList.ToggleTwice | pages/transaction-list/transaction-list.js:962-964 | toggling an unselected id twice restores the selection |
| TransactionList.Highlight | pages/transaction-list/transaction-list.js:968-970 | every account is kept, in order, and marked selected exactly when its id is in the selection |
| TransactionList.MonthArrowsSpec | pages/transaction-list/transaction-list.js:1330-1367 | stepping back or forward moves exactly one month, wrapping 0 and 11 across the year, and the two steps undo each other |
| TransactionList.TransactionListPage.constructor | pages/transaction-list/transaction-list.js:14-66 | the page starts with the given filters, accounts and month |
| TransactionList.TransactionListPage.ApplyFilters | pages/transaction-list/transaction-list.js:669-785 | the result is sorted newest first, holds exactly the transactions passing the date, type, category, tag and account filters, each as often as loaded, and keeps transactions of the same time in loaded order |
| TransactionList.KeepPassing | pages/transaction-list/transaction-list.js:669-776 | the filter chain keeps exactly the transactions passing all five filters, each as often as loaded, in loaded order |
| TransactionList.KeepByDateAndKind | pages/transaction-list/transaction-list.js:669-750 | the date and type filters keep exactly the transactions passing both, in loaded order |
| TransactionList.TransactionListPage.OnAccountToggle | pages/transaction-list/transaction-list.js:959-975 | an empty id changes nothing; otherwise the id is toggled in the account filter and the accounts are re-highlighted; the month stays |
| TransactionList.TransactionListPage.PrevMonth | pages/transaction-list/transaction-list.js:1330-1347 | the page moves to the previous month and keeps its filters |
| TransactionList.TransactionListPage.NextMonth | pages/transaction-list/transaction-list.js:1350-1367 | the page moves to the next month and keeps its filters |
| CustomCycle.CustomErrorsStep | pages/custom-cycle/custom-cycle.js:271-289 | each field check adds that field's message exactly when the field is rejected, and touches no other field |
| CustomCycle.CustomErrorsEmpty | pages/custom-cycle/custom-cycle.js:266-294 | the custom settings pass exactly when no error is recorded; each month or day outside its range, and a same-month start not before the end, is reported under its own key |
| CustomCycle.SalaryErrorsEmpty | pages/custom-cycle/custom-cycle.js:297-311 | the salary settings pass exactly when no error is recorded; a pay day outside 1..31 and a cycle length outside 1..365 are each reported under their key, and nothing else is |
| CustomCycle.CheckCustom | pages/custom-cycle/custom-cycle.js:266-291 | the checks in sequence build exactly the custom error map |
| CustomCycle.CheckSalary | pages/custom-cycle/custom-cycle.js:297-308 | the checks in sequence build exactly the salary error map |
| CustomCycle.ClampCycleLength | pages/custom-cycle/custom-cycle.js:228-231 | the entered length is kept within 1..365; an unreadable or zero input becomes 30; larger is cut to 365 and negative raised to 1 |
| CustomCycle.ClampedLengthAccepted | pages/custom-cycle/custom-cycle.js:228-306 | a clamped length always passes the salary check, and clamping it again changes nothing |
| CustomCycle.PrevDay | pages/custom-cycle/custom-cycle.js:245-246 | for a pay day in 1..31 the preview's end day is the day before it, 31 before day 1 |
| CustomCycle.CustomPreviewParts | pages/custom-cycle/custom-cycle.js:250-256 | the custom preview is "每年" with the start month and day, then the end day, or the end month and day when the months differ |
| CustomCycle.TailInjective | pages/custom-cycle/custom-cycle.js:252-256 | the part after the dash determines the end month and day |
| CustomCycle.CustomPreviewInjective | pages/custom-cycle/custom-cycle.js:250-256 | different custom settings always have different previews |
| CustomCycle.SalaryPreviewInjective | pages/custom-cycle/custom-cycle.js:244-247 | different pay days always have different previews |
| CustomCycle.TemplatesValid | pages/custom-cycle/custom-cycle.js:29-60 | the semester template and both pay-day templates pass their checks |
| CustomCycle.CustomCyclePage.constructor | pages/custom-cycle/custom-cycle.js:5-71 | the page starts with the natural cycle, January 1 to December 31, pay day 15 and length 30, no preview and no errors |
| CustomCycle.CustomCyclePage.UpdatePreview | pages/custom-cycle/custom-cycle.js:238-263 | the preview becomes the text for the cycle type and settings, and nothing else changes |
| CustomCycle.CustomCyclePage.ValidateCustomSettings | pages/custom-cycle/custom-cycle.js:266-294 | stores the custom error map and answers whether it is empty, which is the custom validity |
| CustomCycle.CustomCyclePage.ValidateSalarySettings | pages/custom-cycle/custom-cycle.js:297-311 | stores the salary error map and answers whether it is empty, which is the salary validity |
| CustomCycle.CustomCyclePage.ClearFieldError | pages/custom-cycle/custom-cycle.js:314-319 | removes that field's error and the general one, and nothing else |
| CustomCycle.CustomCyclePage.OnCycleLengthInput | pages/custom-cycle/custom-cycle.js:228-235 | the clamped length is stored, the preview refreshed and the field's error cleared |
| CustomCycle.CustomCyclePage.OnPayDayChange | pages/custom-cycle/custom-cycle.js:218-225 | the picked index + 1 becomes the pay day, the preview is refreshed and the field's error cleared |
| CustomCycle.CustomCyclePage.OnStartMonthChange | pages/custom-cycle/custom-cycle.js:178-185 | the picked index + 1 becomes the start month, the preview is refreshed and the field's error cleared |
| CustomCycle.CustomCyclePage.OnStartDayChange | pages/custom-cycle/custom-cycle.js:188-195 | the picked index + 1 becomes the start day, the preview is refreshed and the field's error cleared |
| CustomCycle.CustomCyclePage.OnEndMonthChange | pages/custom-cycle/custom-cycle.js:198-205 | the picked index + 1 becomes the end month, the preview is refreshed and the field's error cleared |
| CustomCycle.CustomCyclePage.OnEndDayChange | pages/custom-cycle/custom-cycle.js:208-215 | the picked index + 1 becomes the end day, the preview is refreshed and the field's error cleared |
| CustomCycle.CustomCyclePage.OnCycleTypeChange | pages/custom-cycle/custom-cycle.js:146-150 | the chosen type is stored and the preview refreshed, the settings and errors unchanged |

## Left out

- File-system and process work of the merge scripts is not modelled: `setup_logging`, `create_backup`, log output, `generate_summary_report`, `main` and its arguments. The folder is an in-memory map, and a failed write or delete is a parameter.
- The `run` method of `scripts/merge_docs_enhanced.py` is not modelled separately. It calls `merge_theme_documents` (modelled) once per group, in the same way as the modelled `run` of `scripts/merge_docs_by_theme.py`.
- DocCommon.SafeTheme: Python's `\w` on a `str` matches every Unicode letter and digit. The model's word characters are ASCII letters, digits, `_` and CJK ideographs only. This makes no difference for the names in the built-in theme table, the only names the scripts pass.
- `read_document_content` reads with encoding fallbacks. The model has two cases only: a document's text is readable, or unreadable and then empty.
- `datetime.now()` readings are string parameters.
- Python's `lower()` and `strip()`, and JavaScript's `toLowerCase()`, `trim()` and `\s`, are modelled on ASCII letters and ASCII whitespace only.
- `localeCompare` is modelled as comparison by code unit.
- Asynchronous calls, `try`/`catch` around storage, and console logging are not modelled. Storage reads and writes always succeed; a thrown error is an error value.
- Amounts are integers in cents. The following are not modelled:
  - floating-point amounts;
  - amounts stored as strings (JavaScript would concatenate them);
  - the 0.01 tolerance, which becomes exact equality.
- AccountProvider.ToBalance: `Number()` of a string balance gives a value only for digit strings. Decimal, signed and exponent forms are NaN in the model.
- `resolveCategory` and `resolveAccount` are not modelled separately. Each is a one-line call of `byIdOrName` with a fixed kind, which IdResolver.ByIdOrName models.
- EventBus: callbacks are opaque numbers, so `emit`'s data argument is not modelled. Neither is a callback that registers or removes listeners during `emit`, apart from a `once` closure removing itself.
- DateRange.ToNumber: `Number()` in `buildCustomRange` accepts only optionally signed digit runs. Decimal, exponent and hexadecimal forms are NaN in the model.
- Dates beyond JavaScript's ±275760-year range, time zones (everything is local time) and NaN dates are not modelled. Parsing of date strings by `new Date(...)` is a parameter.
- CycleCalculator.GetCycleSetting: a stored `startDay` is an integer. Strings and other non-numeric values are not modelled.
- Conflict: not modelled:
  - the database work (locks, heartbeats, version records, conflict records);
  - the bodies of the four resolvers;
  - `detectConflict`, `getConflictById`, `getPendingConflicts`, `cleanupExpiredLocks` and the id generators.
  `ResolveConflict` records which resolver runs.
- Conflict: `JSON.stringify` is not modelled. The checksum is taken over the code units of the JSON text, which is given.
- Conflict: the family-member list is a parameter, and None stands for a read that throws.
- Export: not modelled:
  - the export entry points and the Excel and PDF builders around the modelled text;
  - `saveFile`, `shareFile`, `getAssetData`, `getFinancialReportData` and `getAccountTypeText`.
  These are file-system, share-sheet and floating-point report code.
- Export: `new Date(transaction.date)` is a parameter (the time in milliseconds).
- TtlStorage: JSON serialisation is not modelled. The model assumes that every key holds an entry written by this wrapper.
- TtlStorage: `getInfo`, `setBatch`, `getBatch` and `removeBatch` are not modelled. They are loops over `set`, `get` and `remove`.
- Theme: not modelled: the global app object, the theme-changed callbacks, the `theme_vars` storage record, and every theme colour except the primary one. `ThemeService.applied` records the theme and font size last applied.
- Formatter: not modelled, because they are floating-point or `Date` code: `formatDate`, `formatRelativeDate`, `formatPercent` and `formatFileSize`.
- Formatter.FormatAmount: modelled for integer cents and two decimals only. Other `decimals` values and fractional inputs are not modelled.
- Formatter.FormatNumber and Formatter.FormatDuration: modelled on integers only.
- Formatter.ParseAmount: the text is read with exact decimal arithmetic, not as a floating-point number. An input with three or more decimals can therefore round to a different number of cents than the source's `Math.round(parseFloat(x) * 100)`: for "1.005" the source gives 100 cents and the model 101, and for "0.145" the source gives 14 and the model 15. Inputs with at most two decimals agree, which is the case ValidAmountExact covers. Exponent forms and "Infinity" are not modelled either.
- TransactionList: not modelled:
  - `initDateRange`, `loadTransactions`, `applyFiltersAndReload`, paging, the pickers and dialogs;
  - `setData` throttling, and the boundary-date logging.
  `toISOString` of a parsed date is a parameter.
- CustomCycle: not modelled:
  - `onTemplateSelect`, `applyCycle` and `loadCurrentCycle`;
  - dialogs, toasts and storage.
  A picker index is an integer. `parseInt` of text that is not a number is None.

## Findings

| source | as written | input that shows it | evidently intended | confidence | as-written member | corrected member |
|---|---|---|---|---|---|---|
| scripts/merge_docs_enhanced.py:116-129 | the document texts are lower-cased but the keywords are not, so keywords with capitals ("UI", "API", "UI界面") never match | an empty document named `UI.md` at the docs root scores 0 for the "UI界面" theme | case-insensitive keyword matching, so the document scores for that theme | not executed | DocMergeEnhanced.UiDocumentMissesUiTheme | DocMergeEnhanced.UiDocumentMatchesUiTheme |
| services/account-sync.js:287 | the repair looks accounts up by `a.id`, while the validator keys them by `id` or `_id` | an account stored with `_id` "x", no `id`, balance 500 and no transactions is reported and never repaired | look the account up by the validator's key, after which no mismatch remains | not executed | AccountSync.FixByIdMissesDbIdOnlyAccount | AccountSync.FixByKeyRestoresConsistency |
| services/account-sync.js:120-121 | a transfer debits and stores the source account before looking up the target | account "a" holding 100 transfers 30 to a missing account "b": the call throws and "a" is stored at 70 | check both accounts and the balance before writing either | not executed | AccountSync.TransferToMissingTargetDebitsSource | AccountSync.CreateAtomicSpec |
| services/export.js:466-477 | each code unit of a surrogate pair is priced 3 bytes, and the 4-byte branch is unreachable | the emoji U+1F600 (code units D83D DE00) is sized 6 bytes | the UTF-8 length, 4 bytes for that emoji | not executed | Export.EmojiCountedAsSixBytes | Export.CalculateFileSizeFixed |
| utils/eventBus.js:45-48 | the `once` closure removes itself only after its callback returns | a `once` callback that throws fires again on the next emit | a `once` listener runs at most once | not executed | EventBus.ThrowingOnceFiresAgain | EventBus.OnceFixedFiresOnce |
| utils/cycle-calculator.js:48-51 | the cycle end is midnight at the start of its last day | 10:00 on 2025-03-31 is outside the cycle March 1-31 | the whole last day belongs to the cycle | not executed | CycleCalculator.LastDayAfterMidnightExcluded | CycleCalculator.IsDateInCycleFixedSpec |
| utils/cycle-calculator.js:27-32 | a start day larger than the month's length carries into the next month | 2025-03-01 with start day 31 gets the cycle March 3 - March 30, which excludes that date | the start day is clamped to the month's length, and every date lies in its own cycle | not executed | CycleCalculator.DateOutsideOwnCycle | CycleCalculator.CycleFixedPartition |
| services/conflict.js:404-407 | the strategy table is indexed with any name, so names inherited from `Object.prototype` pass the check | strategy "toString" on an existing conflict marks it resolved without applying any data | only the four strategy names are accepted, and any other name throws | not executed | Conflict.InheritedStrategyMarksResolved | Conflict.ResolveConflictFixedSpec |
| services/data-consistency.js:29-46 | a transfer whose source is the account is counted only as money out, even when the target is the same account | an account starting at 100 that transferred 30 to itself, balance 100, is calculated at 70 and reported invalid | a self-transfer nets to zero | not executed | DataConsistency.SelfTransferCountedAsOutgoing | DataConsistency.CalculatedFixedIsIntended |
| utils/formatter.js:94-96 | with unit 'yuan' the amount in cents is divided by 100 only when its magnitude is at least 100 | 50 cents are shown as "50.00", which reads back as 5000 cents | every amount in cents is shown in yuan: "0.50" | not executed | Formatter.FiftyCentsShownAsFiftyYuan | Formatter.FormatAmountRoundTrip |
