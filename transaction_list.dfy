/**
 * The filter pipeline and the small state changes of the transaction list page
 * (pages/transaction-list/transaction-list.js): which loaded transactions the page shows for the
 * chosen date range, type, category, tag and accounts, in which order; the account multi-select;
 * and the month arrows. Date parsing by `new Date(...)` and the time a date value denotes are
 * parameters.
 */
module TransactionList {
  import opened Wrappers
  import opened Strings
  import opened Js
  import opened Calendar
  import Lists
  import DateRange

  // ---------------------------------------------------------------- transactions and filters

  /** `t.tags`: absent (undefined or null), an array, or a single string. */
  datatype Tags = NoTags | TagList(items: seq<string>) | TagText(text: string)

  /**
   * A loaded transaction as the filters see it: the two date properties as raw values, the type
   * (`kind`), the category, the tags and the four properties an account may be named by.
   */
  datatype Transaction = Transaction(
    date: JsValue, createTime: JsValue, kind: Option<string>, category: Option<string>, tags: Tags,
    accountId: Option<string>, account: Option<string>, accountIdStr: Option<string>, accountName: Option<string>)

  /** `this.data.filters`; `accounts` is None when it is not an array. */
  datatype Filters = Filters(
    startDate: Option<string>, endDate: Option<string>, kind: Option<string>, category: Option<string>,
    tag: Option<string>, accounts: Option<seq<string>>)

  /** `t.date || t.createTime`. */
  function DateValue(t: Transaction): JsValue
  {
    OrValue(t.date, t.createTime)
  }

  /**
   * The `YYYY-MM-DD` part of a date value: the text before the first 'T', else before the first
   * space, else the whole string when it already has that shape; anything else goes through
   * `new Date(v).toISOString()`, whose date part `isoDateOf` gives (None for an invalid date).
   */
  function DateOnly(v: JsValue, isoDateOf: JsValue -> Option<string>): Option<string>
  {
    match v
    case Str(s) =>
      if 'T' in s then Some(Split(s, 'T')[0])
      else if ' ' in s then Some(Split(s, ' ')[0])
      else if DateRange.IsValidDateStr(Some(s)) then Some(s)
      else isoDateOf(v)
    case _ => isoDateOf(v)
  }

  /** The date test: a well-formed date part between the bounds, both included, as strings. */
  predicate InRange(t: Transaction, startDate: string, endDate: string, isoDateOf: JsValue -> Option<string>)
  {
    var d := DateOnly(DateValue(t), isoDateOf);
    DateRange.IsValidDateStr(d) && LexLe(startDate, d.value) && LexLe(d.value, endDate)
  }

  /** Whether `t.tags` holds the tag: membership for an array, equality for a string, never when falsy. */
  predicate HasTag(tags: Tags, tag: string)
  {
    match tags
    case NoTags => false
    case TagList(items) => tag in items
    case TagText(text) => text != "" && text == tag
  }

  /** `t.accountId || t.account || t.accountIdStr || t.accountName`. */
  function AccountOf(t: Transaction): Option<string>
  {
    Or(Or(Or(t.accountId, t.account), t.accountIdStr), t.accountName)
  }

  predicate DateFilterOn(f: Filters) { Present(f.startDate) && Present(f.endDate) }

  predicate TagFilterOn(f: Filters) { Present(f.tag) && f.tag.value != "all" }

  predicate AccountFilterOn(f: Filters) { f.accounts.Some? && |f.accounts.value| > 0 }

  /** The date filter's callback. */
  predicate DateTest(f: Filters, t: Transaction, isoDateOf: JsValue -> Option<string>)
    requires DateFilterOn(f)
  {
    InRange(t, f.startDate.value, f.endDate.value, isoDateOf)
  }

  /** The tag filter's callback. */
  predicate TagTest(f: Filters, t: Transaction)
    requires TagFilterOn(f)
  {
    HasTag(t.tags, f.tag.value)
  }

  /** The account filter's callback: `tid && accSet.has(String(tid))`. */
  predicate AccountTest(f: Filters, t: Transaction)
    requires AccountFilterOn(f)
  {
    Present(AccountOf(t)) && AccountOf(t).value in f.accounts.value
  }

  /** Every test of `applyFilters`, each one switched off by its "no filter" setting. */
  predicate Passes(f: Filters, t: Transaction, isoDateOf: JsValue -> Option<string>)
  {
    (DateFilterOn(f) ==> DateTest(f, t, isoDateOf))
    && (f.kind != Some("all") ==> t.kind == f.kind)
    && (f.category != Some("all") ==> t.category == f.category)
    && (TagFilterOn(f) ==> TagTest(f, t))
    && (AccountFilterOn(f) ==> AccountTest(f, t))
  }

  /** The sort key: the time `new Date(t.date || t.createTime)` stands for. */
  function TimeKey(timeOf: JsValue -> int): Transaction -> int
  {
    t => timeOf(DateValue(t))
  }

  // ---------------------------------------------------------------- dates compare as strings

  /** The calendar day a `YYYY-MM-DD` string names, the month made 0-based. */
  function DateOf(s: string): Date
    requires DateRange.IsValidDateStr(Some(s))
  {
    DigitsOf(s);
    Date(ParseNat(s[..4]), ParseNat(s[5..7]) - 1, ParseNat(s[8..]))
  }

  lemma DigitsOf(s: string)
    requires DateRange.IsValidDateStr(Some(s))
    ensures AllDigits(s[..4]) && AllDigits(s[5..7]) && AllDigits(s[8..])
    ensures s == s[..4] + ("-" + (s[5..7] + ("-" + s[8..])))
  {
    assert s[4..5] == "-" && s[7..8] == "-";
    assert s == s[..4] + s[4..5] + s[5..7] + s[7..8] + s[8..];
  }

  /**
   * Comparing two `YYYY-MM-DD` strings as strings, as the date test does, is comparing the days
   * they name.
   */
  lemma DateStringOrder(a: string, b: string)
    requires DateRange.IsValidDateStr(Some(a)) && DateRange.IsValidDateStr(Some(b))
    ensures LexLe(a, b) <==> DateLe(DateOf(a), DateOf(b))
  {
    DigitsOf(a);
    DigitsOf(b);
    var a1, a2, a3 := a[..4], a[5..7], a[8..];
    var b1, b2, b3 := b[..4], b[5..7], b[8..];
    LexLeConcat(a1, "-" + (a2 + ("-" + a3)), b1, "-" + (b2 + ("-" + b3)));
    LexLeConcat("-", a2 + ("-" + a3), "-", b2 + ("-" + b3));
    LexLeConcat(a2, "-" + a3, b2, "-" + b3);
    LexLeConcat("-", a3, "-", b3);
    DigitsOrder(a1, b1);
    DigitsOrder(a2, b2);
    DigitsOrder(a3, b3);
  }

  /** The date test keeps exactly the transactions whose day lies between the two bound days. */
  lemma InRangeByDays(t: Transaction, startDate: string, endDate: string, isoDateOf: JsValue -> Option<string>)
    requires DateRange.IsValidDateStr(Some(startDate)) && DateRange.IsValidDateStr(Some(endDate))
    ensures var d := DateOnly(DateValue(t), isoDateOf);
      InRange(t, startDate, endDate, isoDateOf)
      <==> DateRange.IsValidDateStr(d) && DateLe(DateOf(startDate), DateOf(d.value)) && DateLe(DateOf(d.value), DateOf(endDate))
  {
    var d := DateOnly(DateValue(t), isoDateOf);
    if DateRange.IsValidDateStr(d) {
      DateStringOrder(startDate, d.value);
      DateStringOrder(d.value, endDate);
    }
  }

  /**
   * A date string with a time after 'T' or after a space, or with none, has its `YYYY-MM-DD`
   * part taken as the date.
   */
  lemma DateOnlyOfText(d: string, sep: char, time: string, isoDateOf: JsValue -> Option<string>)
    requires DateRange.IsValidDateStr(Some(d))
    requires sep == 'T' || sep == ' '
    requires sep == ' ' ==> 'T' !in time
    ensures DateOnly(Str(d + [sep] + time), isoDateOf) == Some(d)
    ensures DateOnly(Str(d), isoDateOf) == Some(d)
  {
    assert 'T' !in d && ' ' !in d by {
      forall i | 0 <= i < |d| ensures d[i] != 'T' && d[i] != ' ' {
        assert i == 4 || i == 7 || IsDigit(d[i]);
      }
    }
    var s := d + [sep] + time;
    SplitAppend(d, sep, time);
    assert s[|d|] == sep;
    if sep == ' ' {
      assert 'T' !in s by {
        forall i | 0 <= i < |s| ensures s[i] != 'T' {
          if i > |d| {
            assert s[i] == time[i - |d| - 1];
          }
        }
      }
    }
  }

  // ---------------------------------------------------------------- the account selection

  /** `sel.indexOf(id)`, then `splice(idx, 1)` when found and `push(id)` otherwise. */
  function Toggle(sel: seq<string>, id: string): (r: seq<string>)
  {
    match Lists.FindFirst(sel, x => x == id)
    case Some(k) => sel[..k] + sel[k + 1..]
    case None => sel + [id]
  }

  predicate NoDuplicates(s: seq<string>)
  {
    forall i, j :: 0 <= i < j < |s| ==> s[i] != s[j]
  }

  /** Where the id is found, toggling cuts out that first occurrence. */
  lemma ToggleFound(sel: seq<string>, id: string) returns (k: nat)
    requires id in sel
    ensures k < |sel| && sel[k] == id && id !in sel[..k]
    ensures Toggle(sel, id) == sel[..k] + sel[k + 1..]
  {
    var found := Lists.FindFirst(sel, x => x == id);
    var i :| 0 <= i < |sel| && sel[i] == id;
    assert found.Some?;
    k := found.value;
  }

  /**
   * Toggling removes one occurrence of a selected id and appends an unselected one.
   */
  lemma ToggleSpec(sel: seq<string>, id: string)
    ensures id in sel ==> multiset(Toggle(sel, id)) == multiset(sel) - multiset{id}
    ensures id !in sel ==> Toggle(sel, id) == sel + [id]
  {
    if id in sel {
      var k := ToggleFound(sel, id);
      assert sel == sel[..k] + [id] + sel[k + 1..];
    } else {
      var found := Lists.FindFirst(sel, x => x == id);
      assert found.None?;
    }
  }

  /** The elements of a sequence with one position cut out, by their old positions. */
  lemma CutAt(sel: seq<string>, k: nat, i: nat)
    requires k < |sel| && i < |sel| - 1
    ensures (sel[..k] + sel[k + 1..])[i] == sel[if i < k then i else i + 1]
  {
  }

  /** On a selection without repeats, toggling adds no repeat. */
  lemma ToggleKeepsDistinct(sel: seq<string>, id: string)
    requires NoDuplicates(sel)
    ensures NoDuplicates(Toggle(sel, id))
  {
    var r := Toggle(sel, id);
    if id in sel {
      var k := ToggleFound(sel, id);
      forall i, j | 0 <= i < j < |r| ensures r[i] != r[j] {
        CutAt(sel, k, i);
        CutAt(sel, k, j);
      }
    } else {
      ToggleSpec(sel, id);
    }
  }

  /** On a selection without repeats, toggling flips exactly the id's membership. */
  lemma ToggleFlips(sel: seq<string>, id: string)
    requires NoDuplicates(sel)
    ensures forall x :: x in Toggle(sel, id) <==> (x in sel) != (x == id)
  {
    var r := Toggle(sel, id);
    if id in sel {
      var k := ToggleFound(sel, id);
      forall x | x in r ensures x in sel && x != id {
        var i :| 0 <= i < |r| && r[i] == x;
        CutAt(sel, k, i);
      }
      forall x | x in sel && x != id ensures x in r {
        var i :| 0 <= i < |sel| && sel[i] == x;
        if i < k {
          CutAt(sel, k, i);
        } else {
          CutAt(sel, k, i - 1);
        }
      }
    } else {
      ToggleSpec(sel, id);
    }
  }

  /** Toggling an id that is not selected and then toggling it again restores the selection. */
  lemma ToggleTwice(sel: seq<string>, id: string)
    requires id !in sel
    ensures Toggle(Toggle(sel, id), id) == sel
  {
    ToggleSpec(sel, id);
    var s := sel + [id];
    var k := Lists.FindFirst(s, x => x == id);
    assert s[|sel|] == id;
    assert k == Some(|sel|);
    assert s[..|sel|] == sel;
  }

  /** An account row of the list and whether it is highlighted as selected. */
  datatype AccountRow = AccountRow(id: string, selected: bool)

  /** The rows with `selected` recomputed from the selection. */
  function Highlight(rows: seq<AccountRow>, sel: seq<string>): (r: seq<AccountRow>)
    ensures |r| == |rows|
    ensures forall i :: 0 <= i < |r| ==> r[i].id == rows[i].id && (r[i].selected <==> rows[i].id in sel)
  {
    seq(|rows|, i requires 0 <= i < |rows| => rows[i].(selected := rows[i].id in sel))
  }

  // ---------------------------------------------------------------- the month arrows

  /** `prevMonth`: month 0 goes back to month 11 of the year before. */
  function MonthBefore(year: int, month: int): (int, int)
  {
    if month == 0 then (year - 1, 11) else (year, month - 1)
  }

  /** `nextMonth`: month 11 goes on to month 0 of the year after. */
  function MonthAfter(year: int, month: int): (int, int)
  {
    if month == 11 then (year + 1, 0) else (year, month + 1)
  }

  /**
   * On a 0-based month the arrows step one calendar month back and forth, undo each other and
   * keep the month in 0..11.
   */
  lemma MonthArrowsSpec(year: int, month: int)
    requires 0 <= month < 12
    ensures MonthBefore(year, month) == PrevMonth(year, month)
    ensures MonthAfter(year, month) == NextMonth(year, month)
    ensures var b := MonthBefore(year, month); 12 * b.0 + b.1 == 12 * year + month - 1
    ensures var a := MonthAfter(year, month); 12 * a.0 + a.1 == 12 * year + month + 1
    ensures var b := MonthBefore(year, month); MonthAfter(b.0, b.1) == (year, month)
    ensures var a := MonthAfter(year, month); MonthBefore(a.0, a.1) == (year, month)
  {
  }

  /** The first two filters of `applyFilters`: the date range and the transaction type. */
  predicate PassesDateAndKind(f: Filters, t: Transaction, isoDateOf: JsValue -> Option<string>)
  {
    (DateFilterOn(f) ==> DateTest(f, t, isoDateOf)) && (f.kind != Some("all") ==> t.kind == f.kind)
  }

  /** The date and type filters of `applyFilters`, keeping the order the transactions were loaded in. */
  method KeepByDateAndKind(f: Filters, transactions: seq<Transaction>, isoDateOf: JsValue -> Option<string>)
    returns (kept: seq<Transaction>)
    ensures forall t :: multiset(kept)[t] == if PassesDateAndKind(f, t, isoDateOf) then multiset(transactions)[t] else 0
    ensures Lists.Subsequence(kept, transactions)
  {
    ghost var s1 := (t: Transaction) => DateFilterOn(f) ==> DateTest(f, t, isoDateOf);
    ghost var s2 := (t: Transaction) => PassesDateAndKind(f, t, isoDateOf);
    kept := transactions;
    Lists.SubsequenceReflexive(transactions);
    var byDate := t => DateFilterOn(f) && DateTest(f, t, isoDateOf);
    Lists.FilterChainStep(transactions, kept, t => true, DateFilterOn(f), byDate, s1);
    if DateFilterOn(f) {
      kept := Lists.Filter(kept, byDate);
    }
    var byKind := (t: Transaction) => t.kind == f.kind;
    Lists.FilterChainStep(transactions, kept, s1, f.kind != Some("all"), byKind, s2);
    if f.kind != Some("all") {
      kept := Lists.Filter(kept, byKind);
    }
  }

  /**
   * The filter chain of `applyFilters`, before the sort: the transactions passing every filter,
   * each as often as it was loaded, in the order they were loaded.
   */
  method KeepPassing(f: Filters, transactions: seq<Transaction>, isoDateOf: JsValue -> Option<string>)
    returns (kept: seq<Transaction>)
    ensures forall t :: multiset(kept)[t] == if Passes(f, t, isoDateOf) then multiset(transactions)[t] else 0
    ensures Lists.Subsequence(kept, transactions)
  {
    // the transactions kept after each further filter, as predicates
    ghost var s2 := (t: Transaction) => PassesDateAndKind(f, t, isoDateOf);
    ghost var s3 := (t: Transaction) => PassesDateAndKind(f, t, isoDateOf) && (f.category != Some("all") ==> t.category == f.category);
    ghost var s4 := (t: Transaction) =>
      PassesDateAndKind(f, t, isoDateOf) && (f.category != Some("all") ==> t.category == f.category) && (TagFilterOn(f) ==> TagTest(f, t));
    ghost var s5 := (t: Transaction) => Passes(f, t, isoDateOf);
    kept := KeepByDateAndKind(f, transactions, isoDateOf);
    var byCategory := (t: Transaction) => t.category == f.category;
    Lists.FilterChainStep(transactions, kept, s2, f.category != Some("all"), byCategory, s3);
    if f.category != Some("all") {
      kept := Lists.Filter(kept, byCategory);
    }
    var byTag := (t: Transaction) => TagFilterOn(f) && TagTest(f, t);
    Lists.FilterChainStep(transactions, kept, s3, TagFilterOn(f), byTag, s4);
    if TagFilterOn(f) {
      kept := Lists.Filter(kept, byTag);
    }
    var byAccount := (t: Transaction) => AccountFilterOn(f) && AccountTest(f, t);
    Lists.FilterChainStep(transactions, kept, s4, AccountFilterOn(f), byAccount, s5);
    if AccountFilterOn(f) {
      kept := Lists.Filter(kept, byAccount);
    }
  }

  // ---------------------------------------------------------------- the page

  class TransactionListPage {
    var filters: Filters
    /** The account rows shown in the filter panel. */
    var accounts: seq<AccountRow>
    var currentYear: int
    /** 0-based, as `getMonth()` returns it. */
    var currentMonth: int

    constructor (filters: Filters, accounts: seq<AccountRow>, year: int, month: int)
      ensures this.filters == filters && this.accounts == accounts
      ensures currentYear == year && currentMonth == month
    {
      this.filters := filters;
      this.accounts := accounts;
      currentYear := year;
      currentMonth := month;
    }

    /**
     * `applyFilters`: the transactions that pass every filter, each as often as it was loaded,
     * newest first; transactions of the same time stay in the order they were loaded.
     */
    method ApplyFilters(transactions: seq<Transaction>, isoDateOf: JsValue -> Option<string>, timeOf: JsValue -> int)
      returns (filtered: seq<Transaction>)
      ensures Lists.Descending(filtered, TimeKey(timeOf))
      ensures forall t :: multiset(filtered)[t] == if Passes(filters, t, isoDateOf) then multiset(transactions)[t] else 0
      ensures forall k :: Lists.Subsequence(Lists.WithKey(filtered, TimeKey(timeOf), k), Lists.WithKey(transactions, TimeKey(timeOf), k))
    {
      var kept := KeepPassing(filters, transactions, isoDateOf);
      Lists.SortDescendingSpec(kept, TimeKey(timeOf));
      Lists.SortDescendingSubsequence(kept, transactions, TimeKey(timeOf));
      filtered := Lists.SortDescending(kept, TimeKey(timeOf));
    }

    /**
     * `onAccountToggle`: an empty id does nothing; otherwise the id's membership in the account
     * filter is toggled and the rows are highlighted from the new selection.
     */
    method OnAccountToggle(datasetId: Option<string>)
      modifies this
      ensures !Present(datasetId) ==> filters == old(filters) && accounts == old(accounts)
      ensures Present(datasetId) ==>
        var sel := Toggle(if old(filters).accounts.Some? then old(filters).accounts.value else [], datasetId.value);
        filters == old(filters).(accounts := Some(sel)) && accounts == Highlight(old(accounts), sel)
      ensures currentYear == old(currentYear) && currentMonth == old(currentMonth)
    {
      var id := if Present(datasetId) then datasetId.value else "";
      if id == "" {
        return;
      }
      var sel := if filters.accounts.Some? then filters.accounts.value else [];
      sel := Toggle(sel, id);
      filters := filters.(accounts := Some(sel));
      accounts := Highlight(accounts, sel);
    }

    /** `prevMonth`. */
    method PrevMonth()
      modifies this
      ensures (currentYear, currentMonth) == MonthBefore(old(currentYear), old(currentMonth))
      ensures filters == old(filters) && accounts == old(accounts)
    {
      if currentMonth == 0 {
        currentMonth := 11;
        currentYear := currentYear - 1;
      } else {
        currentMonth := currentMonth - 1;
      }
    }

    /** `nextMonth`. */
    method NextMonth()
      modifies this
      ensures (currentYear, currentMonth) == MonthAfter(old(currentYear), old(currentMonth))
      ensures filters == old(filters) && accounts == old(accounts)
    {
      if currentMonth == 11 {
        currentMonth := 0;
        currentYear := currentYear + 1;
      } else {
        currentMonth := currentMonth + 1;
      }
    }
  }
}
