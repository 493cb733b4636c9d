/**
 * The in-memory parts of the export service (services/export.js): the transaction query behind
 * every export, the CSV-like text that stands in for a spreadsheet, the byte size reported for a
 * file, and the export history kept newest first and capped at 50 records.
 */
module Export {
  import opened Wrappers
  import opened Strings
  import opened Js
  import Lists

  // ---------------------------------------------------------------- getTransactionData

  /**
   * A transaction as the query sees it: `time` is the value of `new Date(transaction.date)` in
   * milliseconds; the category and account ids may be missing.
   */
  datatype Transaction = Transaction(time: int, categoryId: Option<string>, accountId: Option<string>)

  /** The filter callback of `getTransactionData`; a missing bound (falsy in the source) is None. */
  predicate Keep(t: Transaction, startTime: Option<int>, endTime: Option<int>,
                 categories: seq<string>, accounts: seq<string>)
  {
    (startTime.None? || t.time >= startTime.value)
    && (endTime.None? || t.time <= endTime.value)
    && (|categories| == 0 || (t.categoryId.Some? && t.categoryId.value in categories))
    && (|accounts| == 0 || (t.accountId.Some? && t.accountId.value in accounts))
  }

  /** `Array.prototype.filter` with `Keep`. */
  function FilterTransactions(ts: seq<Transaction>, startTime: Option<int>, endTime: Option<int>,
                              categories: seq<string>, accounts: seq<string>): seq<Transaction>
  {
    Lists.Filter(ts, t => Keep(t, startTime, endTime, categories, accounts))
  }

  function Time(t: Transaction): int { t.time }

  /** Newest first. */
  predicate NewestFirst(ts: seq<Transaction>)
  {
    Lists.Descending(ts, Time)
  }

  /** `getTransactionData` over the transactions `dataManager` holds. */
  function GetTransactionData(all: seq<Transaction>, startTime: Option<int>, endTime: Option<int>,
                              categories: seq<string>, accounts: seq<string>): seq<Transaction>
  {
    Lists.SortDescending(FilterTransactions(all, startTime, endTime, categories, accounts), Time)
  }

  /**
   * The query returns, newest first, exactly the transactions inside both bounds (inclusive)
   * that match the category and account filters, each as often as it is stored.
   */
  lemma GetTransactionDataSpec(all: seq<Transaction>, startTime: Option<int>, endTime: Option<int>,
                               categories: seq<string>, accounts: seq<string>)
    ensures var r := GetTransactionData(all, startTime, endTime, categories, accounts);
      NewestFirst(r)
      && forall t :: multiset(r)[t] == if Keep(t, startTime, endTime, categories, accounts) then multiset(all)[t] else 0
  {
    Lists.FilterSpec(all, t => Keep(t, startTime, endTime, categories, accounts));
    Lists.SortDescendingSpec(FilterTransactions(all, startTime, endTime, categories, accounts), Time);
  }

  /**
   * Transactions with the same time keep their stored order: those of time `k` in the result
   * are a subsequence of those stored, so with the multiset clause above they are exactly the
   * kept ones of that time, in stored order.
   */
  lemma GetTransactionDataStable(all: seq<Transaction>, startTime: Option<int>, endTime: Option<int>,
                                 categories: seq<string>, accounts: seq<string>, k: int)
    ensures Lists.Subsequence(Lists.WithKey(GetTransactionData(all, startTime, endTime, categories, accounts), Time, k),
                              Lists.WithKey(all, Time, k))
  {
    var kept := FilterTransactions(all, startTime, endTime, categories, accounts);
    Lists.SortDescendingStable(kept, Time, k);
    Lists.FilterSubsequence(all, t => Keep(t, startTime, endTime, categories, accounts));
    Lists.WithKeySubsequence(kept, all, Time, k);
  }

  // ---------------------------------------------------------------- generateExcelContent

  /** Each row's cells joined by ',' (as `Array.prototype.join` renders them, here strings). */
  function RowLines(data: seq<seq<string>>): (r: seq<string>)
    ensures |r| == |data|
    ensures forall i :: 0 <= i < |data| ==> r[i] == Join(data[i], ",")
  {
    if |data| == 0 then [] else [Join(data[0], ",")] + RowLines(data[1..])
  }

  /** `generateExcelContent`: the rows' lines joined by a newline. */
  function GenerateExcelContent(data: seq<seq<string>>): string
  {
    Join(RowLines(data), "\n")
  }

  /** A joined string contains a character only if a part or the separator does. */
  lemma {:induction false} JoinAvoids(parts: seq<string>, sep: string, c: char)
    requires c !in sep
    requires forall i :: 0 <= i < |parts| ==> c !in parts[i]
    ensures c !in Join(parts, sep)
  {
    if |parts| > 1 {
      JoinAvoids(parts[1..], sep, c);
    }
  }

  /**
   * When no cell holds a comma or a newline, the content reads back as the table it was built
   * from: its lines are the rows, and every non-empty row splits back into its cells (an empty
   * row, as the report inserts between sections, gives an empty line).
   */
  lemma ExcelContentRoundTrip(data: seq<seq<string>>)
    requires |data| >= 1
    requires forall i, j :: 0 <= i < |data| && 0 <= j < |data[i]| ==> ',' !in data[i][j] && '\n' !in data[i][j]
    ensures var lines := Split(GenerateExcelContent(data), '\n');
      |lines| == |data|
      && forall i :: 0 <= i < |data| ==>
           (|data[i]| == 0 ==> lines[i] == "") && (|data[i]| > 0 ==> Split(lines[i], ',') == data[i])
  {
    var rl := RowLines(data);
    forall i | 0 <= i < |rl|
      ensures '\n' !in rl[i]
    {
      JoinAvoids(data[i], ",", '\n');
    }
    SplitJoin(rl, '\n');
    forall i | 0 <= i < |data| && |data[i]| > 0
      ensures Split(rl[i], ',') == data[i]
    {
      SplitJoin(data[i], ',');
    }
  }

  // ---------------------------------------------------------------- calculateFileSize

  /** A UTF-16 code unit, what `charCodeAt` returns. */
  type CodeUnit = c: int | 0 <= c <= 0xFFFF

  /** What `calculateFileSize` is given: a string, a buffer with a byte length, or anything else. */
  datatype Content = Text(units: seq<CodeUnit>) | Buffer(byteLength: nat) | Other

  /** The bytes the loop adds for one `charCodeAt` value; a code unit never reaches the last branch. */
  function UnitBytes(code: int): (r: nat)
    ensures 1 <= r <= 4
    ensures code <= 0xFFFF ==> r <= 3
  {
    if code <= 0x007F then 1
    else if code <= 0x07FF then 2
    else if code <= 0xFFFF then 3
    else 4
  }

  /** The sum the loop computes: each code unit priced on its own. */
  function UnitsBytes(s: seq<CodeUnit>): nat
  {
    if |s| == 0 then 0 else UnitBytes(s[0]) + UnitsBytes(s[1..])
  }

  /**
   * `calculateFileSize`: strings are priced code unit by code unit; a buffer reports its
   * `byteLength` (a zero length is falsy and gives the same 0); anything else is 0.
   */
  method CalculateFileSize(content: Content) returns (size: nat)
    ensures content.Text? ==> size == UnitsBytes(content.units)
    ensures content.Buffer? ==> size == content.byteLength
    ensures content.Other? ==> size == 0
  {
    match content {
      case Text(s) =>
        size := 0;
        var i := 0;
        while i < |s|
          invariant 0 <= i <= |s|
          invariant size + UnitsBytes(s[i..]) == UnitsBytes(s)
        {
          assert s[i..] == [s[i]] + s[i + 1..];
          size := size + UnitBytes(s[i]);
          i := i + 1;
        }
      case Buffer(n) =>
        size := n;
      case Other =>
        size := 0;
    }
  }

  /** The price stays between one and three bytes per code unit: the four-byte branch is never taken. */
  lemma {:induction false} UnitsBytesBounds(s: seq<CodeUnit>)
    ensures |s| <= UnitsBytes(s) <= 3 * |s|
  {
    if |s| > 0 {
      UnitsBytesBounds(s[1..]);
    }
  }

  predicate IsHighSurrogate(c: int) { 0xD800 <= c <= 0xDBFF }
  predicate IsLowSurrogate(c: int) { 0xDC00 <= c <= 0xDFFF }
  predicate IsSurrogate(c: int) { 0xD800 <= c <= 0xDFFF }

  /**
   * The code points a UTF-16 string denotes: a high surrogate followed by a low one is one
   * supplementary code point, and a lone surrogate is replaced by U+FFFD, as a UTF-8 encoder does.
   */
  function Decode(s: seq<CodeUnit>): (r: seq<int>)
    ensures forall k :: 0 <= k < |r| ==> 0 <= r[k] <= 0x10FFFF && !IsSurrogate(r[k])
  {
    if |s| == 0 then []
    else if |s| >= 2 && IsHighSurrogate(s[0]) && IsLowSurrogate(s[1]) then
      [0x10000 + (s[0] - 0xD800) * 0x400 + (s[1] - 0xDC00)] + Decode(s[2..])
    else if IsSurrogate(s[0]) then [0xFFFD] + Decode(s[1..])
    else [s[0]] + Decode(s[1..])
  }

  /** The length of a code point's UTF-8 encoding. */
  function Utf8Length(cp: int): (r: nat)
    ensures 1 <= r <= 4
  {
    if cp <= 0x7F then 1 else if cp <= 0x7FF then 2 else if cp <= 0xFFFF then 3 else 4
  }

  /** The length of the UTF-8 encoding of a sequence of code points. */
  function Utf8Size(cps: seq<int>): nat
  {
    if |cps| == 0 then 0 else Utf8Length(cps[0]) + Utf8Size(cps[1..])
  }

  /** The surrogate pairs a UTF-16 string holds, counted as `Decode` reads them. */
  function PairCount(s: seq<CodeUnit>): nat
  {
    if |s| == 0 then 0
    else if |s| >= 2 && IsHighSurrogate(s[0]) && IsLowSurrogate(s[1]) then 1 + PairCount(s[2..])
    else PairCount(s[1..])
  }

  /**
   * What the loop reports exceeds the real UTF-8 size by exactly two bytes per surrogate pair,
   * and only then: lone surrogates cost three bytes in both.
   */
  lemma {:induction false} UnitsBytesOvercount(s: seq<CodeUnit>)
    ensures UnitsBytes(s) == Utf8Size(Decode(s)) + 2 * PairCount(s)
  {
    if |s| >= 2 && IsHighSurrogate(s[0]) && IsLowSurrogate(s[1]) {
      UnitsBytesOvercount(s[2..]);
      assert s[1..][1..] == s[2..];
    } else if |s| > 0 {
      UnitsBytesOvercount(s[1..]);
    }
  }

  /** One emoji, U+1F600 as the pair D83D DE00: the loop reports 6 bytes, its UTF-8 form has 4. */
  lemma EmojiCountedAsSixBytes()
    ensures UnitsBytes([0xD83D, 0xDE00]) == 6
    ensures Decode([0xD83D, 0xDE00]) == [0x1F600]
    ensures Utf8Size(Decode([0xD83D, 0xDE00])) == 4
  {
    var s: seq<CodeUnit> := [0xD83D, 0xDE00];
    assert s[1..][1..] == [];
    assert s[2..] == [];
  }

  /**
   * The size as intended: the UTF-8 length of the string, with a surrogate pair priced as the
   * single four-byte code point it encodes.
   */
  method CalculateFileSizeFixed(content: Content) returns (size: nat)
    ensures content.Text? ==> size == Utf8Size(Decode(content.units))
    ensures content.Buffer? ==> size == content.byteLength
    ensures content.Other? ==> size == 0
  {
    match content {
      case Text(s) =>
        size := 0;
        var i := 0;
        while i < |s|
          invariant 0 <= i <= |s|
          invariant size + Utf8Size(Decode(s[i..])) == Utf8Size(Decode(s))
        {
          if i + 1 < |s| && IsHighSurrogate(s[i]) && IsLowSurrogate(s[i + 1]) {
            assert s[i..][2..] == s[i + 2..];
            size := size + 4;
            i := i + 2;
          } else {
            assert s[i..][1..] == s[i + 1..];
            size := size + (if IsSurrogate(s[i]) then 3 else UnitBytes(s[i]));
            i := i + 1;
          }
        }
      case Buffer(n) =>
        size := n;
      case Other =>
        size := 0;
    }
  }

  // ---------------------------------------------------------------- export history

  /** An export record: its properties by name (`id`, `type`, `fileName`, ...). */
  type ExportRecord = map<string, JsValue>

  const MaxHistory := 50

  /** `{ id: Date.now().toString(), ...record }`: the record's own properties win over the new id. */
  function WithId(record: ExportRecord, now: nat): (r: ExportRecord)
    ensures "id" in r
    ensures "id" in record ==> r["id"] == record["id"]
    ensures "id" !in record ==> r["id"] == Str(NatToString(now))
    ensures forall k :: k in record ==> k in r && r[k] == record[k]
    ensures forall k :: k in r ==> k in record || k == "id"
  {
    map["id" := Str(NatToString(now))] + record
  }

  /** `record.id` (undefined when the record has none). */
  function IdOf(record: ExportRecord): JsValue
  {
    if "id" in record then record["id"] else Undefined
  }

  /** The newest record first, the list then cut to its first 50 entries. */
  function Prepend(history: seq<ExportRecord>, entry: ExportRecord): seq<ExportRecord>
  {
    var h := [entry] + history;
    if |h| > MaxHistory then h[..MaxHistory] else h
  }

  /** The capped history keeps the new entry at the front and the 49 most recent before it. */
  lemma PrependSpec(history: seq<ExportRecord>, entry: ExportRecord)
    ensures var r := Prepend(history, entry);
      |r| == (if |history| + 1 > MaxHistory then MaxHistory else |history| + 1)
      && r[0] == entry
      && r[1..] == history[..|r| - 1]
  {
  }

  /** The callback `record => record.id !== recordId`. */
  function OtherId(recordId: JsValue): ExportRecord -> bool
  {
    record => IdOf(record) != recordId
  }

  /** `filter(record => record.id !== recordId)`. */
  function WithoutId(history: seq<ExportRecord>, recordId: JsValue): seq<ExportRecord>
  {
    Lists.Filter(history, OtherId(recordId))
  }

  /**
   * Deleting by id drops every record with that id and keeps each other record, as often as it
   * occurs and in its order; the list is left unchanged when no record has the id.
   */
  lemma WithoutIdSpec(history: seq<ExportRecord>, recordId: JsValue)
    ensures forall x :: multiset(WithoutId(history, recordId))[x] == if IdOf(x) == recordId then 0 else multiset(history)[x]
    ensures (forall k :: 0 <= k < |history| ==> IdOf(history[k]) != recordId) ==> WithoutId(history, recordId) == history
    ensures Lists.Subsequence(WithoutId(history, recordId), history)
  {
    Lists.FilterSpec(history, OtherId(recordId));
    Lists.FilterSubsequence(history, OtherId(recordId));
    if forall k :: 0 <= k < |history| ==> IdOf(history[k]) != recordId {
      Lists.FilterAll(history, OtherId(recordId));
    }
  }

  /**
   * The export service's history and the storage entry `export_history` it is saved to after
   * every change.
   */
  class ExportHistory {
    var records: seq<ExportRecord>
    var saved: seq<ExportRecord>

    /** The constructor reads the stored history; a missing or falsy entry is an empty list. */
    constructor (stored: Option<seq<ExportRecord>>)
      ensures records == (if stored.Some? then stored.value else [])
      ensures saved == records
    {
      records := if stored.Some? then stored.value else [];
      saved := records;
    }

    /** `addExportHistory`: the record, under a fresh id unless it has one, goes first; at most 50 stay. */
    method AddExportHistory(record: ExportRecord, now: nat)
      modifies this
      ensures records == Prepend(old(records), WithId(record, now))
      ensures saved == records
    {
      records := [WithId(record, now)] + records;
      if |records| > MaxHistory {
        records := records[..MaxHistory];
      }
      saved := records;
    }

    /** `clearExportHistory`. */
    method ClearExportHistory()
      modifies this
      ensures records == [] && saved == []
    {
      records := [];
      saved := records;
    }

    /** `deleteExportRecord`: every record whose id is `recordId` is dropped. */
    method DeleteExportRecord(recordId: JsValue)
      modifies this
      ensures records == WithoutId(old(records), recordId)
      ensures saved == records
    {
      records := WithoutId(records, recordId);
      saved := records;
    }
  }

  /** A history that respects the cap keeps respecting it through additions and deletions. */
  lemma HistoryStaysCapped(history: seq<ExportRecord>, entry: ExportRecord, recordId: JsValue)
    requires |history| <= MaxHistory
    ensures |Prepend(history, entry)| <= MaxHistory
    ensures |WithoutId(history, recordId)| <= MaxHistory
  {
  }
}
