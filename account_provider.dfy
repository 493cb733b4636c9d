/**
 * The single source of accounts for the pages (services/accountProvider.js): stored accounts,
 * or the three defaults when none are stored, normalised, de-duplicated by key and sorted
 * cash first, wallets second, then by name.
 */
module AccountProvider {
  import opened Wrappers
  import opened Strings
  import opened Js
  import Lists

  /** A JavaScript number as far as balances go: an integer number of cents, or NaN. */
  datatype Number = Finite(n: int) | NaN

  /** An account as stored: every property optional; the balance may be any value (`_id` is `dbId`). */
  datatype RawAccount = RawAccount(id: Option<string>, dbId: Option<string>, name: Option<string>,
                                   kind: Option<string>, balance: JsValue, icon: Option<string>)

  /** A normalised account: every property filled in. */
  datatype Account = Account(id: string, dbId: string, name: string, kind: string, balance: Number, icon: string)

  /** A normalised account with its balance rendered for display. */
  datatype Shown = Shown(account: Account, balanceDisplay: string)

  const Cash := "cash"
  const Wallet := "wallet"
  const DefaultIcon := "💰"

  /** The three accounts used when none are stored (balances in cents). */
  const Defaults: seq<RawAccount> := [
    RawAccount(Some("1"), Some("1"), Some("现金"), Some("cash"), Num(100000), Some("💰")),
    RawAccount(Some("2"), Some("2"), Some("招商银行"), Some("bank"), Num(500000), Some("🏦")),
    RawAccount(Some("3"), Some("3"), Some("支付宝"), Some("wallet"), Num(50000), Some("📱"))]

  /** `x || fallback` for an optional string property. */
  function OrElse(o: Option<string>, fallback: string): (r: string)
    ensures Present(o) ==> r == o.value
    ensures !Present(o) ==> r == fallback
  {
    if Present(o) then o.value else fallback
  }

  /**
   * `typeof b === 'number' ? b : Number(b || 0)`: a number is kept, a falsy value gives 0,
   * `true` gives 1, a string of decimal digits its value, and anything else NaN.
   */
  function ToBalance(b: JsValue): (r: Number)
    ensures b.Num? ==> r == Finite(b.n)
    ensures !Truthy(b) ==> r == Finite(0)
  {
    match b
    case Num(n) => Finite(n)
    case Bool(t) => Finite(if t then 1 else 0)
    case Str(s) => if s == "" then Finite(0) else if AllDigits(s) then Finite(ParseNat(s)) else NaN
    case Undefined => Finite(0)
    case Null => Finite(0)
    case Obj(_) => NaN
  }

  /** `normalizeAccount`: null for a missing account, otherwise every property defaulted. */
  function NormalizeAccount(a: Option<RawAccount>): (r: Option<Account>)
  {
    match a
    case None => None
    case Some(raw) =>
      Some(Account(OrElse(raw.id, OrElse(raw.dbId, "")), OrElse(raw.dbId, OrElse(raw.id, "")),
                   OrElse(raw.name, ""), OrElse(raw.kind, Cash), ToBalance(raw.balance), OrElse(raw.icon, DefaultIcon)))
  }

  /**
   * A missing account normalises to nothing; otherwise `id` and `_id` are each taken from
   * itself or else from the other, so either filled one fills both; the type defaults to
   * cash, the icon to the purse and a numeric balance is kept.
   */
  lemma NormalizeAccountSpec(a: Option<RawAccount>)
    ensures a.None? <==> NormalizeAccount(a).None?
    ensures a.Some? ==> var raw, acc := a.value, NormalizeAccount(a).value;
      (Present(raw.id) || Present(raw.dbId) ==> acc.id != "" && acc.dbId != "")
      && (!Present(raw.id) && !Present(raw.dbId) ==> acc.id == "" && acc.dbId == "")
      && (Present(raw.id) ==> acc.id == raw.id.value)
      && (Present(raw.dbId) ==> acc.dbId == raw.dbId.value)
      && (!Present(raw.kind) ==> acc.kind == Cash)
      && (!Present(raw.icon) ==> acc.icon == DefaultIcon)
      && (raw.balance.Num? ==> acc.balance == Finite(raw.balance.n))
  {
  }

  // ---------------------------------------------------------------- de-duplication

  /** `String(item._id || item.id || item.name)`. */
  function Key(a: Account): string
  {
    if a.dbId != "" then a.dbId else if a.id != "" then a.id else a.name
  }

  function Keys(s: seq<Account>): set<string>
  {
    set a | a in s :: Key(a)
  }

  /** The first account for each key, in the order the keys are first seen. */
  function Dedupe(s: seq<Account>): (r: seq<Account>)
  {
    if |s| == 0 then []
    else
      var acc := Dedupe(s[..|s| - 1]);
      if Key(s[|s| - 1]) in Keys(acc) then acc else acc + [s[|s| - 1]]
  }

  /** Whether position `i` holds the first account of its key. */
  predicate FirstOfKey(s: seq<Account>, i: nat)
    requires i < |s|
  {
    forall j :: 0 <= j < i ==> Key(s[j]) != Key(s[i])
  }

  /** The keys kept are the keys of the input. */
  lemma {:induction false} DedupeKeys(s: seq<Account>)
    ensures Keys(Dedupe(s)) == Keys(s)
  {
    if |s| > 0 {
      var n := |s| - 1;
      var p := s[..n];
      DedupeKeys(p);
      assert s == p + [s[n]];
      assert Keys(s) == Keys(p) + {Key(s[n])};
    }
  }

  /** No two kept accounts share a key. */
  lemma {:induction false} DedupeDistinct(s: seq<Account>)
    ensures forall a, b :: 0 <= a < b < |Dedupe(s)| ==> Key(Dedupe(s)[a]) != Key(Dedupe(s)[b])
  {
    if |s| > 0 {
      var n := |s| - 1;
      var p := s[..n];
      DedupeDistinct(p);
      var acc := Dedupe(p);
      if Key(s[n]) !in Keys(acc) {
        forall a | 0 <= a < |acc| ensures Key(acc[a]) != Key(s[n]) {
          assert acc[a] in acc;
        }
      }
    }
  }

  /** Every kept account is the first account of its key in the input. */
  lemma {:induction false} DedupeFirst(s: seq<Account>, k: nat)
    requires k < |Dedupe(s)|
    ensures exists i :: 0 <= i < |s| && s[i] == Dedupe(s)[k] && FirstOfKey(s, i)
  {
    var n := |s| - 1;
    var p := s[..n];
    var acc := Dedupe(p);
    if k < |acc| {
      DedupeFirst(p, k);
      var i :| 0 <= i < |p| && p[i] == acc[k] && FirstOfKey(p, i);
      assert s[i] == Dedupe(s)[k] && FirstOfKey(s, i);
    } else {
      DedupeKeys(p);
      assert Dedupe(s)[k] == s[n] && Key(s[n]) !in Keys(p);
      forall j | 0 <= j < n ensures Key(s[j]) != Key(s[n]) {
        assert s[j] == p[j] && p[j] in p;
      }
      assert FirstOfKey(s, n);
    }
  }

  /** `dedupeById` over normalised accounts: a loop over the list remembering the keys seen. */
  method DedupeById(list: seq<Account>) returns (r: seq<Account>)
    ensures r == Dedupe(list)
  {
    r := [];
    var seen: set<string> := {};
    var i := 0;
    while i < |list|
      invariant 0 <= i <= |list|
      invariant r == Dedupe(list[..i]) && seen == Keys(r)
    {
      assert list[..i + 1][..i] == list[..i];
      if Key(list[i]) !in seen {
        r := r + [list[i]];
        seen := seen + {Key(list[i])};
      }
      i := i + 1;
    }
    assert list[..|list|] == list;
  }

  // ---------------------------------------------------------------- ordering

  /** Cash 0, wallet 1, any other type 2. */
  function Weight(kind: string): (w: nat)
    ensures w <= 2
  {
    if kind == Cash then 0 else if kind == Wallet then 1 else 2
  }

  /**
   * Whether `a` may precede `b`: a lower type weight, or the same weight and a name not
   * after `b`'s (names compared code unit by code unit).
   */
  predicate Before(a: Account, b: Account)
  {
    Weight(a.kind) < Weight(b.kind) || (Weight(a.kind) == Weight(b.kind) && LexLe(a.name, b.name))
  }

  lemma BeforeTotal(a: Account, b: Account)
    ensures Before(a, b) || Before(b, a)
  {
    LexLeTotal(a.name, b.name);
  }

  /** `[...list].sort(cmp)`: a stable sort, an element going ahead of every later one it may precede. */
  function Insert(x: Account, s: seq<Account>): (r: seq<Account>)
    ensures |r| == |s| + 1
  {
    if |s| == 0 || Before(x, s[0]) then [x] + s else [s[0]] + Insert(x, s[1..])
  }

  function SortAccounts(s: seq<Account>): (r: seq<Account>)
    ensures |r| == |s|
  {
    if |s| == 0 then [] else Insert(s[0], SortAccounts(s[1..]))
  }

  predicate Sorted(s: seq<Account>)
  {
    forall i, j :: 0 <= i < j < |s| ==> Before(s[i], s[j])
  }

  /** Inserting puts the account after the leading ones it may not precede, in front of the rest. */
  lemma {:induction false} InsertPosition(x: Account, s: seq<Account>) returns (k: nat)
    ensures k <= |s| && Insert(x, s) == s[..k] + [x] + s[k..]
    ensures forall i :: 0 <= i < k ==> !Before(x, s[i])
    ensures k < |s| ==> Before(x, s[k])
  {
    if |s| == 0 || Before(x, s[0]) {
      k := 0;
    } else {
      var k' := InsertPosition(x, s[1..]);
      k := k' + 1;
      assert s[1..][..k'] == s[1..k] && s[1..][k'..] == s[k..];
      assert s[..k] == [s[0]] + s[1..k];
      forall i | 0 <= i < k ensures !Before(x, s[i]) {
        if i > 0 {
          assert s[i] == s[1..][i - 1];
        }
      }
    }
  }

  lemma InsertSorted(x: Account, s: seq<Account>)
    requires Sorted(s)
    ensures Sorted(Insert(x, s))
  {
    var k := InsertPosition(x, s);
    var r := Insert(x, s);
    forall i, j | 0 <= i < j < |r| ensures Before(r[i], r[j]) {
      var a := if i < k then s[i] else if i == k then x else s[i - 1];
      var c := if j < k then s[j] else if j == k then x else s[j - 1];
      assert r[i] == a && r[j] == c;
      if j == k {
        BeforeTotal(x, s[i]);
      } else if i == k {
        if j - 1 > k {
          BeforeTransitive(x, s[k], s[j - 1]);
        }
      }
    }
  }

  lemma BeforeTransitive(a: Account, b: Account, c: Account)
    requires Before(a, b) && Before(b, c)
    ensures Before(a, c)
  {
    if Weight(a.kind) == Weight(b.kind) == Weight(c.kind) {
      LexLeTransitive(a.name, b.name, c.name);
    }
  }

  /** Inserting adds the account to the accounts already there. */
  lemma {:induction false} InsertMultiset(x: Account, s: seq<Account>)
    ensures multiset(Insert(x, s)) == multiset(s) + multiset{x}
  {
    if |s| > 0 && !Before(x, s[0]) {
      InsertMultiset(x, s[1..]);
      assert s == [s[0]] + s[1..];
      assert Insert(x, s) == [s[0]] + Insert(x, s[1..]);
    }
  }

  /** Sorting orders every pair (cash before wallets before the rest, then by name) and keeps every account. */
  lemma {:induction false} SortAccountsSpec(s: seq<Account>)
    ensures Sorted(SortAccounts(s))
    ensures multiset(SortAccounts(s)) == multiset(s)
  {
    if |s| > 0 {
      SortAccountsSpec(s[1..]);
      var t := SortAccounts(s[1..]);
      InsertSorted(s[0], t);
      InsertMultiset(s[0], t);
      assert s == [s[0]] + s[1..];
    }
  }

  /** What the comparator looks at: accounts with the same key compare as equal. */
  function TieKey(a: Account): (nat, string)
  {
    (Weight(a.kind), a.name)
  }

  /** Inserting puts the account in front of those it ties with and moves no other account of any key. */
  lemma {:induction false} InsertTies(x: Account, s: seq<Account>, k: (nat, string))
    ensures Lists.WithKey(Insert(x, s), TieKey, k) == (if TieKey(x) == k then [x] else []) + Lists.WithKey(s, TieKey, k)
  {
    if |s| > 0 && !Before(x, s[0]) {
      assert TieKey(s[0]) != TieKey(x) by {
        LexLeTotal(x.name, x.name);
      }
      InsertTies(x, s[1..], k);
      Lists.WithKeyBehind(x, s[0], s[1..], Insert(x, s[1..]), TieKey, k);
      assert s == [s[0]] + s[1..];
    } else {
      Lists.WithKeyCons(x, s, TieKey, k);
    }
  }

  /** The sort is stable: accounts of the same type weight and name keep their stored order. */
  lemma {:induction false} SortAccountsStable(s: seq<Account>, k: (nat, string))
    ensures Lists.WithKey(SortAccounts(s), TieKey, k) == Lists.WithKey(s, TieKey, k)
  {
    if |s| > 0 {
      SortAccountsStable(s[1..], k);
      InsertTies(s[0], SortAccounts(s[1..]), k);
    }
  }

  // ---------------------------------------------------------------- display and assembly

  /** `(cents / 100).toFixed(2)` for an integer number of cents; NaN prints as "NaN". */
  function BalanceDisplay(b: Number): string
  {
    match b
    case NaN => "NaN"
    case Finite(n) =>
      var m := if n < 0 then -n else n;
      var cents := m % 100;
      (if n < 0 then "-" else "") + NatToString(m / 100) + "." + (if cents < 10 then "0" else "") + NatToString(cents)
  }

  /** Two decimals always follow the point. */
  lemma BalanceDisplayDecimals(n: int)
    ensures var s := BalanceDisplay(Finite(n)); |s| >= 4 && s[|s| - 3] == '.' && IsDigit(s[|s| - 2]) && IsDigit(s[|s| - 1])
  {
    var m := if n < 0 then -n else n;
    var cents := m % 100;
    var tail := (if cents < 10 then "0" else "") + NatToString(cents);
    assert |tail| == 2;
  }

  /** The normalised, non-null accounts of a stored list (`map(normalizeAccount).filter(Boolean)`). */
  function NormalizeAll(s: seq<Option<RawAccount>>): (r: seq<Account>)
    ensures |r| <= |s|
  {
    if |s| == 0 then []
    else
      var rest := NormalizeAll(s[..|s| - 1]);
      match NormalizeAccount(s[|s| - 1])
      case None => rest
      case Some(a) => rest + [a]
  }

  function WithDisplay(s: seq<Account>): (r: seq<Shown>)
    ensures |r| == |s| && forall i :: 0 <= i < |s| ==> r[i].account == s[i]
  {
    seq(|s|, i requires 0 <= i < |s| => Shown(s[i], BalanceDisplay(s[i].balance)))
  }

  function Wrap(s: seq<RawAccount>): seq<Option<RawAccount>>
  {
    seq(|s|, i requires 0 <= i < |s| => Some(s[i]))
  }

  /**
   * `getAvailableAccounts`: the stored list when it is a non-empty array, otherwise the
   * defaults; normalised, de-duplicated, sorted and rendered. `stored` is None when storage
   * holds no array.
   */
  method GetAvailableAccounts(stored: Option<seq<Option<RawAccount>>>) returns (r: seq<Shown>)
    ensures var base := if stored.Some? && |stored.value| > 0 then stored.value else Wrap(Defaults);
      r == WithDisplay(SortAccounts(Dedupe(NormalizeAll(base))))
  {
    var base := if stored.Some? && |stored.value| > 0 then stored.value else Wrap(Defaults);
    var normalized := NormalizeAll(base);
    var deduped := DedupeById(normalized);
    r := WithDisplay(SortAccounts(deduped));
  }

  predicate DistinctKeys(s: seq<Account>)
  {
    forall a, b :: 0 <= a < b < |s| ==> Key(s[a]) != Key(s[b])
  }

  lemma InsertDistinct(x: Account, s: seq<Account>)
    requires DistinctKeys(s) && Key(x) !in Keys(s)
    ensures DistinctKeys(Insert(x, s)) && Keys(Insert(x, s)) == Keys(s) + {Key(x)}
  {
    var k := InsertPosition(x, s);
    var r := Insert(x, s);
    forall i, j | 0 <= i < j < |r| ensures Key(r[i]) != Key(r[j]) {
      if i == k {
        assert r[j] == s[j - 1] && s[j - 1] in s;
      } else if j == k {
        assert r[i] == s[i] && s[i] in s;
      } else {
        var a := if i < k then i else i - 1;
        var c := if j < k then j else j - 1;
        assert r[i] == s[a] && r[j] == s[c] && a < c;
      }
    }
    InsertKeys(x, s);
  }

  lemma InsertKeys(x: Account, s: seq<Account>)
    ensures Keys(Insert(x, s)) == Keys(s) + {Key(x)}
  {
    var k := InsertPosition(x, s);
    var r := Insert(x, s);
    assert s == s[..k] + s[k..];
    forall key | key in Keys(r) ensures key in Keys(s) + {Key(x)} {
      var a :| a in r && Key(a) == key;
    }
    forall key | key in Keys(s) + {Key(x)} ensures key in Keys(r) {
      if key != Key(x) {
        var a :| a in s && Key(a) == key;
        assert a in r;
      }
    }
  }

  /** Sorting keeps the keys, and keeps them pairwise different when they were. */
  lemma {:induction false} SortDistinct(s: seq<Account>)
    requires DistinctKeys(s)
    ensures DistinctKeys(SortAccounts(s)) && Keys(SortAccounts(s)) == Keys(s)
  {
    if |s| > 0 {
      var t := s[1..];
      assert Keys(s) == Keys(t) + {Key(s[0])} by {
        assert s == [s[0]] + t;
      }
      assert DistinctKeys(t) by {
        forall a, b | 0 <= a < b < |t| ensures Key(t[a]) != Key(t[b]) {
          assert t[a] == s[a + 1] && t[b] == s[b + 1];
        }
      }
      assert Key(s[0]) !in Keys(t) by {
        forall m | 0 <= m < |t| ensures Key(t[m]) != Key(s[0]) {
          assert t[m] == s[m + 1];
        }
      }
      SortDistinct(t);
      InsertDistinct(s[0], SortAccounts(t));
    }
  }

  /** The accounts offered are sorted, carry pairwise different keys, and cover every key of the normalised base. */
  lemma AvailableAccountsSpec(base: seq<Option<RawAccount>>)
    ensures var accounts := SortAccounts(Dedupe(NormalizeAll(base)));
      Sorted(accounts) && DistinctKeys(accounts) && Keys(accounts) == Keys(NormalizeAll(base))
  {
    var d := Dedupe(NormalizeAll(base));
    DedupeKeys(NormalizeAll(base));
    DedupeDistinct(NormalizeAll(base));
    SortAccountsSpec(d);
    SortDistinct(d);
  }

  /** The three defaults, normalised. */
  const DefaultAccounts: seq<Account> := [
    Account("1", "1", "现金", "cash", Finite(100000), "💰"),
    Account("2", "2", "招商银行", "bank", Finite(500000), "🏦"),
    Account("3", "3", "支付宝", "wallet", Finite(50000), "📱")]

  lemma DefaultsNormalized()
    ensures NormalizeAll(Wrap(Defaults)) == DefaultAccounts
  {
    var w := Wrap(Defaults);
    assert w[..2][..1] == w[..1] && w[..2] == w[..3][..2] && w[..3] == w;
    assert NormalizeAll(w[..1]) == DefaultAccounts[..1];
    assert NormalizeAll(w[..2]) == DefaultAccounts[..2];
  }

  /** Appending an account whose key is new keeps a deduplicated prefix deduplicated. */
  lemma DedupeFreshLast(s: seq<Account>)
    requires |s| > 0
    requires Dedupe(s[..|s| - 1]) == s[..|s| - 1]
    requires forall a :: a in s[..|s| - 1] ==> Key(a) != Key(s[|s| - 1])
    ensures Dedupe(s) == s
  {
    assert s[..|s| - 1] + [s[|s| - 1]] == s;
  }

  lemma DefaultsDeduped()
    ensures Dedupe(DefaultAccounts) == DefaultAccounts
  {
    var d := DefaultAccounts;
    assert d[..1][..0] == [];
    DedupeFreshLast(d[..1]);
    assert d[..2][..1] == d[..1];
    DedupeFreshLast(d[..2]);
    assert d[..3][..2] == d[..2] && d[..3] == d;
    DedupeFreshLast(d[..3]);
  }

  lemma DefaultsSorted()
    ensures SortAccounts(DefaultAccounts) == [DefaultAccounts[0], DefaultAccounts[2], DefaultAccounts[1]]
  {
    var d := DefaultAccounts;
    assert Weight(d[0].kind) == 0 && Weight(d[1].kind) == 2 && Weight(d[2].kind) == 1;
    assert d[1..][1..] == [d[2]];
    assert Insert(d[1], [d[2]]) == [d[2], d[1]];
    assert SortAccounts(d[1..]) == [d[2], d[1]];
  }

  /** With nothing stored the accounts offered are the three defaults: cash first, the wallet second, the bank last. */
  lemma NothingStoredGivesDefaults()
    ensures SortAccounts(Dedupe(NormalizeAll(Wrap(Defaults)))) == [DefaultAccounts[0], DefaultAccounts[2], DefaultAccounts[1]]
  {
    DefaultsNormalized();
    DefaultsDeduped();
    DefaultsSorted();
  }
}
