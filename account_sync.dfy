/**
 * The account balance service (services/account-sync.js). Every balance change goes through
 * `updateAccountBalance`, which reads the stored accounts, finds the account by `id` or `_id`,
 * refuses to take the balance below zero, appends one entry to the balance log and writes
 * everything back. The transaction handlers are sequences of such calls, so a handler that
 * fails halfway leaves the earlier calls stored. The validator recomputes each balance from the
 * account's initial balance and the transactions; the repair writes those balances back.
 */
module AccountSync {
  import opened Wrappers
  import opened Js
  import opened Lists

  /** `id` and `_id` may be absent; amounts are integer cents. */
  datatype Account = Account(id: Option<string>, dbId: Option<string>, name: string, balance: int, initialBalance: int)

  datatype LogEntry = LogEntry(
    accountId: Option<string>, amount: int, transactionType: string,
    transactionId: Option<string>, balanceAfter: int, timestamp: string)

  datatype TxKind = Expense | Income | Transfer | OtherKind(name: string)

  datatype Tx = Tx(kind: TxKind, amount: int, accountId: Option<string>, targetAccountId: Option<string>, id: Option<string>)

  datatype Action = CreateAction | UpdateAction | DeleteAction | OtherAction(name: string)

  datatype SyncError = NoAccount(accountId: Option<string>) | Insufficient | NoTarget | UnknownType | UnknownAction

  /** The three storage keys the service writes. */
  datatype Store = Store(accounts: seq<Account>, balanceLogs: seq<LogEntry>, accountChanged: int)

  /** The store after a call and the error it threw; calls that finished before the throw stay stored. */
  datatype Outcome = Outcome(store: Store, error: Option<SyncError>)

  /** `a.id === accountId || a._id === accountId` (an absent id equals an absent argument). */
  predicate Matches(a: Account, accountId: Option<string>)
  {
    a.id == accountId || a.dbId == accountId
  }

  function IndexOf(s: seq<Account>, accountId: Option<string>): (r: Option<nat>)
    ensures r.Some? ==> r.value < |s| && Matches(s[r.value], accountId)
    ensures r.Some? ==> forall j :: 0 <= j < r.value ==> !Matches(s[j], accountId)
    ensures r.None? ==> forall j :: 0 <= j < |s| ==> !Matches(s[j], accountId)
  {
    FindFirst(s, (a: Account) => Matches(a, accountId))
  }

  /** `updateAccountBalance` on a store, with the clock readings as parameters. */
  function UpdateBalance(st: Store, accountId: Option<string>, amount: int, transactionType: string,
                         transactionId: Option<string>, now: int, stamp: string): Outcome
  {
    match IndexOf(st.accounts, accountId)
    case None => Outcome(st, Some(NoAccount(accountId)))
    case Some(i) =>
      if amount < 0 && st.accounts[i].balance < -amount then Outcome(st, Some(Insufficient))
      else
        var after := st.accounts[i].balance + amount;
        Outcome(
          Store(st.accounts[i := st.accounts[i].(balance := after)],
                st.balanceLogs + [LogEntry(accountId, amount, transactionType, transactionId, after, stamp)],
                now),
          None)
  }

  /**
   * A balance update fails when no account matches or when a decrease exceeds the balance, and
   * then changes nothing; otherwise exactly the matching account changes, to old + amount, and
   * exactly one log entry is appended whose `balanceAfter` is the new balance.
   */
  lemma UpdateBalanceSpec(st: Store, accountId: Option<string>, amount: int, transactionType: string,
                          transactionId: Option<string>, now: int, stamp: string)
    ensures var o := UpdateBalance(st, accountId, amount, transactionType, transactionId, now, stamp);
      match IndexOf(st.accounts, accountId)
      case None => o == Outcome(st, Some(NoAccount(accountId)))
      case Some(i) =>
        if amount < 0 && st.accounts[i].balance < -amount then o == Outcome(st, Some(Insufficient))
        else
          o.error.None? && |o.store.accounts| == |st.accounts|
          && o.store.accounts[i].balance == st.accounts[i].balance + amount
          && o.store.accounts[i].id == st.accounts[i].id && o.store.accounts[i].dbId == st.accounts[i].dbId
          && (forall k :: 0 <= k < |st.accounts| && k != i ==> o.store.accounts[k] == st.accounts[k])
          && |o.store.balanceLogs| == |st.balanceLogs| + 1
          && o.store.balanceLogs[..|st.balanceLogs|] == st.balanceLogs
          && o.store.balanceLogs[|st.balanceLogs|].balanceAfter == o.store.accounts[i].balance
          && o.store.balanceLogs[|st.balanceLogs|].amount == amount
          && o.store.accountChanged == now
  {
  }

  /** `handleCreateTransaction`. */
  function Create(st: Store, tx: Tx, now: int, stamp: string): Outcome
  {
    match tx.kind
    case Expense => UpdateBalance(st, tx.accountId, -tx.amount, "expense", tx.id, now, stamp)
    case Income => UpdateBalance(st, tx.accountId, tx.amount, "income", tx.id, now, stamp)
    case Transfer =>
      if !Present(tx.targetAccountId) then Outcome(st, Some(NoTarget))
      else
        var out := UpdateBalance(st, tx.accountId, -tx.amount, "transfer_out", tx.id, now, stamp);
        if out.error.Some? then out
        else UpdateBalance(out.store, tx.targetAccountId, tx.amount, "transfer_in", tx.id, now, stamp)
    case OtherKind(_) => Outcome(st, Some(UnknownType))
  }

  /** `handleDeleteTransaction`. */
  function Delete(st: Store, tx: Tx, now: int, stamp: string): Outcome
  {
    match tx.kind
    case Expense => UpdateBalance(st, tx.accountId, tx.amount, "expense_delete", tx.id, now, stamp)
    case Income => UpdateBalance(st, tx.accountId, -tx.amount, "income_delete", tx.id, now, stamp)
    case Transfer =>
      if !Present(tx.targetAccountId) then Outcome(st, Some(NoTarget))
      else
        var out := UpdateBalance(st, tx.accountId, tx.amount, "transfer_out_delete", tx.id, now, stamp);
        if out.error.Some? then out
        else UpdateBalance(out.store, tx.targetAccountId, -tx.amount, "transfer_in_delete", tx.id, now, stamp)
    case OtherKind(_) => Outcome(st, Some(UnknownType))
  }

  /** The update short cut: same type, amount and account, and for a transfer the same target. */
  predicate SameEffect(tx: Tx, oldTx: Tx)
  {
    tx.kind == oldTx.kind && tx.amount == oldTx.amount && tx.accountId == oldTx.accountId
    && (tx.kind != Transfer || tx.targetAccountId == oldTx.targetAccountId)
  }

  /** `handleUpdateTransaction`. */
  function Update(st: Store, tx: Tx, oldTx: Tx, now: int, stamp: string): Outcome
  {
    if SameEffect(tx, oldTx) then Outcome(st, None)
    else
      var undone := Delete(st, oldTx, now, stamp);
      if undone.error.Some? then undone else Create(undone.store, tx, now, stamp)
  }

  /** `syncTransactionWithAccount`. */
  function Sync(st: Store, tx: Tx, action: Action, oldTx: Tx, now: int, stamp: string): Outcome
  {
    match action
    case CreateAction => Create(st, tx, now, stamp)
    case UpdateAction => Update(st, tx, oldTx, now, stamp)
    case DeleteAction => Delete(st, tx, now, stamp)
    case OtherAction(_) => Outcome(st, Some(UnknownAction))
  }

  /** An update that changes none of type, amount, account or transfer target touches nothing, not even the log. */
  lemma UpdateSameEffectIsNoop(st: Store, tx: Tx, oldTx: Tx, now: int, stamp: string)
    requires tx.kind == oldTx.kind && tx.amount == oldTx.amount && tx.accountId == oldTx.accountId
    requires tx.kind == Transfer ==> tx.targetAccountId == oldTx.targetAccountId
    ensures Update(st, tx, oldTx, now, stamp) == Outcome(st, None)
  {
  }

  /** A transfer without a target is refused by create and delete alike, before anything is written. */
  lemma TransferNeedsTarget(st: Store, tx: Tx, now: int, stamp: string)
    requires tx.kind == Transfer && !Present(tx.targetAccountId)
    ensures Create(st, tx, now, stamp) == Outcome(st, Some(NoTarget))
    ensures Delete(st, tx, now, stamp) == Outcome(st, Some(NoTarget))
  {
  }

  /**
   * Deleting an income or expense right after creating it restores every account, provided
   * the account did not start below zero; the log keeps both entries.
   */
  lemma CreateThenDeleteRestores(st: Store, tx: Tx, now: int, stamp: string)
    requires tx.kind == Expense || tx.kind == Income
    requires Create(st, tx, now, stamp).error.None?
    requires st.accounts[IndexOf(st.accounts, tx.accountId).value].balance >= 0
    ensures var o := Delete(Create(st, tx, now, stamp).store, tx, now, stamp);
      o.error.None? && o.store.accounts == st.accounts && |o.store.balanceLogs| == |st.balanceLogs| + 2
  {
    var i := IndexOf(st.accounts, tx.accountId).value;
    var c := Create(st, tx, now, stamp).store;
    assert IndexOf(c.accounts, tx.accountId) == Some(i) by {
      assert forall j :: 0 <= j < |c.accounts| ==> Matches(c.accounts[j], tx.accountId) == Matches(st.accounts[j], tx.accountId);
    }
    var o := Delete(c, tx, now, stamp);
    assert o.store.accounts == c.accounts[i := st.accounts[i]];
  }

  // ---------------------------------------------------------------- F3: a half-done transfer

  /**
   * As written, a transfer to an account that does not exist debits and stores the source
   * before the credit throws: one account holding 100 transfers 30 to a missing id, the call
   * fails, and the stored balance is 70.
   */
  lemma TransferToMissingTargetDebitsSource()
    ensures var st := Store([Account(Some("a"), None, "A", 100, 0)], [], 0);
      var o := Create(st, Tx(Transfer, 30, Some("a"), Some("b"), Some("t")), 1, "T");
      o.error == Some(NoAccount(Some("b"))) && o.store.accounts[0].balance == 70 && |o.store.balanceLogs| == 1
  {
    var st := Store([Account(Some("a"), None, "A", 100, 0)], [], 0);
    var tx := Tx(Transfer, 30, Some("a"), Some("b"), Some("t"));
    assert IndexOf(st.accounts, Some("a")) == Some(0);
    var out := UpdateBalance(st, Some("a"), -30, "transfer_out", Some("t"), 1, "T");
    assert out.store.accounts == [Account(Some("a"), None, "A", 70, 0)];
    assert IndexOf(out.store.accounts, Some("b")) == None;
  }

  /** The intended transfer: both accounts are found and the balance checked before either is written. */
  function CreateAtomic(st: Store, tx: Tx, now: int, stamp: string): Outcome
  {
    if tx.kind == Transfer && Present(tx.targetAccountId) then
      match IndexOf(st.accounts, tx.accountId)
      case None => Outcome(st, Some(NoAccount(tx.accountId)))
      case Some(i) =>
        if IndexOf(st.accounts, tx.targetAccountId).None? then Outcome(st, Some(NoAccount(tx.targetAccountId)))
        else if -tx.amount < 0 && st.accounts[i].balance < tx.amount then Outcome(st, Some(Insufficient))
        else Create(st, tx, now, stamp)
    else Create(st, tx, now, stamp)
  }

  /**
   * The corrected create either fails without writing anything or does exactly what the
   * source does; on a transfer it fails exactly when one of the two accounts is missing or the
   * source cannot cover the amount.
   */
  lemma CreateAtomicSpec(st: Store, tx: Tx, now: int, stamp: string)
    requires tx.amount >= 0
    ensures var o := CreateAtomic(st, tx, now, stamp);
      (o.error.Some? ==> o.store == st)
      && (o.error.None? ==> o == Create(st, tx, now, stamp))
      && (Create(st, tx, now, stamp).error.None? ==> o.error.None?)
  {
    if tx.kind == Transfer && Present(tx.targetAccountId) && IndexOf(st.accounts, tx.accountId).Some?
       && IndexOf(st.accounts, tx.targetAccountId).Some? {
      var i := IndexOf(st.accounts, tx.accountId).value;
      if tx.amount == 0 || st.accounts[i].balance >= tx.amount {
        TransferGoesThrough(st, tx, now, stamp);
      }
    }
  }

  /** With both accounts present and the source covering the amount (or the amount zero), the transfer succeeds. */
  lemma TransferGoesThrough(st: Store, tx: Tx, now: int, stamp: string)
    requires tx.kind == Transfer && Present(tx.targetAccountId) && tx.amount >= 0
    requires IndexOf(st.accounts, tx.accountId).Some? && IndexOf(st.accounts, tx.targetAccountId).Some?
    requires tx.amount == 0 || st.accounts[IndexOf(st.accounts, tx.accountId).value].balance >= tx.amount
    ensures Create(st, tx, now, stamp).error.None?
  {
    var out := UpdateBalance(st, tx.accountId, -tx.amount, "transfer_out", tx.id, now, stamp);
    assert out.error.None?;
    var j := IndexOf(st.accounts, tx.targetAccountId).value;
    assert Matches(out.store.accounts[j], tx.targetAccountId);
    assert IndexOf(out.store.accounts, tx.targetAccountId).Some?;
  }

  // ---------------------------------------------------------------- the stored service

  class AccountService {
    var accounts: seq<Account>
    var balanceLogs: seq<LogEntry>
    var accountChanged: int

    constructor (accounts: seq<Account>)
      ensures this.accounts == accounts && balanceLogs == [] && accountChanged == 0
    {
      this.accounts := accounts;
      balanceLogs := [];
      accountChanged := 0;
    }

    function Snapshot(): Store
      reads this
    {
      Store(accounts, balanceLogs, accountChanged)
    }

    /** `updateAccountBalance`; returns the new balance. */
    method UpdateAccountBalance(accountId: Option<string>, amount: int, transactionType: string,
                                transactionId: Option<string>, now: int, stamp: string)
      returns (r: Result<int, SyncError>)
      modifies this
      ensures var o := UpdateBalance(old(Snapshot()), accountId, amount, transactionType, transactionId, now, stamp);
        Snapshot() == o.store
        && (if o.error.Some? then r == Err(o.error.value)
            else r == Ok(o.store.balanceLogs[|o.store.balanceLogs| - 1].balanceAfter))
    {
      var i := FindAccount(accounts, accountId);
      if i == -1 {
        return Err(NoAccount(accountId));
      }
      if amount < 0 && accounts[i].balance < -amount {
        return Err(Insufficient);
      }
      var after := accounts[i].balance + amount;
      balanceLogs := balanceLogs + [LogEntry(accountId, amount, transactionType, transactionId, after, stamp)];
      accounts := accounts[i := accounts[i].(balance := after)];
      accountChanged := now;
      return Ok(after);
    }

    method HandleCreateTransaction(tx: Tx, now: int, stamp: string) returns (error: Option<SyncError>)
      modifies this
      ensures Outcome(Snapshot(), error) == Create(old(Snapshot()), tx, now, stamp)
    {
      var r: Result<int, SyncError>;
      match tx.kind {
        case Expense =>
          r := UpdateAccountBalance(tx.accountId, -tx.amount, "expense", tx.id, now, stamp);
        case Income =>
          r := UpdateAccountBalance(tx.accountId, tx.amount, "income", tx.id, now, stamp);
        case Transfer =>
          if !Present(tx.targetAccountId) {
            return Some(NoTarget);
          }
          r := UpdateAccountBalance(tx.accountId, -tx.amount, "transfer_out", tx.id, now, stamp);
          if r.Ok? {
            r := UpdateAccountBalance(tx.targetAccountId, tx.amount, "transfer_in", tx.id, now, stamp);
          }
        case OtherKind(_) =>
          return Some(UnknownType);
      }
      error := if r.Err? then Some(r.error) else None;
    }

    method HandleDeleteTransaction(tx: Tx, now: int, stamp: string) returns (error: Option<SyncError>)
      modifies this
      ensures Outcome(Snapshot(), error) == Delete(old(Snapshot()), tx, now, stamp)
    {
      var r: Result<int, SyncError>;
      match tx.kind {
        case Expense =>
          r := UpdateAccountBalance(tx.accountId, tx.amount, "expense_delete", tx.id, now, stamp);
        case Income =>
          r := UpdateAccountBalance(tx.accountId, -tx.amount, "income_delete", tx.id, now, stamp);
        case Transfer =>
          if !Present(tx.targetAccountId) {
            return Some(NoTarget);
          }
          r := UpdateAccountBalance(tx.accountId, tx.amount, "transfer_out_delete", tx.id, now, stamp);
          if r.Ok? {
            r := UpdateAccountBalance(tx.targetAccountId, -tx.amount, "transfer_in_delete", tx.id, now, stamp);
          }
        case OtherKind(_) =>
          return Some(UnknownType);
      }
      error := if r.Err? then Some(r.error) else None;
    }

    method HandleUpdateTransaction(tx: Tx, oldTx: Tx, now: int, stamp: string) returns (error: Option<SyncError>)
      modifies this
      ensures Outcome(Snapshot(), error) == Update(old(Snapshot()), tx, oldTx, now, stamp)
    {
      if SameEffect(tx, oldTx) {
        return None;
      }
      error := HandleDeleteTransaction(oldTx, now, stamp);
      if error.Some? {
        return;
      }
      error := HandleCreateTransaction(tx, now, stamp);
    }

    /** `syncTransactionWithAccount`: an unknown action throws. */
    method SyncTransactionWithAccount(tx: Tx, action: Action, oldTx: Tx, now: int, stamp: string)
      returns (r: Result<bool, SyncError>)
      modifies this
      ensures var o := Sync(old(Snapshot()), tx, action, oldTx, now, stamp);
        Snapshot() == o.store && r == if o.error.Some? then Err(o.error.value) else Ok(true)
    {
      var error: Option<SyncError>;
      match action {
        case CreateAction => error := HandleCreateTransaction(tx, now, stamp);
        case UpdateAction => error := HandleUpdateTransaction(tx, oldTx, now, stamp);
        case DeleteAction => error := HandleDeleteTransaction(tx, now, stamp);
        case OtherAction(_) => error := Some(UnknownAction);
      }
      r := if error.Some? then Err(error.value) else Ok(true);
    }

    /** `fixAccountBalance` against the stored transactions `txs`; a consistent store is left as it is. */
    method FixAccountBalance(txs: seq<Tx>, now: int) returns (fixedAccounts: seq<Mismatch>)
      modifies this
      ensures fixedAccounts == Mismatches(old(accounts), Table(old(accounts), txs))
      ensures accounts == ApplyFixes(old(accounts), fixedAccounts, ById)
      ensures balanceLogs == old(balanceLogs)
      ensures accountChanged == if fixedAccounts == [] then old(accountChanged) else now
    {
      var isConsistent;
      isConsistent, fixedAccounts := ValidateAccountBalance(accounts, txs);
      if isConsistent {
        return;
      }
      accounts := FixBalances(accounts, fixedAccounts);
      accountChanged := now;
    }
  }

  /** `accounts.findIndex(a => a.id === accountId || a._id === accountId)`. */
  method FindAccount(s: seq<Account>, accountId: Option<string>) returns (r: int)
    ensures r == -1 <==> IndexOf(s, accountId).None?
    ensures r != -1 ==> IndexOf(s, accountId) == Some(r)
  {
    var i := 0;
    while i < |s|
      invariant 0 <= i <= |s|
      invariant forall j :: 0 <= j < i ==> !Matches(s[j], accountId)
    {
      if Matches(s[i], accountId) {
        return i;
      }
      i := i + 1;
    }
    return -1;
  }

  // ---------------------------------------------------------------- validation and repair

  /** `account.id || account._id`: the key of an account in the balance table. */
  function Key(a: Account): Option<string>
  {
    Or(a.id, a.dbId)
  }

  /** The table starts every key at the initial balance; a later account with the same key wins. */
  function InitTable(s: seq<Account>): (t: map<string, int>)
    ensures forall k :: 0 <= k < |s| ==> Show(Key(s[k])) in t
  {
    if |s| == 0 then map[]
    else InitTable(s[..|s| - 1])[Show(Key(s[|s| - 1])) := s[|s| - 1].initialBalance]
  }

  /** A transaction counts when it names its account, and a transfer also its target. */
  predicate Counts(tx: Tx)
  {
    Present(tx.accountId) && (tx.kind == Transfer ==> Present(tx.targetAccountId))
  }

  /** One transaction applied to the table; keys outside it are skipped. */
  function ApplyTx(t: map<string, int>, tx: Tx): (r: map<string, int>)
    ensures r.Keys == t.Keys
  {
    if !Counts(tx) then t
    else
      var src := tx.accountId.value;
      match tx.kind
      case Expense => if src in t then t[src := t[src] - tx.amount] else t
      case Income => if src in t then t[src := t[src] + tx.amount] else t
      case Transfer =>
        var t1 := if src in t then t[src := t[src] - tx.amount] else t;
        var dst := tx.targetAccountId.value;
        if dst in t1 then t1[dst := t1[dst] + tx.amount] else t1
      case OtherKind(_) => t
  }

  function ApplyAll(t: map<string, int>, txs: seq<Tx>): (r: map<string, int>)
    ensures r.Keys == t.Keys
  {
    if |txs| == 0 then t else ApplyTx(ApplyAll(t, txs[..|txs| - 1]), txs[|txs| - 1])
  }

  /** What a counted transaction adds to the balance of the account with key `key`. */
  function Effect(tx: Tx, key: string): int
  {
    if !Counts(tx) then 0
    else
      match tx.kind
      case Expense => if tx.accountId.value == key then -tx.amount else 0
      case Income => if tx.accountId.value == key then tx.amount else 0
      case Transfer =>
        (if tx.accountId.value == key then -tx.amount else 0) + (if tx.targetAccountId.value == key then tx.amount else 0)
      case OtherKind(_) => 0
  }

  function Net(key: string, txs: seq<Tx>): int
  {
    if |txs| == 0 then 0 else Net(key, txs[..|txs| - 1]) + Effect(txs[|txs| - 1], key)
  }

  /**
   * The theoretical balance of every key is its starting value plus income, minus expense,
   * minus transfers out, plus transfers in.
   */
  lemma {:induction false} ApplyAllIsNet(t: map<string, int>, txs: seq<Tx>, key: string)
    requires key in t
    ensures ApplyAll(t, txs)[key] == t[key] + Net(key, txs)
  {
    if |txs| > 0 {
      ApplyAllIsNet(t, txs[..|txs| - 1], key);
    }
  }

  /** With pairwise different keys, every account's key starts at that account's initial balance. */
  lemma {:induction false} InitTableAt(s: seq<Account>, k: nat)
    requires DistinctKeys(s) && k < |s|
    ensures InitTable(s)[Show(Key(s[k]))] == s[k].initialBalance
  {
    var n := |s| - 1;
    if k < n {
      assert DistinctKeys(s[..n]) by {
        forall a, b | 0 <= a < b < n
          ensures Show(Key(s[..n][a])) != Show(Key(s[..n][b]))
        {
          assert s[..n][a] == s[a] && s[..n][b] == s[b];
        }
      }
      InitTableAt(s[..n], k);
      assert s[..n][k] == s[k];
    }
  }

  /** The table's value for a key, `|| 0` when the key is missing. */
  function TableValue(t: map<string, int>, key: Option<string>): int
  {
    if Show(key) in t then t[Show(key)] else 0
  }

  predicate Inconsistent(a: Account, t: map<string, int>)
  {
    var d := a.balance - TableValue(t, Key(a));
    d > 1 || d < -1
  }

  datatype Mismatch = Mismatch(id: Option<string>, name: string, actualBalance: int, theoreticalBalance: int, difference: int)

  function MismatchOf(a: Account, t: map<string, int>): Mismatch
  {
    var v := TableValue(t, Key(a));
    Mismatch(Key(a), a.name, a.balance, v, a.balance - v)
  }

  function Mismatches(s: seq<Account>, t: map<string, int>): seq<Mismatch>
  {
    if |s| == 0 then []
    else
      var rest := Mismatches(s[..|s| - 1], t);
      if Inconsistent(s[|s| - 1], t) then rest + [MismatchOf(s[|s| - 1], t)] else rest
  }

  /** The table the validator builds: initial balances plus the transactions. */
  function Table(s: seq<Account>, txs: seq<Tx>): map<string, int>
  {
    ApplyAll(InitTable(s), txs)
  }

  /** No mismatch is reported exactly when every account is within a cent of its theoretical balance. */
  lemma {:induction false} MismatchesEmptyIff(s: seq<Account>, t: map<string, int>)
    ensures Mismatches(s, t) == [] <==> forall k :: 0 <= k < |s| ==> !Inconsistent(s[k], t)
  {
    if |s| > 0 {
      var n := |s| - 1;
      MismatchesEmptyIff(s[..n], t);
      assert forall k :: 0 <= k < n ==> s[..n][k] == s[k];
    }
  }

  lemma {:induction false} MismatchesSound(s: seq<Account>, t: map<string, int>, m: Mismatch)
    requires m in Mismatches(s, t)
    ensures exists k :: 0 <= k < |s| && Inconsistent(s[k], t) && m == MismatchOf(s[k], t)
  {
    var n := |s| - 1;
    if m in Mismatches(s[..n], t) {
      MismatchesSound(s[..n], t, m);
      var k :| 0 <= k < n && Inconsistent(s[..n][k], t) && m == MismatchOf(s[..n][k], t);
      assert s[..n][k] == s[k];
    }
  }

  lemma {:induction false} MismatchesComplete(s: seq<Account>, t: map<string, int>, k: nat)
    requires k < |s| && Inconsistent(s[k], t)
    ensures MismatchOf(s[k], t) in Mismatches(s, t)
  {
    var n := |s| - 1;
    if k < n {
      assert s[..n][k] == s[k];
      MismatchesComplete(s[..n], t, k);
    }
  }

  method InitBalances(accounts: seq<Account>) returns (tb: map<string, int>)
    ensures tb == InitTable(accounts)
  {
    tb := map[];
    var i := 0;
    while i < |accounts|
      invariant 0 <= i <= |accounts|
      invariant tb == InitTable(accounts[..i])
    {
      assert accounts[..i + 1][..i] == accounts[..i];
      tb := tb[Show(Key(accounts[i])) := accounts[i].initialBalance];
      i := i + 1;
    }
    assert accounts[..|accounts|] == accounts;
  }

  method ApplyTransactions(tb0: map<string, int>, txs: seq<Tx>) returns (tb: map<string, int>)
    ensures tb == ApplyAll(tb0, txs)
  {
    tb := tb0;
    var k := 0;
    while k < |txs|
      invariant 0 <= k <= |txs|
      invariant tb == ApplyAll(tb0, txs[..k])
    {
      assert txs[..k + 1][..k] == txs[..k];
      var tx := txs[k];
      if !Present(tx.accountId) && tx.kind != Transfer {
        // skipped: no account id
      } else if tx.kind == Transfer && (!Present(tx.accountId) || !Present(tx.targetAccountId)) {
        // skipped: a transfer without source or target
      } else {
        var src := tx.accountId.value;
        match tx.kind {
          case Expense =>
            if src in tb {
              tb := tb[src := tb[src] - tx.amount];
            }
          case Income =>
            if src in tb {
              tb := tb[src := tb[src] + tx.amount];
            }
          case Transfer =>
            if src in tb {
              tb := tb[src := tb[src] - tx.amount];
            }
            var dst := tx.targetAccountId.value;
            if dst in tb {
              tb := tb[dst := tb[dst] + tx.amount];
            }
          case OtherKind(_) =>
        }
      }
      k := k + 1;
    }
    assert txs[..|txs|] == txs;
  }

  method CollectMismatches(accounts: seq<Account>, tb: map<string, int>) returns (found: seq<Mismatch>)
    ensures found == Mismatches(accounts, tb)
  {
    found := [];
    var i := 0;
    while i < |accounts|
      invariant 0 <= i <= |accounts|
      invariant found == Mismatches(accounts[..i], tb)
    {
      assert accounts[..i + 1][..i] == accounts[..i];
      var a := accounts[i];
      var key := Or(a.id, a.dbId);
      var theoretical := if Show(key) in tb then tb[Show(key)] else 0;
      if a.balance - theoretical > 1 || a.balance - theoretical < -1 {
        found := found + [Mismatch(key, a.name, a.balance, theoretical, a.balance - theoretical)];
      }
      i := i + 1;
    }
    assert accounts[..|accounts|] == accounts;
  }

  /** `validateAccountBalance`. */
  method ValidateAccountBalance(accounts: seq<Account>, txs: seq<Tx>) returns (isConsistent: bool, found: seq<Mismatch>)
    ensures found == Mismatches(accounts, Table(accounts, txs))
    ensures isConsistent <==> found == []
    ensures isConsistent <==> forall k :: 0 <= k < |accounts| ==> !Inconsistent(accounts[k], Table(accounts, txs))
  {
    var tb := InitBalances(accounts);
    tb := ApplyTransactions(tb, txs);
    found := CollectMismatches(accounts, tb);
    isConsistent := |found| == 0;
    MismatchesEmptyIff(accounts, Table(accounts, txs));
  }

  predicate DistinctKeys(s: seq<Account>)
  {
    forall a, b :: 0 <= a < b < |s| ==> Show(Key(s[a])) != Show(Key(s[b]))
  }

  /** Which field the repair compares with a mismatch's id: `a.id` as written, or the validator's key. */
  datatype LookupBy = ById | ByKey

  function Field(a: Account, lookup: LookupBy): Option<string>
  {
    match lookup
    case ById => a.id
    case ByKey => Key(a)
  }

  function IndexBy(s: seq<Account>, id: Option<string>, lookup: LookupBy): (r: Option<nat>)
    ensures r.Some? ==> r.value < |s| && Field(s[r.value], lookup) == id
    ensures r.Some? ==> forall j :: 0 <= j < r.value ==> Field(s[j], lookup) != id
    ensures r.None? ==> forall j :: 0 <= j < |s| ==> Field(s[j], lookup) != id
  {
    FindFirst(s, (a: Account) => Field(a, lookup) == id)
  }

  /** The repair loop: each mismatch sets the first account whose field equals its id to its theoretical balance. */
  function ApplyFixes(s: seq<Account>, ms: seq<Mismatch>, lookup: LookupBy): (r: seq<Account>)
    ensures |r| == |s|
  {
    if |ms| == 0 then s
    else
      var prev := ApplyFixes(s, ms[..|ms| - 1], lookup);
      var m := ms[|ms| - 1];
      match IndexBy(prev, m.id, lookup)
      case None => prev
      case Some(i) => prev[i := prev[i].(balance := m.theoreticalBalance)]
  }

  /** The repair changes balances only. */
  lemma {:induction false} ApplyFixesKeeps(s: seq<Account>, ms: seq<Mismatch>, lookup: LookupBy)
    ensures forall k :: 0 <= k < |s| ==> ApplyFixes(s, ms, lookup)[k] == s[k].(balance := ApplyFixes(s, ms, lookup)[k].balance)
  {
    if |ms| > 0 {
      ApplyFixesKeeps(s, ms[..|ms| - 1], lookup);
    }
  }

  /** The table depends on the accounts' keys and initial balances only, so the repair does not move it. */
  lemma {:induction false} InitTableIgnoresBalances(s: seq<Account>, u: seq<Account>)
    requires |s| == |u| && forall k :: 0 <= k < |s| ==> u[k] == s[k].(balance := u[k].balance)
    ensures InitTable(u) == InitTable(s)
  {
    if |s| > 0 {
      var n := |s| - 1;
      InitTableIgnoresBalances(s[..n], u[..n]);
    }
  }

  lemma IndexBySameFields(a: seq<Account>, b: seq<Account>, id: Option<string>, lookup: LookupBy)
    requires |a| == |b| && forall k :: 0 <= k < |a| ==> b[k] == a[k].(balance := b[k].balance)
    ensures IndexBy(a, id, lookup) == IndexBy(b, id, lookup)
  {
    var x, y := IndexBy(a, id, lookup), IndexBy(b, id, lookup);
    assert forall k :: 0 <= k < |a| ==> Field(a[k], lookup) == Field(b[k], lookup);
    if x.Some? && y.Some? {
      assert !(x.value < y.value) && !(y.value < x.value);
    }
  }

  predicate Names(ms: seq<Mismatch>, id: Option<string>)
  {
    exists m :: m in ms && m.id == id
  }

  lemma NamesStep(ms: seq<Mismatch>, id: Option<string>)
    requires |ms| > 0
    ensures Names(ms, id) <==> Names(ms[..|ms| - 1], id) || ms[|ms| - 1].id == id
  {
    var n := |ms| - 1;
    assert ms == ms[..n] + [ms[n]];
  }

  /**
   * When every mismatch carries the table value of its id, an account ends at the table value
   * of its field exactly when a mismatch names that field and it is the first account with it.
   */
  lemma {:induction false} ApplyFixesAt(s: seq<Account>, ms: seq<Mismatch>, t: map<string, int>, lookup: LookupBy, k: nat)
    requires forall m :: m in ms ==> m.theoreticalBalance == TableValue(t, m.id)
    requires k < |s|
    ensures ApplyFixes(s, ms, lookup)[k].balance ==
      if Names(ms, Field(s[k], lookup)) && IndexBy(s, Field(s[k], lookup), lookup) == Some(k)
      then TableValue(t, Field(s[k], lookup)) else s[k].balance
  {
    if |ms| > 0 {
      var n := |ms| - 1;
      var prev := ApplyFixes(s, ms[..n], lookup);
      var m := ms[n];
      ApplyFixesAt(s, ms[..n], t, lookup, k);
      ApplyFixesKeeps(s, ms[..n], lookup);
      IndexBySameFields(s, prev, m.id, lookup);
      NamesStep(ms, Field(s[k], lookup));
      if IndexBy(s, m.id, lookup) != Some(k) {
        assert ApplyFixes(s, ms, lookup)[k] == prev[k];
      }
    }
  }

  /** Every reported mismatch carries the table value of its id. */
  lemma MismatchesCarryTable(s: seq<Account>, t: map<string, int>)
    ensures forall m :: m in Mismatches(s, t) ==> m.theoreticalBalance == TableValue(t, m.id)
  {
    forall m | m in Mismatches(s, t)
      ensures m.theoreticalBalance == TableValue(t, m.id)
    {
      MismatchesSound(s, t, m);
    }
  }

  /**
   * The repair as intended, looking accounts up by the validator's key: with pairwise
   * different keys, repairing every reported mismatch leaves none.
   */
  lemma FixByKeyRestoresConsistency(s: seq<Account>, txs: seq<Tx>)
    requires DistinctKeys(s)
    ensures var fixed := ApplyFixes(s, Mismatches(s, Table(s, txs)), ByKey);
      Mismatches(fixed, Table(fixed, txs)) == []
  {
    var t := Table(s, txs);
    var ms := Mismatches(s, t);
    var fixed := ApplyFixes(s, ms, ByKey);
    MismatchesCarryTable(s, t);
    ApplyFixesKeeps(s, ms, ByKey);
    InitTableIgnoresBalances(s, fixed);
    forall k | 0 <= k < |fixed|
      ensures !Inconsistent(fixed[k], t)
    {
      ApplyFixesAt(s, ms, t, ByKey, k);
      assert IndexBy(s, Key(s[k]), ByKey) == Some(k) by {
        assert forall j :: 0 <= j < k ==> Show(Key(s[j])) != Show(Key(s[k]));
      }
      if Inconsistent(s[k], t) {
        MismatchesComplete(s, t, k);
        assert Names(ms, Key(s[k]));
      }
    }
    MismatchesEmptyIff(fixed, t);
  }

  /**
   * As written, the repair looks accounts up by `a.id` while the validator keys them by
   * `id || _id`: an account stored with only `_id` is reported on every run and never repaired.
   */
  lemma FixByIdMissesDbIdOnlyAccount()
    ensures var s := [Account(None, Some("x"), "A", 500, 0)];
      var t := Table(s, []);
      var ms := Mismatches(s, t);
      ms != [] && ApplyFixes(s, ms, ById) == s
  {
    var s := [Account(None, Some("x"), "A", 500, 0)];
    var t := Table(s, []);
    assert t == map["x" := 0];
    var ms := Mismatches(s, t);
    assert ms == [Mismatch(Some("x"), "A", 500, 0, 500)];
    assert IndexBy(s, Some("x"), ById) == None;
  }

  /** `findIndex` in the repair loop. */
  method FindBy(s: seq<Account>, id: Option<string>, lookup: LookupBy) returns (r: int)
    ensures r == -1 <==> IndexBy(s, id, lookup).None?
    ensures r != -1 ==> IndexBy(s, id, lookup) == Some(r)
  {
    var i := 0;
    while i < |s|
      invariant 0 <= i <= |s|
      invariant forall j :: 0 <= j < i ==> Field(s[j], lookup) != id
    {
      if Field(s[i], lookup) == id {
        return i;
      }
      i := i + 1;
    }
    return -1;
  }

  /** `fixAccountBalance`: the repair loop over the reported mismatches, by `a.id` as written. */
  method FixBalances(accounts: seq<Account>, ms: seq<Mismatch>) returns (fixed: seq<Account>)
    ensures fixed == ApplyFixes(accounts, ms, ById)
  {
    fixed := accounts;
    var i := 0;
    while i < |ms|
      invariant 0 <= i <= |ms|
      invariant fixed == ApplyFixes(accounts, ms[..i], ById)
    {
      assert ms[..i + 1][..i] == ms[..i];
      var j := FindBy(fixed, ms[i].id, ById);
      if j != -1 {
        fixed := fixed[j := fixed[j].(balance := ms[i].theoreticalBalance)];
      }
      i := i + 1;
    }
    assert ms[..|ms|] == ms;
  }
}
