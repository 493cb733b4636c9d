/**
 * Keeping account balances in step with transactions (services/transaction-sync.js): the
 * create, delete and update handlers adjust the balances of the accounts array in place and
 * abort with an error on a missing account, a missing or unknown transfer target, an
 * insufficient balance or an unknown type; the validator recomputes every balance from the
 * transactions (starting at 0) and the fixer writes the recomputed balance back.
 */
module TransactionSync {
  import opened Wrappers
  import opened Js
  import opened Lists

  /** Balances and amounts are integer cents. */
  datatype Account = Account(id: string, name: string, balance: int)

  datatype TxKind = Expense | Income | Transfer | OtherKind(name: string)

  /** A transaction; the transfer target may be absent (undefined) or empty. */
  datatype Tx = Tx(kind: TxKind, amount: int, accountId: string, targetAccountId: Option<string>)

  /** The errors the handlers throw. */
  datatype SyncError = NoAccount | Insufficient | NoTarget | TargetMissing | TargetInsufficient | UnknownType

  /** `accounts.findIndex(a => a.id === id)`. */
  function IndexOf(s: seq<Account>, id: string): (r: Option<nat>)
    ensures r.Some? ==> r.value < |s| && s[r.value].id == id && forall j :: 0 <= j < r.value ==> s[j].id != id
    ensures r.None? ==> forall j :: 0 <= j < |s| ==> s[j].id != id
  {
    FindFirst(s, (a: Account) => a.id == id)
  }

  /** The accounts with `delta` added to the balance at position `i`. */
  function Adjust(s: seq<Account>, i: nat, delta: int): (r: seq<Account>)
    requires i < |s|
    ensures |r| == |s|
  {
    s[i := s[i].(balance := s[i].balance + delta)]
  }

  /** The accounts after a handler and the error it threw, if any (a throw can follow a partial update). */
  datatype Outcome = Outcome(accounts: seq<Account>, error: Option<SyncError>)

  /** `handleCreateTransaction`. */
  function Create(s: seq<Account>, tx: Tx): Outcome
  {
    match IndexOf(s, tx.accountId)
    case None => Outcome(s, Some(NoAccount))
    case Some(i) =>
      match tx.kind
      case Expense =>
        if s[i].balance < tx.amount then Outcome(s, Some(Insufficient)) else Outcome(Adjust(s, i, -tx.amount), None)
      case Income => Outcome(Adjust(s, i, tx.amount), None)
      case Transfer =>
        if !Present(tx.targetAccountId) then Outcome(s, Some(NoTarget))
        else
          (match IndexOf(s, tx.targetAccountId.value)
           case None => Outcome(s, Some(TargetMissing))
           case Some(j) =>
             if s[i].balance < tx.amount then Outcome(s, Some(Insufficient))
             else Outcome(Adjust(Adjust(s, i, -tx.amount), j, tx.amount), None))
      case OtherKind(_) => Outcome(s, Some(UnknownType))
  }

  /** `handleDeleteTransaction`: the reverse adjustment; a transfer credits the source before checking the target. */
  function Delete(s: seq<Account>, tx: Tx): Outcome
  {
    match IndexOf(s, tx.accountId)
    case None => Outcome(s, Some(NoAccount))
    case Some(i) =>
      match tx.kind
      case Expense => Outcome(Adjust(s, i, tx.amount), None)
      case Income =>
        if s[i].balance < tx.amount then Outcome(s, Some(Insufficient)) else Outcome(Adjust(s, i, -tx.amount), None)
      case Transfer =>
        if !Present(tx.targetAccountId) then Outcome(s, Some(NoTarget))
        else
          (match IndexOf(s, tx.targetAccountId.value)
           case None => Outcome(s, Some(TargetMissing))
           case Some(j) =>
             var credited := Adjust(s, i, tx.amount);
             if credited[j].balance < tx.amount then Outcome(credited, Some(TargetInsufficient))
             else Outcome(Adjust(credited, j, -tx.amount), None))
      case OtherKind(_) => Outcome(s, Some(UnknownType))
  }

  /** `handleUpdateTransaction`: delete the old transaction, then create the new one. */
  function Update(s: seq<Account>, tx: Tx, oldTx: Tx): Outcome
  {
    var undone := Delete(s, oldTx);
    if undone.error.Some? then undone else Create(undone.accounts, tx)
  }

  function Sum(s: seq<Account>): int
  {
    if |s| == 0 then 0 else Sum(s[..|s| - 1]) + s[|s| - 1].balance
  }

  lemma {:induction false} SumAdjust(s: seq<Account>, i: nat, delta: int)
    requires i < |s|
    ensures Sum(Adjust(s, i, delta)) == Sum(s) + delta
  {
    var n := |s| - 1;
    var r := Adjust(s, i, delta);
    assert r[..n] == if i < n then Adjust(s[..n], i, delta) else s[..n];
    if i < n {
      SumAdjust(s[..n], i, delta);
    }
  }

  /** Only the source account of an expense or income changes, by the amount; an expense needs the balance. */
  lemma CreateExpenseIncomeSpec(s: seq<Account>, tx: Tx)
    requires tx.kind == Expense || tx.kind == Income
    ensures var o := Create(s, tx);
      match IndexOf(s, tx.accountId)
      case None => o == Outcome(s, Some(NoAccount))
      case Some(i) =>
        if tx.kind == Expense && s[i].balance < tx.amount then o == Outcome(s, Some(Insufficient))
        else
          o.error.None? && |o.accounts| == |s|
          && o.accounts[i].balance == s[i].balance + (if tx.kind == Expense then -tx.amount else tx.amount)
          && (forall k :: 0 <= k < |s| && k != i ==> o.accounts[k] == s[k])
  {
  }

  /** A transfer needs a non-empty target id, an existing target and a sufficient source balance. */
  lemma TransferErrors(s: seq<Account>, tx: Tx)
    requires tx.kind == Transfer && IndexOf(s, tx.accountId).Some?
    ensures var o := Create(s, tx);
      var i := IndexOf(s, tx.accountId).value;
      (!Present(tx.targetAccountId) ==> o == Outcome(s, Some(NoTarget)))
      && (Present(tx.targetAccountId) && IndexOf(s, tx.targetAccountId.value).None? ==> o == Outcome(s, Some(TargetMissing)))
      && (Present(tx.targetAccountId) && IndexOf(s, tx.targetAccountId.value).Some? && s[i].balance < tx.amount
          ==> o == Outcome(s, Some(Insufficient)))
      && (o.error.None? <==> Present(tx.targetAccountId) && IndexOf(s, tx.targetAccountId.value).Some? && s[i].balance >= tx.amount)
  {
  }

  /** A successful transfer moves money between accounts: the total of all balances is unchanged. */
  lemma TransferKeepsTotal(s: seq<Account>, tx: Tx)
    requires tx.kind == Transfer && Create(s, tx).error.None?
    ensures Sum(Create(s, tx).accounts) == Sum(s)
  {
    var i := IndexOf(s, tx.accountId).value;
    var j := IndexOf(s, tx.targetAccountId.value).value;
    SumAdjust(s, i, -tx.amount);
    SumAdjust(Adjust(s, i, -tx.amount), j, tx.amount);
  }

  /** An unknown type or a missing source account aborts without touching any balance. */
  lemma CreateRejects(s: seq<Account>, tx: Tx)
    requires tx.kind.OtherKind? || IndexOf(s, tx.accountId).None?
    ensures Create(s, tx).error.Some? && Create(s, tx).accounts == s
    ensures Delete(s, tx).error.Some? && Delete(s, tx).accounts == s
  {
  }

  /**
   * Deleting an expense right after creating it restores every balance; so does deleting an
   * income, provided the account did not start below zero (deleting an income checks the balance).
   */
  lemma CreateThenDeleteRestores(s: seq<Account>, tx: Tx)
    requires tx.kind == Expense || tx.kind == Income
    requires Create(s, tx).error.None?
    requires tx.kind == Income ==> s[IndexOf(s, tx.accountId).value].balance >= 0
    ensures Delete(Create(s, tx).accounts, tx) == Outcome(s, None)
  {
    var i := IndexOf(s, tx.accountId).value;
    var c := Create(s, tx).accounts;
    assert IndexOf(c, tx.accountId) == Some(i) by {
      assert forall j :: 0 <= j < |c| ==> c[j].id == s[j].id;
    }
    if tx.kind == Expense {
      assert Delete(c, tx).accounts == Adjust(c, i, tx.amount);
    } else {
      assert Delete(c, tx).accounts == Adjust(c, i, -tx.amount);
    }
  }

  // ---------------------------------------------------------------- the in-place handlers

  /** `findIndex` over the array: the first position holding the id, -1 when there is none. */
  method FindIndex(a: array<Account>, id: string) returns (r: int)
    ensures r == -1 <==> IndexOf(a[..], id).None?
    ensures r != -1 ==> IndexOf(a[..], id) == Some(r)
  {
    var i := 0;
    while i < a.Length
      invariant 0 <= i <= a.Length
      invariant forall j :: 0 <= j < i ==> a[j].id != id
    {
      if a[i].id == id {
        return i;
      }
      i := i + 1;
    }
    return -1;
  }

  method AdjustAt(a: array<Account>, i: nat, delta: int)
    requires i < a.Length
    modifies a
    ensures a[..] == Adjust(old(a[..]), i, delta)
  {
    a[i] := a[i].(balance := a[i].balance + delta);
  }

  /** `handleCreateTransaction` on the accounts array. */
  method HandleCreate(a: array<Account>, tx: Tx) returns (error: Option<SyncError>)
    modifies a
    ensures Outcome(a[..], error) == Create(old(a[..]), tx)
  {
    var i := FindIndex(a, tx.accountId);
    if i == -1 {
      return Some(NoAccount);
    }
    match tx.kind
    case Expense =>
      if a[i].balance < tx.amount {
        return Some(Insufficient);
      }
      AdjustAt(a, i, -tx.amount);
      return None;
    case Income =>
      AdjustAt(a, i, tx.amount);
      return None;
    case Transfer =>
      if !Present(tx.targetAccountId) {
        return Some(NoTarget);
      }
      var j := FindIndex(a, tx.targetAccountId.value);
      if j == -1 {
        return Some(TargetMissing);
      }
      if a[i].balance < tx.amount {
        return Some(Insufficient);
      }
      AdjustAt(a, i, -tx.amount);
      AdjustAt(a, j, tx.amount);
      return None;
    case OtherKind(_) =>
      return Some(UnknownType);
  }

  /** `handleDeleteTransaction` on the accounts array. */
  method HandleDelete(a: array<Account>, tx: Tx) returns (error: Option<SyncError>)
    modifies a
    ensures Outcome(a[..], error) == Delete(old(a[..]), tx)
  {
    var i := FindIndex(a, tx.accountId);
    if i == -1 {
      return Some(NoAccount);
    }
    match tx.kind
    case Expense =>
      AdjustAt(a, i, tx.amount);
      return None;
    case Income =>
      if a[i].balance < tx.amount {
        return Some(Insufficient);
      }
      AdjustAt(a, i, -tx.amount);
      return None;
    case Transfer =>
      if !Present(tx.targetAccountId) {
        return Some(NoTarget);
      }
      var j := FindIndex(a, tx.targetAccountId.value);
      if j == -1 {
        return Some(TargetMissing);
      }
      AdjustAt(a, i, tx.amount);
      if a[j].balance < tx.amount {
        return Some(TargetInsufficient);
      }
      AdjustAt(a, j, -tx.amount);
      return None;
    case OtherKind(_) =>
      return Some(UnknownType);
  }

  /** `handleUpdateTransaction` on the accounts array. */
  method HandleUpdate(a: array<Account>, tx: Tx, oldTx: Tx) returns (error: Option<SyncError>)
    modifies a
    ensures Outcome(a[..], error) == Update(old(a[..]), tx, oldTx)
  {
    error := HandleDelete(a, oldTx);
    if error.Some? {
      return;
    }
    error := HandleCreate(a, tx);
  }

  // ---------------------------------------------------------------- validation and repair

  /** What one transaction adds to the theoretical balance of the account with id `id`. */
  function Effect(tx: Tx, id: string): int
  {
    match tx.kind
    case Expense => if tx.accountId == id then -tx.amount else 0
    case Income => if tx.accountId == id then tx.amount else 0
    case Transfer =>
      (if tx.accountId == id then -tx.amount else 0) + (if Show(tx.targetAccountId) == id then tx.amount else 0)
    case OtherKind(_) => 0
  }

  /** The balance the transactions imply for an account, starting from 0. */
  function Theoretical(id: string, txs: seq<Tx>): int
  {
    if |txs| == 0 then 0 else Theoretical(id, txs[..|txs| - 1]) + Effect(txs[|txs| - 1], id)
  }

  /** More than one cent apart. */
  predicate Inconsistent(a: Account, txs: seq<Tx>)
  {
    var d := a.balance - Theoretical(a.id, txs);
    d > 1 || d < -1
  }

  datatype Mismatch = Mismatch(id: string, name: string, actualBalance: int, theoreticalBalance: int, difference: int)

  function MismatchOf(a: Account, txs: seq<Tx>): Mismatch
  {
    var t := Theoretical(a.id, txs);
    Mismatch(a.id, a.name, a.balance, t, a.balance - t)
  }

  /** The inconsistent accounts, in order. */
  function Mismatches(s: seq<Account>, txs: seq<Tx>): seq<Mismatch>
  {
    if |s| == 0 then []
    else
      var rest := Mismatches(s[..|s| - 1], txs);
      if Inconsistent(s[|s| - 1], txs) then rest + [MismatchOf(s[|s| - 1], txs)] else rest
  }

  /** No mismatch is reported exactly when every account is within a cent of its theoretical balance. */
  lemma {:induction false} MismatchesEmptyIff(s: seq<Account>, txs: seq<Tx>)
    ensures Mismatches(s, txs) == [] <==> forall k :: 0 <= k < |s| ==> !Inconsistent(s[k], txs)
  {
    if |s| > 0 {
      var n := |s| - 1;
      MismatchesEmptyIff(s[..n], txs);
      assert forall k :: 0 <= k < n ==> s[..n][k] == s[k];
    }
  }

  /** Every reported mismatch is an inconsistent account of the list, with its theoretical balance. */
  lemma {:induction false} MismatchesSound(s: seq<Account>, txs: seq<Tx>, m: Mismatch)
    requires m in Mismatches(s, txs)
    ensures exists k :: 0 <= k < |s| && Inconsistent(s[k], txs) && m == MismatchOf(s[k], txs)
  {
    var n := |s| - 1;
    if m in Mismatches(s[..n], txs) {
      MismatchesSound(s[..n], txs, m);
      var k :| 0 <= k < n && Inconsistent(s[..n][k], txs) && m == MismatchOf(s[..n][k], txs);
      assert s[..n][k] == s[k];
    }
  }

  /** The running table `theoreticalBalances`: every account id starts at 0. */
  method InitBalances(accounts: seq<Account>) returns (tb: map<string, int>)
    ensures forall id :: id in tb <==> exists k :: 0 <= k < |accounts| && accounts[k].id == id
    ensures forall id :: id in tb ==> tb[id] == 0
  {
    tb := map[];
    var i := 0;
    while i < |accounts|
      invariant 0 <= i <= |accounts|
      invariant forall id :: id in tb <==> exists k :: 0 <= k < i && accounts[k].id == id
      invariant forall id :: id in tb ==> tb[id] == 0
    {
      tb := tb[accounts[i].id := 0];
      i := i + 1;
    }
  }

  /**
   * The transactions applied to the table in order. An id outside the table would turn into
   * NaN in the source; no account reads such an entry, so it is not recorded here.
   */
  method ApplyTransactions(tb0: map<string, int>, txs: seq<Tx>) returns (tb: map<string, int>)
    requires forall id :: id in tb0 ==> tb0[id] == 0
    ensures tb.Keys == tb0.Keys
    ensures forall id :: id in tb ==> tb[id] == Theoretical(id, txs)
  {
    tb := tb0;
    var k := 0;
    while k < |txs|
      invariant 0 <= k <= |txs|
      invariant tb.Keys == tb0.Keys
      invariant forall id :: id in tb ==> tb[id] == Theoretical(id, txs[..k])
    {
      assert txs[..k + 1][..k] == txs[..k];
      var tx := txs[k];
      match tx.kind {
        case Expense =>
          if tx.accountId in tb {
            tb := tb[tx.accountId := tb[tx.accountId] - tx.amount];
          }
        case Income =>
          if tx.accountId in tb {
            tb := tb[tx.accountId := tb[tx.accountId] + tx.amount];
          }
        case Transfer =>
          if tx.accountId in tb {
            tb := tb[tx.accountId := tb[tx.accountId] - tx.amount];
          }
          var target := Show(tx.targetAccountId);
          if target in tb {
            tb := tb[target := tb[target] + tx.amount];
          }
        case OtherKind(_) =>
      }
      k := k + 1;
    }
    assert txs[..|txs|] == txs;
  }

  method CollectMismatches(accounts: seq<Account>, txs: seq<Tx>, tb: map<string, int>) returns (found: seq<Mismatch>)
    requires forall k :: 0 <= k < |accounts| ==> accounts[k].id in tb && tb[accounts[k].id] == Theoretical(accounts[k].id, txs)
    ensures found == Mismatches(accounts, txs)
  {
    found := [];
    var i := 0;
    while i < |accounts|
      invariant 0 <= i <= |accounts|
      invariant found == Mismatches(accounts[..i], txs)
    {
      assert accounts[..i + 1][..i] == accounts[..i];
      var a := accounts[i];
      var t := tb[a.id];
      if a.balance - t > 1 || a.balance - t < -1 {
        found := found + [Mismatch(a.id, a.name, a.balance, t, a.balance - t)];
      }
      i := i + 1;
    }
    assert accounts[..|accounts|] == accounts;
  }

  /** `validateAccountBalance` over the stored accounts and transactions. */
  method ValidateAccountBalance(accounts: seq<Account>, txs: seq<Tx>) returns (isConsistent: bool, found: seq<Mismatch>)
    ensures found == Mismatches(accounts, txs)
    ensures isConsistent <==> found == []
    ensures isConsistent <==> forall k :: 0 <= k < |accounts| ==> !Inconsistent(accounts[k], txs)
  {
    var tb := InitBalances(accounts);
    tb := ApplyTransactions(tb, txs);
    found := CollectMismatches(accounts, txs, tb);
    isConsistent := |found| == 0;
    MismatchesEmptyIff(accounts, txs);
  }

  /** The balances after the repair loop: each mismatch sets the first account with its id to its theoretical balance. */
  function ApplyFixes(s: seq<Account>, ms: seq<Mismatch>): (r: seq<Account>)
    ensures |r| == |s|
  {
    if |ms| == 0 then s
    else
      var prev := ApplyFixes(s, ms[..|ms| - 1]);
      var m := ms[|ms| - 1];
      match IndexOf(prev, m.id)
      case None => prev
      case Some(i) => prev[i := prev[i].(balance := m.theoreticalBalance)]
  }

  lemma {:induction false} ApplyFixesKeepsIds(s: seq<Account>, ms: seq<Mismatch>)
    ensures forall k :: 0 <= k < |s| ==> ApplyFixes(s, ms)[k].id == s[k].id && ApplyFixes(s, ms)[k].name == s[k].name
  {
    if |ms| > 0 {
      ApplyFixesKeepsIds(s, ms[..|ms| - 1]);
    }
  }

  /** Two account lists with the same ids position by position find every id at the same place. */
  lemma IndexOfSameIds(a: seq<Account>, b: seq<Account>, id: string)
    requires |a| == |b| && forall k :: 0 <= k < |a| ==> a[k].id == b[k].id
    ensures IndexOf(a, id) == IndexOf(b, id)
  {
    var x, y := IndexOf(a, id), IndexOf(b, id);
    if x.Some? && y.Some? {
      assert !(x.value < y.value) && !(y.value < x.value);
    }
  }

  /**
   * When every mismatch carries the theoretical balance of its id, the repair sets an account
   * to its theoretical balance exactly when some mismatch names its id and it is the first
   * account with that id; every other account keeps its balance.
   */
  lemma {:induction false} ApplyFixesAt(s: seq<Account>, ms: seq<Mismatch>, txs: seq<Tx>, k: nat)
    requires forall m :: m in ms ==> m.theoreticalBalance == Theoretical(m.id, txs)
    requires k < |s|
    ensures ApplyFixes(s, ms)[k].balance ==
      if Names(ms, s[k].id) && IndexOf(s, s[k].id) == Some(k) then Theoretical(s[k].id, txs) else s[k].balance
  {
    if |ms| > 0 {
      var n := |ms| - 1;
      var prev := ApplyFixes(s, ms[..n]);
      var m := ms[n];
      ApplyFixesAt(s, ms[..n], txs, k);
      ApplyFixesKeepsIds(s, ms[..n]);
      IndexOfSameIds(prev, s, m.id);
      NamesStep(ms, s[k].id);
      if IndexOf(s, m.id) != Some(k) {
        assert ApplyFixes(s, ms)[k] == prev[k];
      }
    }
  }

  /** Some mismatch names the id. */
  predicate Names(ms: seq<Mismatch>, id: string)
  {
    exists m :: m in ms && m.id == id
  }

  lemma NamesStep(ms: seq<Mismatch>, id: string)
    requires |ms| > 0
    ensures Names(ms, id) <==> Names(ms[..|ms| - 1], id) || ms[|ms| - 1].id == id
  {
    var n := |ms| - 1;
    assert ms == ms[..n] + [ms[n]];
  }

  /** Every inconsistent account is reported. */
  lemma {:induction false} MismatchesComplete(s: seq<Account>, txs: seq<Tx>, k: nat)
    requires k < |s| && Inconsistent(s[k], txs)
    ensures MismatchOf(s[k], txs) in Mismatches(s, txs)
  {
    var n := |s| - 1;
    if k < n {
      assert s[..n][k] == s[k];
      MismatchesComplete(s[..n], txs, k);
    }
  }

  predicate DistinctIds(s: seq<Account>)
  {
    forall a, b :: 0 <= a < b < |s| ==> s[a].id != s[b].id
  }

  /** With pairwise different ids, repairing every reported mismatch leaves no mismatch. */
  lemma FixRestoresConsistency(s: seq<Account>, txs: seq<Tx>)
    requires DistinctIds(s)
    ensures Mismatches(ApplyFixes(s, Mismatches(s, txs)), txs) == []
  {
    var ms := Mismatches(s, txs);
    var fixed := ApplyFixes(s, ms);
    forall m | m in ms
      ensures m.theoreticalBalance == Theoretical(m.id, txs)
    {
      MismatchesSound(s, txs, m);
    }
    ApplyFixesKeepsIds(s, ms);
    forall k | 0 <= k < |fixed|
      ensures !Inconsistent(fixed[k], txs)
    {
      ApplyFixesAt(s, ms, txs, k);
      assert IndexOf(s, s[k].id) == Some(k);
      if Inconsistent(s[k], txs) {
        MismatchesComplete(s, txs, k);
        assert Names(ms, s[k].id);
      }
    }
    MismatchesEmptyIff(fixed, txs);
  }

  /** The repair loop of `fixAccountBalance`: every reported mismatch sets the first account with its id to the theoretical balance. */
  method FixBalances(a: array<Account>, txs: seq<Tx>) returns (fixedAccounts: seq<Mismatch>)
    modifies a
    ensures fixedAccounts == Mismatches(old(a[..]), txs)
    ensures a[..] == ApplyFixes(old(a[..]), fixedAccounts)
  {
    var isConsistent;
    isConsistent, fixedAccounts := ValidateAccountBalance(a[..], txs);
    if isConsistent {
      return;
    }
    ghost var s := a[..];
    var i := 0;
    while i < |fixedAccounts|
      invariant 0 <= i <= |fixedAccounts|
      invariant a[..] == ApplyFixes(s, fixedAccounts[..i])
    {
      assert fixedAccounts[..i + 1][..i] == fixedAccounts[..i];
      var m := fixedAccounts[i];
      var j := FindIndex(a, m.id);
      if j != -1 {
        a[j] := a[j].(balance := m.theoreticalBalance);
      }
      i := i + 1;
    }
    assert fixedAccounts[..|fixedAccounts|] == fixedAccounts;
  }

  // ---------------------------------------------------------------- the stored state

  datatype Action = CreateAction | UpdateAction | DeleteAction | OtherAction

  /** The stored accounts and the `accountChanged` stamp. */
  class AccountStorage {
    var accounts: seq<Account>
    var accountChanged: int

    constructor (accounts: seq<Account>)
      ensures this.accounts == accounts && accountChanged == 0
    {
      this.accounts := accounts;
      accountChanged := 0;
    }

    /**
     * `syncTransactionWithAccount`: runs the handler on a copy of the stored accounts; a thrown
     * error leaves storage as it was, otherwise the copy is saved and stamped with `now`
     * (an unknown action saves the accounts unchanged).
     */
    method SyncTransactionWithAccount(tx: Tx, action: Action, oldTx: Tx, now: int) returns (r: Result<bool, SyncError>)
      modifies this
      ensures var o := match action
          case CreateAction => Create(old(accounts), tx)
          case UpdateAction => Update(old(accounts), tx, oldTx)
          case DeleteAction => Delete(old(accounts), tx)
          case OtherAction => Outcome(old(accounts), None);
        if o.error.Some? then r == Err(o.error.value) && accounts == old(accounts) && accountChanged == old(accountChanged)
        else r == Ok(true) && accounts == o.accounts && accountChanged == now
    {
      var a := new Account[|accounts|](i requires 0 <= i < |accounts| reads this => accounts[i]);
      assert a[..] == accounts;
      var error: Option<SyncError> := None;
      match action {
        case CreateAction => error := HandleCreate(a, tx);
        case UpdateAction => error := HandleUpdate(a, tx, oldTx);
        case DeleteAction => error := HandleDelete(a, tx);
        case OtherAction =>
      }
      if error.Some? {
        return Err(error.value);
      }
      accounts := a[..];
      accountChanged := now;
      return Ok(true);
    }

    /** `fixAccountBalance` on the stored accounts; a consistent store is left as it is. */
    method FixAccountBalance(txs: seq<Tx>, now: int) returns (fixedAccounts: seq<Mismatch>)
      modifies this
      ensures fixedAccounts == Mismatches(old(accounts), txs)
      ensures accounts == ApplyFixes(old(accounts), fixedAccounts)
      ensures accountChanged == if fixedAccounts == [] then old(accountChanged) else now
      ensures DistinctIds(old(accounts)) ==> Mismatches(accounts, txs) == []
    {
      var a := new Account[|accounts|](i requires 0 <= i < |accounts| reads this => accounts[i]);
      assert a[..] == accounts;
      fixedAccounts := FixBalances(a, txs);
      if DistinctIds(old(accounts)) {
        FixRestoresConsistency(old(accounts), txs);
      }
      if fixedAccounts != [] {
        accounts := a[..];
        accountChanged := now;
      }
    }
  }
}
