/**
 * The consistency checker (services/data-consistency.js): each account's balance is recomputed
 * from its initial balance and the transactions that name it, the stored asset total is
 * compared with the sum of the balances, and either can be repaired. Amounts are integer cents,
 * so the source's tolerance of 0.01 leaves only exact equality.
 */
module DataConsistency {
  import opened Wrappers

  datatype Account = Account(id: Option<string>, name: string, balance: int, initialBalance: int)

  datatype TxKind = Expense | Income | Transfer | OtherKind(name: string)

  datatype Tx = Tx(kind: TxKind, amount: int, accountId: Option<string>, targetAccountId: Option<string>)

  /** The filter: the account is the source, or the target of a transfer (absent ids equal each other). */
  predicate Names(t: Tx, id: Option<string>)
  {
    t.accountId == id || (t.kind == Transfer && t.targetAccountId == id)
  }

  /** What one transaction of the account adds in the source's loop: a source match wins over a target match. */
  function Contribution(t: Tx, id: Option<string>): int
  {
    if t.accountId == id then
      match t.kind
      case Income => t.amount
      case Expense => -t.amount
      case Transfer => -t.amount
      case OtherKind(_) => 0
    else if t.targetAccountId == id then t.amount
    else 0
  }

  function Filter(txs: seq<Tx>, id: Option<string>): (r: seq<Tx>)
    ensures forall t :: t in r ==> t in txs && Names(t, id)
  {
    if |txs| == 0 then []
    else if Names(txs[|txs| - 1], id) then Filter(txs[..|txs| - 1], id) + [txs[|txs| - 1]]
    else Filter(txs[..|txs| - 1], id)
  }

  function SumContributions(txs: seq<Tx>, id: Option<string>): int
  {
    if |txs| == 0 then 0 else SumContributions(txs[..|txs| - 1], id) + Contribution(txs[|txs| - 1], id)
  }

  /** `calculatedBalance` as the source computes it. */
  function Calculated(a: Account, txs: seq<Tx>): int
  {
    a.initialBalance + SumContributions(Filter(txs, a.id), a.id)
  }

  // -- the balance as documented: initial + income - expense - transfers out + transfers in

  function IncomeOf(txs: seq<Tx>, id: Option<string>): int
  {
    if |txs| == 0 then 0
    else
      var t := txs[|txs| - 1];
      IncomeOf(txs[..|txs| - 1], id) + (if t.kind == Income && t.accountId == id then t.amount else 0)
  }

  function ExpenseOf(txs: seq<Tx>, id: Option<string>): int
  {
    if |txs| == 0 then 0
    else
      var t := txs[|txs| - 1];
      ExpenseOf(txs[..|txs| - 1], id) + (if t.kind == Expense && t.accountId == id then t.amount else 0)
  }

  function TransfersOut(txs: seq<Tx>, id: Option<string>): int
  {
    if |txs| == 0 then 0
    else
      var t := txs[|txs| - 1];
      TransfersOut(txs[..|txs| - 1], id) + (if t.kind == Transfer && t.accountId == id then t.amount else 0)
  }

  function TransfersIn(txs: seq<Tx>, id: Option<string>): int
  {
    if |txs| == 0 then 0
    else
      var t := txs[|txs| - 1];
      TransfersIn(txs[..|txs| - 1], id) + (if t.kind == Transfer && t.targetAccountId == id then t.amount else 0)
  }

  function Intended(a: Account, txs: seq<Tx>): int
  {
    a.initialBalance + IncomeOf(txs, a.id) - ExpenseOf(txs, a.id) - TransfersOut(txs, a.id) + TransfersIn(txs, a.id)
  }

  /** No transfer of `txs` goes from the account to itself. */
  predicate NoSelfTransfer(txs: seq<Tx>, id: Option<string>)
  {
    forall t :: t in txs && t.kind == Transfer && t.accountId == id ==> t.targetAccountId != id
  }

  lemma SumStep(f: seq<Tx>, t: Tx, id: Option<string>)
    ensures SumContributions(f + [t], id) == SumContributions(f, id) + Contribution(t, id)
    ensures SumFixed(f + [t], id) == SumFixed(f, id) + ContributionFixed(t, id)
  {
    assert (f + [t])[..|f|] == f;
  }

  /**
   * Unless the account transfers to itself, the calculated balance is the initial balance plus
   * income, minus expense, minus transfers out, plus transfers in.
   */
  lemma CalculatedIsIntended(a: Account, txs: seq<Tx>)
    requires NoSelfTransfer(txs, a.id)
    ensures Calculated(a, txs) == Intended(a, txs)
  {
    SumIsIntended(txs, a.id);
  }

  lemma {:induction false} SumIsIntended(txs: seq<Tx>, id: Option<string>)
    requires NoSelfTransfer(txs, id)
    ensures SumContributions(Filter(txs, id), id)
      == IncomeOf(txs, id) - ExpenseOf(txs, id) - TransfersOut(txs, id) + TransfersIn(txs, id)
  {
    if |txs| > 0 {
      var n := |txs| - 1;
      assert NoSelfTransfer(txs[..n], id) by {
        forall t | t in txs[..n] ensures t in txs { }
      }
      SumIsIntended(txs[..n], id);
      assert txs[n] in txs;
      SumStep(Filter(txs[..n], id), txs[n], id);
      ContributionIsTerm(txs[n], id);
    }
  }

  /** One filtered transaction contributes its income, expense and transfer terms. */
  lemma ContributionIsTerm(t: Tx, id: Option<string>)
    requires t.kind == Transfer && t.accountId == id ==> t.targetAccountId != id
    ensures (if Names(t, id) then Contribution(t, id) else 0)
      == (if t.kind == Income && t.accountId == id then t.amount else 0)
       - (if t.kind == Expense && t.accountId == id then t.amount else 0)
       - (if t.kind == Transfer && t.accountId == id then t.amount else 0)
       + (if t.kind == Transfer && t.targetAccountId == id then t.amount else 0)
  {
  }

  /**
   * As written, a transfer from an account to itself counts only as money out: an account that
   * started at 100 and transferred 30 to itself, whose balance the transfer left at 100, is
   * calculated at 70 and reported invalid.
   */
  lemma SelfTransferCountedAsOutgoing()
    ensures var a := Account(Some("a"), "A", 100, 100);
      var txs := [Tx(Transfer, 30, Some("a"), Some("a"))];
      Calculated(a, txs) == 70 && Intended(a, txs) == 100 && !Valid(a, txs)
  {
    var txs := [Tx(Transfer, 30, Some("a"), Some("a"))];
    assert txs[..0] == [];
    assert Filter(txs, Some("a")) == txs;
  }

  /** The corrected contribution: a transfer from the account to itself nets to zero. */
  function ContributionFixed(t: Tx, id: Option<string>): int
  {
    if t.kind == Transfer && t.accountId == id && t.targetAccountId == id then 0 else Contribution(t, id)
  }

  function SumFixed(txs: seq<Tx>, id: Option<string>): int
  {
    if |txs| == 0 then 0 else SumFixed(txs[..|txs| - 1], id) + ContributionFixed(txs[|txs| - 1], id)
  }

  function CalculatedFixed(a: Account, txs: seq<Tx>): int
  {
    a.initialBalance + SumFixed(Filter(txs, a.id), a.id)
  }

  /** The corrected calculation is the documented formula for every list of transactions. */
  lemma {:induction false} CalculatedFixedIsIntended(a: Account, txs: seq<Tx>)
    ensures CalculatedFixed(a, txs) == Intended(a, txs)
  {
    SumFixedIsIntended(txs, a.id);
  }

  lemma {:induction false} SumFixedIsIntended(txs: seq<Tx>, id: Option<string>)
    ensures SumFixed(Filter(txs, id), id)
      == IncomeOf(txs, id) - ExpenseOf(txs, id) - TransfersOut(txs, id) + TransfersIn(txs, id)
  {
    if |txs| > 0 {
      var n := |txs| - 1;
      SumFixedIsIntended(txs[..n], id);
      SumStep(Filter(txs[..n], id), txs[n], id);
    }
  }

  // -- validation

  /** `Math.abs(calculated - balance) < 0.01` on integer cents. */
  predicate Valid(a: Account, txs: seq<Tx>)
  {
    Calculated(a, txs) == a.balance
  }

  datatype AccountResult = AccountResult(
    accountId: Option<string>, accountName: string, actualBalance: int,
    calculatedBalance: int, isValid: bool, difference: int)

  function ResultOf(a: Account, txs: seq<Tx>): (r: AccountResult)
    ensures r.isValid <==> Valid(a, txs)
  {
    var c := Calculated(a, txs);
    AccountResult(a.id, a.name, a.balance, c, c == a.balance, c - a.balance)
  }

  function Results(s: seq<Account>, txs: seq<Tx>): (r: seq<AccountResult>)
    ensures |r| == |s|
  {
    if |s| == 0 then [] else Results(s[..|s| - 1], txs) + [ResultOf(s[|s| - 1], txs)]
  }

  lemma {:induction false} ResultsAt(s: seq<Account>, txs: seq<Tx>, k: nat)
    requires k < |s|
    ensures Results(s, txs)[k] == ResultOf(s[k], txs)
  {
    var n := |s| - 1;
    if k < n {
      ResultsAt(s[..n], txs, k);
      assert s[..n][k] == s[k];
    }
  }

  predicate AllValid(s: seq<Account>, txs: seq<Tx>)
  {
    forall k :: 0 <= k < |s| ==> Valid(s[k], txs)
  }

  /** The filter and the loop of `validateAccountBalances` for one account. */
  method CalculateBalance(a: Account, txs: seq<Tx>) returns (calculated: int)
    ensures calculated == Calculated(a, txs)
  {
    var own := Filter(txs, a.id);
    calculated := a.initialBalance;
    var i := 0;
    while i < |own|
      invariant 0 <= i <= |own|
      invariant calculated == a.initialBalance + SumContributions(own[..i], a.id)
    {
      assert own[..i + 1][..i] == own[..i];
      var t := own[i];
      if t.accountId == a.id {
        match t.kind {
          case Income => calculated := calculated + t.amount;
          case Expense => calculated := calculated - t.amount;
          case Transfer => calculated := calculated - t.amount;
          case OtherKind(_) =>
        }
      } else if t.targetAccountId == a.id {
        calculated := calculated + t.amount;
      }
      i := i + 1;
    }
    assert own[..|own|] == own;
  }

  /** `validateAccountBalances`. */
  method ValidateAccountBalances(accounts: seq<Account>, txs: seq<Tx>) returns (isAllValid: bool, results: seq<AccountResult>)
    ensures results == Results(accounts, txs)
    ensures isAllValid <==> AllValid(accounts, txs)
  {
    results := [];
    var i := 0;
    while i < |accounts|
      invariant 0 <= i <= |accounts|
      invariant results == Results(accounts[..i], txs)
    {
      assert accounts[..i + 1][..i] == accounts[..i];
      var a := accounts[i];
      var c := CalculateBalance(a, txs);
      results := results + [AccountResult(a.id, a.name, a.balance, c, c == a.balance, c - a.balance)];
      i := i + 1;
    }
    assert accounts[..|accounts|] == accounts;
    isAllValid := AllResultsValid(results);
    forall k | 0 <= k < |accounts|
      ensures results[k].isValid <==> Valid(accounts[k], txs)
    {
      ResultsAt(accounts, txs, k);
    }
  }

  /** `results.every(r => r.isValid)`. */
  method AllResultsValid(results: seq<AccountResult>) returns (b: bool)
    ensures b <==> forall k :: 0 <= k < |results| ==> results[k].isValid
  {
    var i := 0;
    while i < |results|
      invariant 0 <= i <= |results|
      invariant forall k :: 0 <= k < i ==> results[k].isValid
    {
      if !results[i].isValid {
        return false;
      }
      i := i + 1;
    }
    return true;
  }

  // -- repair

  /** `validation.results.find(r => r.accountId === account.id)`. */
  function FindResult(results: seq<AccountResult>, id: Option<string>): (r: Option<AccountResult>)
    ensures r.Some? ==> r.value in results && r.value.accountId == id
    ensures r.None? ==> forall k :: 0 <= k < |results| ==> results[k].accountId != id
  {
    if |results| == 0 then None
    else if results[0].accountId == id then Some(results[0])
    else FindResult(results[1..], id)
  }

  /** One account after the auto-fix: an invalid result for its id replaces the balance. */
  function Repaired(a: Account, results: seq<AccountResult>): Account
  {
    match FindResult(results, a.id)
    case Some(r) => if !r.isValid then a.(balance := r.calculatedBalance) else a
    case None => a
  }

  function RepairAll(s: seq<Account>, results: seq<AccountResult>): (r: seq<Account>)
    ensures |r| == |s|
    ensures forall k :: 0 <= k < |s| ==> r[k] == Repaired(s[k], results)
  {
    if |s| == 0 then [] else RepairAll(s[..|s| - 1], results) + [Repaired(s[|s| - 1], results)]
  }

  predicate DistinctIds(s: seq<Account>)
  {
    forall a, b :: 0 <= a < b < |s| ==> s[a].id != s[b].id
  }

  lemma {:induction false} FindOwnResult(s: seq<Account>, txs: seq<Tx>, k: nat)
    requires DistinctIds(s) && k < |s|
    ensures FindResult(Results(s, txs), s[k].id) == Some(ResultOf(s[k], txs))
  {
    var rs := Results(s, txs);
    forall j | 0 <= j < k
      ensures rs[j].accountId != s[k].id
    {
      ResultsAt(s, txs, j);
    }
    ResultsAt(s, txs, k);
    FindAt(rs, s[k].id, k);
  }

  lemma {:induction false} FindAt(rs: seq<AccountResult>, id: Option<string>, k: nat)
    requires k < |rs| && rs[k].accountId == id
    requires forall j :: 0 <= j < k ==> rs[j].accountId != id
    ensures FindResult(rs, id) == Some(rs[k])
  {
    if k > 0 {
      FindAt(rs[1..], id, k - 1);
    }
  }

  /**
   * With pairwise different ids, the auto-fix sets every invalid account to its calculated
   * balance, leaves the valid ones as they were, and afterwards every account is valid.
   */
  lemma RepairAllSpec(s: seq<Account>, txs: seq<Tx>)
    requires DistinctIds(s)
    ensures var fixed := RepairAll(s, Results(s, txs));
      (forall k :: 0 <= k < |s| ==> fixed[k] == if Valid(s[k], txs) then s[k] else s[k].(balance := Calculated(s[k], txs)))
      && AllValid(fixed, txs)
  {
    forall k | 0 <= k < |s|
      ensures FindResult(Results(s, txs), s[k].id) == Some(ResultOf(s[k], txs))
    {
      FindOwnResult(s, txs, k);
    }
  }

  /** When every account is valid, the repair changes nothing. */
  lemma RepairValidIsIdentity(s: seq<Account>, txs: seq<Tx>)
    requires AllValid(s, txs)
    ensures RepairAll(s, Results(s, txs)) == s
  {
    var rs := Results(s, txs);
    forall k | 0 <= k < |rs|
      ensures rs[k].isValid
    {
      ResultsAt(s, txs, k);
    }
  }

  function Total(s: seq<Account>): int
  {
    if |s| == 0 then 0 else Total(s[..|s| - 1]) + s[|s| - 1].balance
  }

  /** The stored accounts, transactions and asset total (a missing total reads as 0). */
  class Ledger {
    var accounts: seq<Account>
    var transactions: seq<Tx>
    var totalAssets: int

    constructor (accounts: seq<Account>, transactions: seq<Tx>, totalAssets: int)
      ensures this.accounts == accounts && this.transactions == transactions && this.totalAssets == totalAssets
    {
      this.accounts := accounts;
      this.transactions := transactions;
      this.totalAssets := totalAssets;
    }

    /** `fixAccountBalances`: nothing is written when every account is valid or `autoFix` is off. */
    method FixAccountBalances(autoFix: bool) returns (needFix: bool, fixedCount: nat)
      modifies this
      ensures needFix <==> !AllValid(old(accounts), transactions)
      ensures accounts == if needFix && autoFix then RepairAll(old(accounts), Results(old(accounts), transactions)) else old(accounts)
      ensures transactions == old(transactions) && totalAssets == old(totalAssets)
    {
      var isAllValid, results := ValidateAccountBalances(accounts, transactions);
      if isAllValid {
        return false, 0;
      }
      if !autoFix {
        return true, 0;
      }
      var fixed, count := RepairLoop(accounts, results);
      accounts := fixed;
      return true, count;
    }

    /** `validateTotalAssets`. */
    method ValidateTotalAssets() returns (isValid: bool, calculatedTotal: int)
      ensures calculatedTotal == Total(accounts)
      ensures isValid <==> calculatedTotal == totalAssets
    {
      calculatedTotal := SumBalances(accounts);
      isValid := calculatedTotal == totalAssets;
    }

    /** `fixTotalAssets`. */
    method FixTotalAssets() returns (needFix: bool)
      modifies this
      ensures needFix <==> old(totalAssets) != Total(accounts)
      ensures totalAssets == Total(accounts)
      ensures accounts == old(accounts) && transactions == old(transactions)
    {
      var isValid, calculatedTotal := ValidateTotalAssets();
      if isValid {
        return false;
      }
      totalAssets := calculatedTotal;
      return true;
    }

    /**
     * `performFullConsistencyCheck`: fixes are needed when an account or the total is off;
     * with `autoFix` the accounts are repaired first and the total is then taken from the
     * repaired balances.
     */
    method PerformFullConsistencyCheck(autoFix: bool) returns (needFix: bool, fixed: bool)
      modifies this
      ensures needFix <==> !AllValid(old(accounts), transactions) || Total(old(accounts)) != old(totalAssets)
      ensures fixed <==> needFix && autoFix
      ensures !fixed ==> accounts == old(accounts) && totalAssets == old(totalAssets)
      ensures fixed ==> (accounts == RepairAll(old(accounts), Results(old(accounts), transactions))
                         && totalAssets == Total(accounts))
      ensures fixed && DistinctIds(old(accounts)) ==> AllValid(accounts, transactions)
    {
      var accountsValid, _ := ValidateAccountBalances(accounts, transactions);
      var assetsValid, _ := ValidateTotalAssets();
      needFix := !accountsValid || !assetsValid;
      if needFix && autoFix {
        if AllValid(accounts, transactions) {
          RepairValidIsIdentity(accounts, transactions);
        }
        var _, _ := FixAccountBalances(true);
        var _ := FixTotalAssets();
        if DistinctIds(old(accounts)) {
          RepairAllSpec(old(accounts), transactions);
        }
        return needFix, true;
      }
      return needFix, false;
    }
  }

  /** The auto-fix loop over the re-read accounts. */
  method RepairLoop(accounts: seq<Account>, results: seq<AccountResult>) returns (fixed: seq<Account>, fixedCount: nat)
    ensures fixed == RepairAll(accounts, results)
    ensures fixedCount <= |accounts|
  {
    fixed := [];
    fixedCount := 0;
    var i := 0;
    while i < |accounts|
      invariant 0 <= i <= |accounts|
      invariant fixed == RepairAll(accounts[..i], results)
      invariant fixedCount <= i
    {
      assert accounts[..i + 1][..i] == accounts[..i];
      var a := accounts[i];
      var found := FindResult(results, a.id);
      if found.Some? && !found.value.isValid {
        a := a.(balance := found.value.calculatedBalance);
        fixedCount := fixedCount + 1;
      }
      fixed := fixed + [a];
      i := i + 1;
    }
    assert accounts[..|accounts|] == accounts;
  }

  /** `accounts.reduce((sum, account) => sum + account.balance, 0)`. */
  method SumBalances(accounts: seq<Account>) returns (sum: int)
    ensures sum == Total(accounts)
  {
    sum := 0;
    var i := 0;
    while i < |accounts|
      invariant 0 <= i <= |accounts|
      invariant sum == Total(accounts[..i])
    {
      assert accounts[..i + 1][..i] == accounts[..i];
      sum := sum + accounts[i].balance;
      i := i + 1;
    }
    assert accounts[..|accounts|] == accounts;
  }
}
