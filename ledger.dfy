/**
 * The account store as a value (a map from account id to account) and the
 * store-level effect of each service operation, with the properties the
 * transfer logic promises.
 */
module Ledger {
  import opened Wrappers
  import opened Domain
  import opened Validator

  /** The account store: account id to account. */
  type Accounts = map<string, Account>

  /** Every account is stored under its own id. */
  ghost predicate WellKeyed(m: Accounts) {
    forall id :: id in m ==> m[id].id == id
  }

  /** No balance in the store is negative. */
  ghost predicate AllNonNegative(m: Accounts) {
    forall id :: id in m ==> m[id].balance >= 0.0
  }

  /** The account stored under `id`, or `None` (Java's `null`) when there is none. */
  function Lookup(m: Accounts, id: string): (r: Option<Account>)
    ensures r.Some? <==> id in m
    ensures r.Some? ==> r.value == m[id]
  {
    if id in m then Some(m[id]) else None
  }

  /** Adds `account` under its id; an id already present is refused and the store is kept. */
  function Create(m: Accounts, account: Account): (r: Result<Accounts, CreateError>)
    ensures r.Failure? <==> account.id in m
    ensures r.Failure? ==> r.error == DuplicateAccountId(account.id)
    ensures r.Success? ==> r.value.Keys == m.Keys + {account.id} && r.value[account.id] == account
    ensures r.Success? ==> forall id :: id in m ==> r.value[id] == m[id]
  {
    if account.id in m then Failure(DuplicateAccountId(account.id))
    else Success(m[account.id := account])
  }

  /** The store after a new balance is written into the account under `id`. */
  function SetBalance(m: Accounts, id: string, balance: real): (r: Accounts)
    requires id in m
    ensures r.Keys == m.Keys && r[id].id == m[id].id && r[id].balance == balance
    ensures forall other :: other in m && other != id ==> r[other] == m[other]
  {
    m[id := m[id].(balance := balance)]
  }

  /**
   * Takes `amount` out of the account under `id`: refused when there is no
   * such account or when its balance is below the amount.
   */
  function Debit(m: Accounts, id: string, amount: real): (r: Result<Accounts, TransferError>)
    ensures r.Success? <==> id in m && amount <= m[id].balance
    ensures id !in m ==> r == Failure(AccountNotFound)
    ensures id in m && m[id].balance < amount ==> r == Failure(InsufficientBalance)
    ensures r.Success? ==> r.value.Keys == m.Keys && r.value[id].id == m[id].id
    ensures r.Success? ==> r.value[id].balance >= 0.0 && r.value[id].balance + amount == m[id].balance
    ensures r.Success? ==> forall other :: other in m && other != id ==> r.value[other] == m[other]
  {
    if id !in m then Failure(AccountNotFound)
    else if m[id].balance < amount then Failure(InsufficientBalance)
    else Success(SetBalance(m, id, m[id].balance - amount))
  }

  /** Adds `amount` to the account under `id`: refused only when there is no such account. */
  function Credit(m: Accounts, id: string, amount: real): (r: Result<Accounts, TransferError>)
    ensures r.Success? <==> id in m
    ensures r.Failure? ==> r.error == AccountNotFound
    ensures r.Success? ==> r.value.Keys == m.Keys && r.value[id].id == m[id].id
    ensures r.Success? ==> r.value[id].balance - amount == m[id].balance
    ensures r.Success? ==> forall other :: other in m && other != id ==> r.value[other] == m[other]
  {
    if id !in m then Failure(AccountNotFound)
    else Success(SetBalance(m, id, m[id].balance + amount))
  }

  /** What a transfer reports, and the store it leaves behind. */
  datatype TransferResult = TransferResult(outcome: Outcome<TransferError>, accounts: Accounts)

  /**
   * A transfer as the service runs it: validate against the two looked-up
   * accounts, then debit the source, then credit the destination. An error
   * from a step stops the transfer with whatever the earlier steps wrote.
   */
  function Transfer(m: Accounts, fromId: string, toId: string, amount: real): (r: TransferResult)
    ensures r.accounts.Keys == m.Keys
    ensures r.outcome.Pass? ==> fromId in m && toId in m
    ensures forall id :: id in m && id != fromId && id != toId ==> r.accounts[id] == m[id]
  {
    match Validate(Lookup(m, fromId), Lookup(m, toId), amount)
    case Fail(e) => TransferResult(Fail(e), m)
    case Pass =>
      match Debit(m, fromId, amount)
      case Failure(e) => TransferResult(Fail(e), m)
      case Success(debited) =>
        match Credit(debited, toId, amount)
        case Failure(e) => TransferResult(Fail(e), debited)
        case Success(credited) => TransferResult(Pass, credited)
  }

  /** The sum of the balances of the accounts under `ids`. */
  ghost function SumBalances(m: Accounts, ids: set<string>): real
    requires ids <= m.Keys
    decreases ids
  {
    if ids == {} then 0.0
    else
      var id :| id in ids;
      m[id].balance + SumBalances(m, ids - {id})
  }

  /** The sum of all balances in the store. */
  ghost function Total(m: Accounts): real {
    SumBalances(m, m.Keys)
  }

  // ---------------------------------------------------------------------
  // Creation and lookup

  /** A created account is found under its id; the store stays well keyed. */
  lemma CreateThenLookup(m: Accounts, account: Account)
    requires WellKeyed(m)
    requires Create(m, account).Success?
    ensures WellKeyed(Create(m, account).value)
    ensures Lookup(Create(m, account).value, account.id) == Some(account)
    ensures forall id :: id != account.id ==> Lookup(Create(m, account).value, id) == Lookup(m, id)
  {
  }

  // ---------------------------------------------------------------------
  // Transfers

  /**
   * Once validation has passed, neither the debit nor the credit can be
   * refused: both accounts exist and the source covers the amount.
   */
  lemma ValidatedStepsSucceed(m: Accounts, fromId: string, toId: string, amount: real)
    requires Validate(Lookup(m, fromId), Lookup(m, toId), amount).Pass?
    ensures Debit(m, fromId, amount).Success?
    ensures Credit(Debit(m, fromId, amount).value, toId, amount).Success?
  {
  }

  /**
   * A transfer succeeds exactly when the amount is not negative, both ids
   * are in the store and the source balance covers the amount; otherwise it
   * reports the validator's error.
   */
  lemma TransferOutcome(m: Accounts, fromId: string, toId: string, amount: real)
    ensures Transfer(m, fromId, toId, amount).outcome.Pass?
            <==> 0.0 <= amount && fromId in m && toId in m && amount <= m[fromId].balance
    ensures Transfer(m, fromId, toId, amount).outcome == Validate(Lookup(m, fromId), Lookup(m, toId), amount)
  {
    if Validate(Lookup(m, fromId), Lookup(m, toId), amount).Pass? {
      ValidatedStepsSucceed(m, fromId, toId, amount);
    }
  }

  /** No transfer is half applied: a refused transfer leaves every account as it was. */
  lemma FailedTransferChangesNothing(m: Accounts, fromId: string, toId: string, amount: real)
    requires Transfer(m, fromId, toId, amount).outcome.Fail?
    ensures Transfer(m, fromId, toId, amount).accounts == m
  {
    if Validate(Lookup(m, fromId), Lookup(m, toId), amount).Pass? {
      ValidatedStepsSucceed(m, fromId, toId, amount);
    }
  }

  /**
   * Between two distinct accounts a successful transfer lowers the source by
   * exactly the amount, raises the destination by exactly the amount, and
   * leaves the set of ids, the ids of the accounts and every other account
   * as they were.
   */
  lemma TransferMovesAmount(m: Accounts, fromId: string, toId: string, amount: real)
    requires fromId != toId
    requires Transfer(m, fromId, toId, amount).outcome.Pass?
    ensures var after := Transfer(m, fromId, toId, amount).accounts;
      && after.Keys == m.Keys
      && after[fromId] == m[fromId].(balance := m[fromId].balance - amount)
      && after[toId] == m[toId].(balance := m[toId].balance + amount)
      && (forall id :: id in m && id != fromId && id != toId ==> after[id] == m[id])
  {
  }

  /** A successful transfer between distinct accounts keeps the sum of their two balances. */
  lemma TransferConservesPair(m: Accounts, fromId: string, toId: string, amount: real)
    requires fromId != toId
    requires Transfer(m, fromId, toId, amount).outcome.Pass?
    ensures var after := Transfer(m, fromId, toId, amount).accounts;
      after[fromId].balance + after[toId].balance == m[fromId].balance + m[toId].balance
  {
    TransferMovesAmount(m, fromId, toId, amount);
  }

  /**
   * A transfer from an account to itself debits and then credits the same
   * account, so whatever it reports the store is unchanged.
   */
  lemma SelfTransferChangesNothing(m: Accounts, id: string, amount: real)
    ensures Transfer(m, id, id, amount).accounts == m
  {
    if Transfer(m, id, id, amount).outcome.Pass? {
      var after := Transfer(m, id, id, amount).accounts;
      assert after[id] == m[id];
      assert after == m;
    } else {
      FailedTransferChangesNothing(m, id, id, amount);
    }
  }

  /** No transfer creates or destroys money: the sum of all balances is kept. */
  lemma TransferConservesTotal(m: Accounts, fromId: string, toId: string, amount: real)
    ensures Total(Transfer(m, fromId, toId, amount).accounts) == Total(m)
  {
    var r := Transfer(m, fromId, toId, amount);
    if r.outcome.Fail? {
      FailedTransferChangesNothing(m, fromId, toId, amount);
    } else {
      var debited := Debit(m, fromId, amount).value;
      TotalAfterSetBalance(m, fromId, m[fromId].balance - amount);
      TotalAfterSetBalance(debited, toId, debited[toId].balance + amount);
    }
  }

  /** A transfer keeps every account stored under its own id. */
  lemma TransferKeepsWellKeyed(m: Accounts, fromId: string, toId: string, amount: real)
    requires WellKeyed(m)
    ensures WellKeyed(Transfer(m, fromId, toId, amount).accounts)
    ensures Transfer(m, fromId, toId, amount).accounts.Keys == m.Keys
  {
    if Transfer(m, fromId, toId, amount).outcome.Fail? {
      FailedTransferChangesNothing(m, fromId, toId, amount);
    }
  }

  /**
   * A transfer never drives a balance below zero: the debited source keeps
   * at least zero and the destination gains a non-negative amount.
   */
  lemma TransferKeepsNonNegative(m: Accounts, fromId: string, toId: string, amount: real)
    requires AllNonNegative(m)
    ensures AllNonNegative(Transfer(m, fromId, toId, amount).accounts)
  {
    if Transfer(m, fromId, toId, amount).outcome.Fail? {
      FailedTransferChangesNothing(m, fromId, toId, amount);
    } else if fromId == toId {
      SelfTransferChangesNothing(m, fromId, amount);
    } else {
      TransferMovesAmount(m, fromId, toId, amount);
    }
  }

  // ---------------------------------------------------------------------
  // Sums of balances

  /** The sum over `ids` is any one of its accounts plus the sum over the rest. */
  lemma {:induction false} SumBalancesRemove(m: Accounts, ids: set<string>, id: string)
    requires ids <= m.Keys && id in ids
    ensures SumBalances(m, ids) == m[id].balance + SumBalances(m, ids - {id})
    decreases ids
  {
    var picked :| picked in ids && SumBalances(m, ids) == m[picked].balance + SumBalances(m, ids - {picked});
    if picked != id {
      SumBalancesRemove(m, ids - {picked}, id);
      SumBalancesRemove(m, ids - {id}, picked);
      assert ids - {picked} - {id} == ids - {id} - {picked};
    }
  }

  /** Two stores with the same balances on `ids` have the same sum over `ids`. */
  lemma {:induction false} SumBalancesAgree(m: Accounts, n: Accounts, ids: set<string>)
    requires ids <= m.Keys && ids <= n.Keys
    requires forall id :: id in ids ==> m[id].balance == n[id].balance
    ensures SumBalances(m, ids) == SumBalances(n, ids)
    decreases ids
  {
    if ids != {} {
      var id :| id in ids;
      SumBalancesRemove(m, ids, id);
      SumBalancesRemove(n, ids, id);
      SumBalancesAgree(m, n, ids - {id});
    }
  }

  /** Writing a new balance into one account moves the total by the difference. */
  lemma TotalAfterSetBalance(m: Accounts, id: string, balance: real)
    requires id in m
    ensures Total(SetBalance(m, id, balance)) == Total(m) - m[id].balance + balance
  {
    var n := SetBalance(m, id, balance);
    assert n.Keys == m.Keys;
    SumBalancesRemove(m, m.Keys, id);
    SumBalancesRemove(n, n.Keys, id);
    SumBalancesAgree(m, n, m.Keys - {id});
  }
}
