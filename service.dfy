/**
 * The accounts service: creation, lookup and transfers over a mutable
 * account store, run sequentially.
 */
module Service {
  import opened Wrappers
  import opened Domain
  import opened Validator
  import opened Ledger

  class AccountsService {
    /** The repository's accounts, keyed by account id. */
    var accounts: Accounts
    /** Every notification sent so far, oldest first. */
    ghost var notifications: seq<Notification>

    /** Every stored account sits under its own id. */
    ghost predicate Valid()
      reads this
    {
      WellKeyed(accounts)
    }

    /** A service over an empty repository that has sent no notification. */
    constructor ()
      ensures Valid()
      ensures accounts == map[] && notifications == []
    {
      accounts := map[];
      notifications := [];
    }

    /**
     * Stores `account` under its id; an id already in the store is refused
     * with the duplicate-id error and the store is left as it was.
     */
    method CreateAccount(account: Account) returns (r: Outcome<CreateError>)
      requires Valid()
      modifies this`accounts
      ensures Valid()
      ensures r.Fail? <==> account.id in old(accounts)
      ensures r.Fail? ==> r.error == DuplicateAccountId(account.id) && accounts == old(accounts)
      ensures r.Pass? ==> Create(old(accounts), account) == Success(accounts)
    {
      match Create(accounts, account)
      case Failure(e) =>
        r := Fail(e);
      case Success(created) =>
        CreateThenLookup(accounts, account);
        accounts := created;
        r := Pass;
    }

    /** The account stored under `accountId`, or `None` when there is none. */
    method GetAccount(accountId: string) returns (account: Option<Account>)
      requires Valid()
      ensures account.Some? <==> accountId in accounts
      ensures account.Some? ==> account.value == accounts[accountId] && account.value.id == accountId
    {
      account := Lookup(accounts, accountId);
    }

    /**
     * Takes `amount` out of the account under `accountId` and returns the
     * updated account; refused, with nothing changed, when the account is
     * missing or its balance is below the amount.
     */
    method RequestToDebit(accountId: string, amount: real) returns (r: Result<Account, TransferError>)
      requires Valid()
      modifies this`accounts
      ensures Valid()
      ensures match Debit(old(accounts), accountId, amount)
        case Success(debited) => accounts == debited && r == Success(debited[accountId])
        case Failure(e) => accounts == old(accounts) && r == Failure(e)
      ensures r.Success? ==> r.value.balance >= 0.0
    {
      var account := GetAccount(accountId);
      if account.None? {
        return Failure(AccountNotFound);
      }
      if account.value.balance < amount {
        return Failure(InsufficientBalance);
      }
      var balance := account.value.balance - amount;
      accounts := accounts[accountId := account.value.(balance := balance)];
      r := Success(accounts[accountId]);
    }

    /**
     * Adds `amount` to the account under `accountId` and returns the updated
     * account; refused, with nothing changed, when the account is missing.
     */
    method RequestToCredit(accountId: string, amount: real) returns (r: Result<Account, TransferError>)
      requires Valid()
      modifies this`accounts
      ensures Valid()
      ensures match Credit(old(accounts), accountId, amount)
        case Success(credited) => accounts == credited && r == Success(credited[accountId])
        case Failure(e) => accounts == old(accounts) && r == Failure(e)
    {
      var account := GetAccount(accountId);
      if account.None? {
        return Failure(AccountNotFound);
      }
      var balance := account.value.balance + amount;
      accounts := accounts[accountId := account.value.(balance := balance)];
      r := Success(accounts[accountId]);
    }

    /**
     * Moves `amount` from the account under `fromId` to the account under
     * `toId`: validates, debits, credits, and on success notifies the source
     * holder and then the destination holder.
     */
    method AmountTransfer(fromId: string, toId: string, amount: real) returns (r: Outcome<TransferError>)
      requires Valid()
      modifies this
      ensures Valid()
      ensures TransferResult(r, accounts) == Transfer(old(accounts), fromId, toId, amount)
      ensures r.Fail? ==> accounts == old(accounts) && notifications == old(notifications)
      ensures r.Pass? ==> fromId in accounts && toId in accounts
      ensures r.Pass? ==> notifications == old(notifications) + [
        Notification(accounts[fromId], Debited, toId, amount),
        Notification(accounts[toId], Credited, fromId, amount)]
    {
      var accountFrom := GetAccount(fromId);
      var accountTo := GetAccount(toId);
      r := Validate(accountFrom, accountTo, amount);
      if r.Fail? {
        return;
      }
      // validation leaves neither the debit nor the credit a way to fail
      ValidatedStepsSucceed(accounts, fromId, toId, amount);
      var debited := RequestToDebit(fromId, amount);
      assert debited.Success?;
      var credited := RequestToCredit(toId, amount);
      assert credited.Success?;
      var notifiedFrom := GetAccount(fromId);
      var notifiedTo := GetAccount(toId);
      notifications := notifications + [Notification(notifiedFrom.value, Debited, toId, amount)];
      notifications := notifications + [Notification(notifiedTo.value, Credited, fromId, amount)];
    }
  }

  /** 5000 and 5000, transfer 1111: 3889 and 6111, and two notifications. */
  method ScenarioTransfer() {
    var service := new AccountsService();
    var created := service.CreateAccount(Account("uid-251", 5000.0));
    created := service.CreateAccount(Account("uid-252", 5000.0));
    var r := service.AmountTransfer("uid-251", "uid-252", 1111.0);
    assert r.Pass?;
    assert service.accounts["uid-251"].balance == 3889.0;
    assert service.accounts["uid-252"].balance == 6111.0;
    assert |service.notifications| == 2;
  }

  /** The whole balance moves out, then a 15000 transfer is refused and changes nothing. */
  method ScenarioRefusedTransfer() {
    var service := new AccountsService();
    var created := service.CreateAccount(Account("uid-390", 5000.0));
    created := service.CreateAccount(Account("uid-389", 5000.0));
    var r := service.AmountTransfer("uid-390", "uid-389", 5000.0);
    assert r.Pass?;
    r := service.AmountTransfer("uid-390", "uid-389", 15000.0);
    assert r == Fail(InsufficientBalance);
    assert r.error.Message() == INSUFFICIENT_BALANCE;
    assert service.accounts["uid-390"].balance == 0.0;
    assert service.accounts["uid-389"].balance == 10000.0;
  }

  /** 880.55 and 256.88, transfer 200.99: 679.56 and 457.87. */
  method ScenarioDecimalTransfer() {
    var service := new AccountsService();
    var created := service.CreateAccount(Account("uid-1", 880.55));
    created := service.CreateAccount(Account("uid-2", 256.88));
    var r := service.AmountTransfer("uid-1", "uid-2", 200.99);
    assert r.Pass?;
    assert service.accounts["uid-1"].balance == 679.56;
    assert service.accounts["uid-2"].balance == 457.87;
  }

  /**
   * A duplicate id is refused and the first account kept; a negative amount
   * is refused even towards a missing account.
   */
  method ScenarioRefusals() {
    var service := new AccountsService();
    var created := service.CreateAccount(Account("uid-567", 1000.0));
    created := service.CreateAccount(Account("uid-567", 5000.0));
    assert created == Fail(DuplicateAccountId("uid-567"));
    assert created.error.Message() == "Account id uid-567 already exists!";
    assert service.accounts["uid-567"].balance == 1000.0;
    var r := service.AmountTransfer("uid-567", "missing", -10.0);
    assert r == Fail(InvalidAmount);
    r := service.AmountTransfer("uid-567", "missing", 10.0);
    assert r == Fail(AccountNotFound);
    assert service.accounts["uid-567"].balance == 1000.0;
  }
}
