/** The side-effect-free checks a transfer must pass before any balance changes. */
module Validator {
  import opened Wrappers
  import opened Domain

  /** True when debiting `amount` leaves the balance of `account` at zero or above. */
  function IsBalanceSufficient(account: Account, amount: real): (sufficient: bool)
    ensures sufficient <==> amount <= account.balance
  {
    account.balance - amount >= 0.0
  }

  /**
   * Checks a transfer of `amount` from `accountFrom` to `accountTo` (each
   * `None` when its id is not in the store). The checks run in a fixed
   * order and the first that fails decides the error: negative amount,
   * then a missing account, then an insufficient source balance.
   */
  function Validate(accountFrom: Option<Account>, accountTo: Option<Account>, amount: real): (r: Outcome<TransferError>)
    // the amount check comes first, whether or not the accounts exist
    ensures amount < 0.0 ==> r == Fail(InvalidAmount)
    // a zero amount passes the amount check
    ensures 0.0 <= amount && (accountFrom.None? || accountTo.None?) ==> r == Fail(AccountNotFound)
    ensures 0.0 <= amount && accountFrom.Some? && accountTo.Some? && accountFrom.value.balance < amount
            ==> r == Fail(InsufficientBalance)
    // a balance equal to the amount is sufficient
    ensures r.Pass? <==> 0.0 <= amount && accountFrom.Some? && accountTo.Some? && amount <= accountFrom.value.balance
  {
    if amount < 0.0 then
      Fail(InvalidAmount)
    else if accountFrom.None? || accountTo.None? then
      Fail(AccountNotFound)
    else if !IsBalanceSufficient(accountFrom.value, amount) then
      Fail(InsufficientBalance)
    else
      Pass
  }
}
