/** The ledger's entities and the errors its operations report. */
module Domain {

  /** Message of the "account does not exist" exceptions. */
  const ACCOUNT_NOT_EXISTS := "Account does not exist"

  /** Message of the "insufficient balance" exceptions. */
  const INSUFFICIENT_BALANCE := "Sufficient balance is not available in account"

  /** Message of the validator's negative-amount exception. */
  const INVALID_AMOUNT := "Account transfer amount is not valid. Please try with valid amount(Positive)"

  /** An account: its identifier and its balance, an exact decimal amount. */
  datatype Account = Account(id: string, balance: real)

  /** Why a transfer, a debit or a credit was refused. */
  datatype TransferError =
    | InvalidAmount        // the amount is negative
    | AccountNotFound      // the source or the destination id is not in the store
    | InsufficientBalance  // the source balance is below the amount
  {
    /** The message the exception carries. */
    function Message(): string {
      match this
      case InvalidAmount => INVALID_AMOUNT
      case AccountNotFound => ACCOUNT_NOT_EXISTS
      case InsufficientBalance => INSUFFICIENT_BALANCE
    }
  }

  /** Why an account could not be created. */
  datatype CreateError = DuplicateAccountId(id: string) {
    /** The message the exception carries. */
    function Message(): string {
      "Account id " + id + " already exists!"
    }
  }

  /** Which side of a completed transfer a notification tells about. */
  datatype Side = Debited | Credited

  /**
   * A notification sent to the holder of `recipient` about a transfer of
   * `amount` to or from the account `counterparty`.
   */
  datatype Notification = Notification(recipient: Account, side: Side, counterparty: string, amount: real)
}
