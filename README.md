# In-memory account ledger: sequential transfer logic

This project models the core of a small account ledger service: a store of
accounts (an id and a decimal balance), account creation and lookup, and
transfers of an amount from one account to another. A transfer first runs a
side-effect-free validator (negative amount, then missing account, then
insufficient source balance, first failure wins), then debits the source,
credits the destination and notifies both holders.

Modules:

- `Wrappers` — `Option` (Java's `null`), `Result` and `Outcome` (Java's exceptions).
- `Domain` — `Account`, the transfer and creation errors with their messages,
  and the notification record.
- `Validator` — `Validate` and `IsBalanceSufficient`, pure functions.
- `Ledger` — the store as a value (`map<string, Account>`), the store-level
  effect of create, debit, credit and transfer as functions, and the lemmas
  about them: the transfer's success condition and error, no half-applied
  transfer, exact movement of the amount, conservation of the pair and of
  the total of all balances, non-negativity, and self-transfer.
- `Service` — class `AccountsService` whose `accounts` field the methods
  reassign, with a ghost log of notifications; each method's postcondition
  ties its outcome and new state to the `Ledger` function it implements.
  Four scenario methods replay the repository's unit-test examples.

Amounts are `real`: exact, like `BigDecimal` addition, subtraction and
comparison. Three behaviours of the code that are easy to misread:

- a zero amount passes validation, since only `amount < 0` is rejected
  (`AccountTransferValidator.java:19`), although the error message asks
  for a positive amount;
- a transfer from an account to itself is not rejected for naming the
  same account twice (a self-transfer above the balance is still refused
  with the insufficient-balance error); when it passes validation it debits
  and credits the same account, so the store ends unchanged and two
  notifications are sent (`Ledger.SelfTransferChangesNothing`);
- there are no per-account locks; the code creates a fresh lock per call,
  which excludes nothing, so transfers are modelled as sequential.

## Model

| member | source | states |
|---|---|---|
| `Validator.IsBalanceSufficient` | src/main/java/com/dws/challenge/util/AccountTransferValidator.java:33-35 | `balance - amount >= 0` holds exactly when the amount is at most the balance, so a balance equal to the amount suffices |
| `Validator.Validate` | src/main/java/com/dws/challenge/util/AccountTransferValidator.java:16-31 | a negative amount gives the invalid-amount error even when accounts are missing; otherwise a missing account gives account-not-found; otherwise a balance below the amount gives insufficient-balance; it passes exactly when amount >= 0, both accounts exist and the balance covers the amount (zero passes) |
| `Ledger.Create` | src/main/java/com/dws/challenge/service/AccountsService.java:33-35 | refused with the duplicate-id error exactly when the id is already stored; otherwise the store gains the account under its id and keeps every other account |
| `Ledger.Lookup` | src/main/java/com/dws/challenge/service/AccountsService.java:37-39 | returns the account stored under the id, or `None` (Java's `null`) exactly when the id is not stored |
| `Ledger.SetBalance` | src/main/java/com/dws/challenge/service/AccountsService.java:71-72 | writing a balance changes only that account's balance: its id, the set of ids and every other account are kept |
| `Ledger.CreateThenLookup` | src/main/java/com/dws/challenge/service/AccountsService.java:33-39 | after a successful creation, lookup of the id returns the stored account, lookups of other ids are unchanged, and every account stays under its own id |
| `Ledger.Debit` | src/main/java/com/dws/challenge/service/AccountsService.java:63-74 | refused with account-not-found for a missing id and insufficient-balance when the balance is below the amount; otherwise the account's balance falls by exactly the amount, stays >= 0, and nothing else changes |
| `Ledger.Credit` | src/main/java/com/dws/challenge/service/AccountsService.java:76-85 | refused with account-not-found exactly when the id is missing; otherwise the balance rises by exactly the amount and nothing else changes |
| `Ledger.Transfer` | src/main/java/com/dws/challenge/service/AccountsService.java:42-56 | validate, then debit, then credit; an error in a step stops the transfer and keeps the earlier writes; the set of ids and every account other than the two named are kept, and success implies both ids are stored |
| `Ledger.ValidatedStepsSucceed` | src/main/java/com/dws/challenge/service/AccountsService.java:45-53 | once validation has passed, neither the debit nor the following credit can be refused |
| `Ledger.TransferOutcome` | src/main/java/com/dws/challenge/service/AccountsService.java:42-53 | a transfer succeeds exactly when amount >= 0, both ids are stored and the source balance covers the amount, and its error is always the validator's |
| `Ledger.FailedTransferChangesNothing` | src/main/java/com/dws/challenge/service/AccountsService.java:42-56 | a refused transfer leaves every account as it was: no transfer is half applied |
| `Ledger.TransferMovesAmount` | src/main/java/com/dws/challenge/service/AccountsService.java:52-53 | between distinct ids a successful transfer lowers the source by exactly the amount, raises the destination by exactly the amount, and keeps the ids and every other account |
| `Ledger.TransferConservesPair` | src/main/java/com/dws/challenge/service/AccountsService.java:63-85 | a successful transfer between distinct ids keeps the sum of the two balances |
| `Ledger.SelfTransferChangesNothing` | src/main/java/com/dws/challenge/service/AccountsService.java:52-53 | a transfer from an id to itself leaves the store unchanged, whatever it reports |
| `Ledger.TotalAfterSetBalance` | src/main/java/com/dws/challenge/service/AccountsService.java:71-72 | overwriting one balance moves the total of all balances by exactly the difference |
| `Ledger.TransferConservesTotal` | src/main/java/com/dws/challenge/service/AccountsService.java:42-61 | no transfer creates or destroys money: the total of all balances in the store is kept |
| `Ledger.TransferKeepsWellKeyed` | src/main/java/com/dws/challenge/service/AccountsService.java:63-85 | a transfer keeps the set of ids and keeps every account stored under its own id |
| `Ledger.TransferKeepsNonNegative` | src/main/java/com/dws/challenge/service/AccountsService.java:63-85 | if no balance is negative before a transfer, none is after it |
| `Service.AccountsService.constructor` | src/main/java/com/dws/challenge/service/AccountsService.java:28-31 | the service starts over an empty, well-keyed store with no notifications sent |
| `Service.AccountsService.CreateAccount` | src/main/java/com/dws/challenge/service/AccountsService.java:33-35 | a duplicate id is refused with the duplicate-id error and the store unchanged; otherwise the store becomes `Ledger.Create`'s |
| `Service.AccountsService.GetAccount` | src/main/java/com/dws/challenge/service/AccountsService.java:37-39 | returns the account stored under the id, whose own id is that id, or `None` exactly when the id is not stored |
| `Service.AccountsService.RequestToDebit` | src/main/java/com/dws/challenge/service/AccountsService.java:63-74 | outcome and new store are those of `Ledger.Debit`; a refusal changes nothing; a returned account has a balance >= 0 |
| `Service.AccountsService.RequestToCredit` | src/main/java/com/dws/challenge/service/AccountsService.java:76-85 | outcome and new store are those of `Ledger.Credit`; a refusal changes nothing |
| `Service.AccountsService.AmountTransfer` | src/main/java/com/dws/challenge/service/AccountsService.java:42-61 | outcome and new store are those of `Ledger.Transfer`; a refused transfer changes no balance and sends no notification; a successful one sends exactly two, to the source holder and then to the destination holder, each carrying the updated account |

## Left out

- The `ReentrantLock` created inside each transfer: it is never shared, so it excludes nothing; transfers are modelled as sequential, and concurrent interleavings are not modelled.
- The repository implementation is not part of this model: it is the map field `accounts`; its duplicate-id refusal and message ("Account id <id> already exists!") follow the repository's tests. `clearAccounts`, used only by tests, is not modelled.
- Object identity and aliasing: Java's `getAccount` hands out the stored object, which `setBalance` then changes in place; the model returns a copy of the account value and writes the changed value back into the map.
- The notification service: each call is recorded in a ghost log as the account passed, the side (debited or credited), the counterparty id and the amount; the message text itself is not modelled. A notification call that throws is not modelled either: in Java it would leave the transfer after both balances were written and skip the second notification, while the model always reports success and logs both.
- The web controller, HTTP status mapping, JSON binding and the bean-validation annotations (non-empty id, non-negative initial balance, non-null fields). Because the initial-balance check lives there, `Ledger.TransferKeepsNonNegative` takes non-negative balances as a hypothesis rather than as a store invariant.
- Exception classes: the validator's negative-amount check throws the generic transaction exception, and its missing-account and insufficient-balance checks throw dedicated exceptions; the debit and credit throw the generic transaction exception with the same two messages. Each message is one error kind here. `BigDecimal` scale is not modelled, only values.
- Null arguments (a null amount or id would throw a `NullPointerException` in Java) are not modelled: every argument is a value.
