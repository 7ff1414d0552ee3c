# ING bank kata: a verified model of the account and operation services

This project models the core of a small Spring Boot banking service in
Dafny. Customers own accounts. Money moves by deposit, withdrawal and
transfer between accounts. Each successful movement is saved as an
operation, and an account's history lists those operations newest first.

The model follows the Java code structure:

| file | models |
|---|---|
| `exceptions.dfy` | the exception classes as `BankError`, `Utils.throwsOnCondition` |
| `decimals.dfy` | `BigDecimal` as (unscaled, scale), its `compareTo` and precision, and the exact conversion of amounts with at most two fraction digits to hundredths (`Money`) |
| `constants.dfy` | the message strings of `Constants` |
| `requests.dfy` | the four request DTOs and their Bean Validation constraints (`@NotNull`, `@Min`, `@DecimalMin`, `@Digits`) as sets of violations |
| `entities.dfy` | `Customer`; `Account` and `Operation` as classes whose fields the services set in place |
| `responses.dfy` | the response DTOs |
| `dto_mapper.dfy` | `DtoMapper` |
| `account_service.dfy` | `AccountService`: account and customer lookup, account creation, and the balance engine (`transfer`, `deposit`, `withdraw`) |
| `operation_service.dfy` | `OperationService`: the three money operations, the operation repository and the history |

Repositories are fields of the service classes:
- the account repository is a map from id to the managed `Account` object, with the next id to assign;
- the operation repository is the sequence of saved operations, with the next id to assign;
- the customer repository is a constant map.

The clock (`LocalDateTime.now()`) is a `now` parameter. A Java method that returns or throws becomes a method or function returning `Result` (`Ok`/`Err`) or `Outcome` (`Pass`/`Fail`).

Balances are `Money`, an integer number of hundredths. Every amount that reaches an account passes `@Digits(integer = 12, fraction = 2)`. `AmountInHundredths` proves that such an amount is exactly a whole number of hundredths: below 10^12 in units, i.e. fewer than 10^14 hundredths in magnitude. So `BigDecimal` addition, subtraction and `compareTo` on balances are integer arithmetic here.

Properties proved:
- Validity of each request DTO as an if-and-only-if over its fields.
- Transfer:
  - refused for insufficient balance first, and for the same account second;
  - otherwise conserves the total and never leaves the sender negative;
  - sending the same value back restores both balances.
- Withdrawal never leaves a negative balance, and a balance equal to the amount can be withdrawn in full.
- Each service operation:
  - changes only balances, and on failure none at all;
  - keeps every balance non-negative when all were before;
  - appends exactly one operation record when it succeeds.
- History lists exactly the stored operations that involve the account, one row each, newest first, and no row names a sender.

## Model

| member | source | states |
|---|---|---|
| Exceptions.ThrowsOnCondition | src/main/java/com/bank/ing/exception/Utils.java:11-18 | returns normally exactly when the condition is false; otherwise fails with the supplier's exception |
| Exceptions.LogMessagesDoNotMatter | src/main/java/com/bank/ing/exception/Utils.java:13-15 | the log messages have no effect on whether or what it throws |
| Exceptions.SupplierOnlyOnTrueCondition | src/main/java/com/bank/ing/exception/Utils.java:14-17 | with a false condition the supplier is never used: any supplier gives the same outcome |
| Decimals.CompareToByHundredths | src/main/java/com/bank/ing/service/AccountService.java:64 | for amounts with at most two fraction digits, `compareTo` agrees with the integer order of their hundredths in all three cases |
| Decimals.DigitsBoundHundredths | src/main/java/com/bank/ing/dto/request/RequestTransferOperationDTO.java:35 | an amount passing `@Digits(12, 2)` has scale at most 2 and fewer than 10^14 hundredths in magnitude |
| Decimals.AmountInHundredths | src/main/java/com/bank/ing/dto/request/RequestTransferOperationDTO.java:35 | a Money-format amount converts to hundredths that compare equal to it and stay below 10^14 |
| Requests.TransferViolations | src/main/java/com/bank/ing/dto/request/RequestTransferOperationDTO.java:22-36 | the set of violations the validator reports: one per failed constraint, with its field and message (null or below-1 ids, null, non-positive or ill-formatted value), and no other |
| Requests.TransferValidIff | src/main/java/com/bank/ing/dto/request/RequestTransferOperationDTO.java:22-36 | a transfer request is valid iff both ids are present and at least 1 and the value is present, positive and in Money format; equal sender and receiver ids are valid |
| Requests.TransferAmount | src/main/java/com/bank/ing/dto/request/RequestTransferOperationDTO.java:32-36 | the value of a valid transfer request is a positive number of hundredths equal to the decimal |
| Requests.TransferRejectsSenderBelowOne | src/main/java/com/bank/ing/dto/request/RequestTransferOperationDTO.java:22-25 | a sender id below 1 in an otherwise valid request is exactly one violation with INVALID_ACCOUNT_ID |
| Requests.TransferRejectsReceiverBelowOne | src/main/java/com/bank/ing/dto/request/RequestTransferOperationDTO.java:27-30 | a receiver id below 1 in an otherwise valid request is exactly one violation with INVALID_ACCOUNT_ID |
| Requests.TransferRejectsNonPositiveValue | src/main/java/com/bank/ing/dto/request/RequestTransferOperationDTO.java:34 | a well-formed value of zero or less is exactly one violation with VALUE_INVALID |
| Requests.TransferRejectsValueFormat | src/main/java/com/bank/ing/dto/request/RequestTransferOperationDTO.java:35 | a positive value outside the Money format is exactly one violation with VALUE_FORMAT_INVALID |
| Requests.TransferExamples | src/test/java/com/bank/ing/request/RequestOperationDTOTest.java:24-100 | the five transfer requests of the DTO tests give the violations the tests expect |
| Requests.CreationViolations | src/main/java/com/bank/ing/dto/request/RequestCreationAccountDTO.java:24-33 | the set of violations the validator reports: one per failed constraint, with its field and message (null or below-1 customer id, null, at-most-0.01 or ill-formatted amount), and no other |
| Requests.CreationValidIff | src/main/java/com/bank/ing/dto/request/RequestCreationAccountDTO.java:24-33 | a creation request is valid iff the customer id is at least 1 and the initial amount is in Money format and above 0.01, i.e. at least two cents |
| Requests.CreationAmount | src/main/java/com/bank/ing/dto/request/RequestCreationAccountDTO.java:29-33 | the initial amount of a valid creation request is at least 2 hundredths and equal to the decimal |
| Requests.CreationRejectsCustomerBelowOne | src/main/java/com/bank/ing/dto/request/RequestCreationAccountDTO.java:24-27 | a customer id below 1 in an otherwise valid request is exactly one violation with CUSTOMER_ID_INVALID |
| Requests.CreationRejectsAmountUpToOneCent | src/main/java/com/bank/ing/dto/request/RequestCreationAccountDTO.java:31 | a well-formed initial amount of at most 0.01 is exactly one violation with INVALID_INITIAL_AMOUNT |
| Requests.CreationRejectsAmountFormat | src/main/java/com/bank/ing/dto/request/RequestCreationAccountDTO.java:32 | an initial amount above 0.01 outside the Money format is exactly one violation with INITIAL_AMOUNT_FORMAT_INVALID |
| Requests.CreationExamples | src/test/java/com/bank/ing/request/RequestAccountDTOTest.java:26-64 | the account DTO tests' requests give the violations the tests expect |
| Requests.DepositViolations | src/main/java/com/bank/ing/dto/request/RequestDepositAccountDTO.java:24-33 | the set of violations the validator reports: one per failed constraint, with its field and message (null or below-1 account id, at-most-0.01 or ill-formatted amount; an absent amount none), and no other |
| Requests.DepositValidIff | src/main/java/com/bank/ing/dto/request/RequestDepositAccountDTO.java:24-33 | a deposit request is valid iff the account id is at least 1 and the amount is absent, or in Money format and at least two cents |
| Requests.DepositAmount | src/main/java/com/bank/ing/dto/request/RequestDepositAccountDTO.java:30-33 | a present amount of a valid deposit request is at least 2 hundredths and equal to the decimal |
| Requests.DepositExamples | src/test/java/com/bank/ing/controller/OperationControllerTest.java:68-100 | a 0.01 deposit is rejected with INVALID_DEPOSIT_AMOUNT, 100 is accepted, and an absent amount passes validation |
| Requests.WithdrawViolations | src/main/java/com/bank/ing/dto/request/RequestWithdrawAccountDTO.java:23-31 | the set of violations the validator reports: one per failed constraint, with its field and message (null or below-1 account id, ill-formatted amount), and no other |
| Requests.WithdrawValidIff | src/main/java/com/bank/ing/dto/request/RequestWithdrawAccountDTO.java:23-31 | a withdraw request is valid iff the account id is at least 1 and the amount is absent or in Money format, whatever its sign |
| Requests.WithdrawAmount | src/main/java/com/bank/ing/dto/request/RequestWithdrawAccountDTO.java:29-31 | a present amount of a valid withdraw request equals the decimal in hundredths, below 10^14 in magnitude |
| Requests.WithdrawExamples | src/main/java/com/bank/ing/dto/request/RequestWithdrawAccountDTO.java:23-31 | zero, negative and absent amounts pass validation; a null account id is one @NotNull violation |
| Ledger.WithdrawBalance | src/main/java/com/bank/ing/service/AccountService.java:91-94 | InsufficientBalance iff the balance is below the value; otherwise the new balance is non-negative and adding the value back gives the old balance |
| Ledger.TransferBalances | src/main/java/com/bank/ing/service/AccountService.java:64-69 | refused iff the sender's balance is below the value or the accounts are equal; the balance check comes first; on success the total is conserved and the sender loses exactly the value and stays non-negative |
| Ledger.TransferScenarios | src/test/java/com/bank/ing/service/AccountServiceTest.java:116-157 | 0.01 from 0.01 to 0.99 leaves 0.00 and 1.00; 0.01 from 0.00 is InsufficientBalance; 0.01 to the same account is TransferNotAllowed |
| Ledger.TransferBackRestores | src/main/java/com/bank/ing/service/AccountService.java:64-69 | a successful transfer followed by the same value sent back restores both balances |
| Ledger.WithdrawUndoesDeposit | src/main/java/com/bank/ing/service/AccountService.java:80 | withdrawing a deposited value restores the balance exactly when that balance was non-negative |
| Ledger.AccountService.GetCustomerById | src/main/java/com/bank/ing/service/AccountService.java:115-122 | the stored customer, or CustomerNotFound iff there is none |
| Ledger.AccountService.GetAccountById | src/main/java/com/bank/ing/service/AccountService.java:100-107 | a stored account carrying the requested id, or AccountNotFound iff there is none |
| Ledger.AccountService.RetrieveBalance | src/main/java/com/bank/ing/service/AccountService.java:50-58 | the requested id, the stored balance and the current time, or AccountNotFound iff the account is unknown |
| Ledger.AccountService.Transfer | src/main/java/com/bank/ing/service/AccountService.java:61-74 | the balances become those `TransferBalances` gives; on failure neither changes; a successful transfer is between distinct objects |
| Ledger.AccountService.Deposit | src/main/java/com/bank/ing/service/AccountService.java:77-84 | the balance grows by the value; nothing else changes |
| Ledger.AccountService.Withdraw | src/main/java/com/bank/ing/service/AccountService.java:88-98 | the balance becomes the one `WithdrawBalance` gives, unchanged on failure |
| Ledger.AccountService.FillMissingFields | src/main/java/com/bank/ing/service/AccountService.java:109-113 | links the customer, resets the balance to the initial deposit and stamps the time; id and initial deposit kept |
| Ledger.AccountService.SaveNew | src/main/java/com/bank/ing/service/AccountService.java:43 | a new account is stored under the next id, which it now carries; the repository stays valid |
| Ledger.AccountService.CreateNewAccount | src/main/java/com/bank/ing/service/AccountService.java:36-46 | null request: InvalidRequestAccount; unknown customer: CustomerNotFound; otherwise one fresh account under a new id with balance = initial deposit = the requested amount, the customer and the time, reported in the response; nothing else changes and no balance becomes negative |
| Ledger.AccountService.StoredAccountsEqualIffSameId | src/main/java/com/bank/ing/service/AccountService.java:67 | two stored accounts are equal exactly when they are stored under the same id, so the self-transfer check refuses exactly a transfer to the same account |
| DtoMapper.ToAccountEntity | src/main/java/com/bank/ing/service/mapper/DtoMapper.java:15-21 | a new account with balance and initial deposit both the requested amount and no other field set |
| DtoMapper.ToResponseAccountDTO | src/main/java/com/bank/ing/service/mapper/DtoMapper.java:23-31 | the account's id, balance and creation time and its customer's id |
| DtoMapper.ToTransferOperationEntity | src/main/java/com/bank/ing/service/mapper/DtoMapper.java:33-38 | a new operation carrying only the transfer value |
| DtoMapper.ToDepositOperationEntity | src/main/java/com/bank/ing/service/mapper/DtoMapper.java:40-45 | a new operation carrying only the deposit amount |
| DtoMapper.ToWithdrawOperationEntity | src/main/java/com/bank/ing/service/mapper/DtoMapper.java:48-53 | a new operation carrying only the withdraw amount |
| DtoMapper.ToResponseOperationDTO | src/main/java/com/bank/ing/service/mapper/DtoMapper.java:55-65 | id, type, value, time and both account ids of the operation |
| DtoMapper.ToResponseHistoryDTO | src/main/java/com/bank/ing/service/mapper/DtoMapper.java:67-77 | id, type, value, time and the receiver's id; the sender id is always null |
| DtoMapper.ToResponseDepositWithdrawDTO | src/main/java/com/bank/ing/service/mapper/DtoMapper.java:79-89 | id, type, value, time and the receiver's id; the sender id is always null |
| DtoMapper.DepositWithdrawIsHistoryRow | src/main/java/com/bank/ing/service/mapper/DtoMapper.java:67-89 | the deposit/withdraw response and the history row of an operation are the same |
| DtoMapper.HistoryRowBlanksSender | src/main/java/com/bank/ing/service/mapper/DtoMapper.java:55-77 | a history row is the full operation response with the sender id blanked, and equal to it iff the sender has no id |
| DtoMapper.ResponsesSeeOnlyAccountIds | src/main/java/com/bank/ing/service/mapper/DtoMapper.java:55-65 | two operations that differ only in their linked accounts give the same response iff the accounts' ids agree |
| Operations.Involving | src/main/java/com/bank/ing/service/OperationService.java:90-91 | the stored operations selected by sender id or receiver id: exactly those involving the account |
| Operations.ProjectHistory | src/main/java/com/bank/ing/service/OperationService.java:92-93 | one row per operation, in order, each its history row |
| Operations.HistoryKeepsNewestFirst | src/main/java/com/bank/ing/service/OperationService.java:91-93 | rows of newest-first operations are newest first, and no row names a sender |
| Operations.QueryHasOneRowPerOperation | src/main/java/com/bank/ing/service/OperationService.java:90-93 | the history has as many rows as there are stored operations involving the account |
| Operations.QueryRowsCoverInvolving | src/main/java/com/bank/ing/service/OperationService.java:90-93 | every stored operation involving the account has its row in the history |
| Operations.QueryRowsInvolveAccount | src/main/java/com/bank/ing/service/OperationService.java:90-93 | every history row is the row of a stored operation involving the account |
| Operations.InvolvingNone | src/main/java/com/bank/ing/service/OperationService.java:90-92 | with no stored operation involving the account the query selects nothing |
| Operations.OperationService.FillTransferFields | src/main/java/com/bank/ing/service/OperationService.java:116-121 | sender and receiver linked, type TRANSFER, time stamped; id and value kept |
| Operations.OperationService.FillDepositFields | src/main/java/com/bank/ing/service/OperationService.java:110-115 | no sender, the account as receiver, type DEPOSIT, time stamped; id and value kept |
| Operations.OperationService.FillWithdrawFields | src/main/java/com/bank/ing/service/OperationService.java:102-108 | the account ends as both sender and receiver, type WITHDRAW, time stamped; id and value kept |
| Operations.OperationService.SaveOperation | src/main/java/com/bank/ing/service/OperationService.java:49 | the operation gets the next id and its record is appended to the store |
| Operations.OperationService.RecordTransfer | src/main/java/com/bank/ing/service/OperationService.java:48-51 | one TRANSFER record naming both accounts appended; the response carries both account ids |
| Operations.OperationService.RecordDeposit | src/main/java/com/bank/ing/service/OperationService.java:62-65 | one DEPOSIT record with no sender appended; the response has no sender id |
| Operations.OperationService.RecordWithdraw | src/main/java/com/bank/ing/service/OperationService.java:77-80 | one WITHDRAW record with the account as sender and receiver appended; the response has no sender id |
| Operations.OperationService.TransferFound | src/main/java/com/bank/ing/service/OperationService.java:45-51 | with both accounts found, the engine's verdict decides: failure changes nothing; success moves both balances, touches no other, and appends one record; TransferNotAllowed iff sender = receiver with enough balance |
| Operations.OperationService.TransferOperation | src/main/java/com/bank/ing/service/OperationService.java:40-52 | null: InvalidRequestOperation; unknown sender, then unknown receiver: AccountNotFound; then the engine's verdict; only success changes balances (two) and appends one TRANSFER record; failure changes nothing; only balances ever change and none becomes negative |
| Operations.OperationService.DepositFound | src/main/java/com/bank/ing/service/OperationService.java:60-65 | the account's balance grows by the amount, no other changes, one DEPOSIT record appended |
| Operations.OperationService.DepositMoney | src/main/java/com/bank/ing/service/OperationService.java:55-66 | null: InvalidRequestOperation; unknown account: AccountNotFound, nothing changed; otherwise succeeds, adds the amount to that balance only and appends one DEPOSIT record |
| Operations.OperationService.WithdrawFound | src/main/java/com/bank/ing/service/OperationService.java:75-80 | the engine's verdict decides: InsufficientBalance changes nothing; success sets that balance only and appends one WITHDRAW record |
| Operations.OperationService.WithdrawMoney | src/main/java/com/bank/ing/service/OperationService.java:70-81 | null: InvalidRequestOperation; unknown account: AccountNotFound; InsufficientBalance iff the balance is below the amount; only success changes the balance and appends one WITHDRAW record; no balance becomes negative |
| Operations.OperationService.HistoryOperations | src/main/java/com/bank/ing/service/OperationService.java:87-99 | AccountNotFound iff the account is unknown; otherwise the requested id, the time and one history row per operation the query returned, in its order, or an empty list when it returned nothing |
| Operations.OperationService.HistoryIsComplete | src/main/java/com/bank/ing/service/OperationService.java:89-98 | a known account's history has one row per stored operation involving it, contains each such operation's row and no other |
| Operations.OperationService.EmptyHistory | src/main/java/com/bank/ing/service/OperationService.java:89-98 | an account no stored operation involves has an empty history |

## Left out

- The REST controllers, the exception handler and its HTTP status mapping: they only route requests and map exceptions. `@Valid @RequestBody` on the controllers is why the service methods require valid DTOs.
- Persistence and transactions:
  - Repositories are in-memory fields with sequential ids.
  - `@Transactional` rollback is not modelled. No operation here changes anything before its last check, so there is nothing to roll back.
  - Saving a managed account is a no-op here. Detached entities are not modelled.
- The query `findAllBySenderAccount_IdOrReceiverAccount_IdOrderByOperationDateTimeDesc` is not computed. Its answer is a parameter of `HistoryOperations`, constrained by `IsHistoryQuery`: the involving operations as a multiset, newest first, all saved.
- The clock is a parameter. Logging (`log.debug`, `log.error` and the formatted messages) is not modelled.
- Java's `NullPointerException` paths are preconditions:
  - `CreateNewAccount` on a null customer id;
  - `DepositMoney` or `WithdrawMoney` with an absent amount on an existing account.
  Unknown customers and accounts are still modelled as errors, because the lookup happens before the amount is read.
- Ledger.AccountService.CreateNewAccount: requires a valid request when the customer exists. The service itself checks nothing beyond null. It would store any non-null amount, including a negative one that breaks `NonNegative`. A null amount would leave both `balance` and `initialDepositAmount` null. The only caller, `AccountController.postAccount` with `@Valid @RequestBody`, validates the request first. `AccountService` is not `@Validated`, so its own `@Valid` has no effect.
- DtoMapper.ToAccountEntity: requires a valid request for the same reason. The Java mapper copies whatever amount it is given, including null.
- Ids are unbounded integers. `Long` overflow of the id sequence is not modelled.
- Amounts are hundredths, so `BigDecimal` scale is not kept. Balances compare equal by value here, while Java's `BigDecimal.equals`, and so `Account.equals`, also compares scale.
- `Account.equals` is modelled as equality of all of the account's field values. Stored accounts carry distinct ids, so this equality is the same as the same id (`StoredAccountsEqualIffSameId`).
- Stored operations keep a copy of their accounts' field values taken when they are saved. The JPA entities reference the live accounts instead. Only the account ids reach any response, and ids never change.
- The field names of the response DTOs `ResponseAccountDTO` and `ResponseAccountBalanceDTO` are taken from the mapper and service builders. Their class files are not part of this model.
- `Ledger.AccountService.Deposit` has no overflow or limit check, as in the source. A deposit can therefore take a balance beyond the `@Digits` bound; the model does not bound balances.
