/** The four request DTOs under dto/request and their Bean Validation
    constraints. Each DTO's validation is the set of constraint violations the
    validator reports; a request is valid when that set is empty. Following
    the Bean Validation built-ins, a null value passes every constraint but
    @NotNull. */
module Requests {
  import opened Exceptions
  import opened Decimals
  import opened Constants

  /** A constraint violation: the property it is about and its message. */
  datatype Violation = Violation(field: string, message: string)

  // The built-in constraints used by the DTOs.

  /** @NotNull */
  function NotNull<T>(field: string, v: Option<T>): (vs: set<Violation>)
    ensures vs <= {Violation(field, NOT_NULL_MESSAGE)}
    ensures Violation(field, NOT_NULL_MESSAGE) in vs <==> v.None?
  {
    if v.Some? then {} else {Violation(field, NOT_NULL_MESSAGE)}
  }

  /** @Min(min) on a Long */
  function Min(field: string, v: Option<int>, min: int, message: string): (vs: set<Violation>)
    ensures vs <= {Violation(field, message)}
    ensures Violation(field, message) in vs <==> v.Some? && v.value < min
  {
    if v.Some? && v.value < min then {Violation(field, message)} else {}
  }

  /** @DecimalMin(min, inclusive = false): the value must compare above min. */
  function DecimalMinExclusive(field: string, v: Option<Decimal>, min: Decimal, message: string): (vs: set<Violation>)
    ensures vs <= {Violation(field, message)}
    ensures Violation(field, message) in vs <==> v.Some? && CompareTo(v.value, min) <= 0
  {
    if v.Some? && CompareTo(v.value, min) <= 0 then {Violation(field, message)} else {}
  }

  /** @Digits(integer, fraction), counting integer digits as precision - scale. */
  function Digits(field: string, v: Option<Decimal>, integer: nat, fraction: nat, message: string): (vs: set<Violation>)
    ensures vs <= {Violation(field, message)}
    ensures Violation(field, message) in vs <==> v.Some? && (IntegerLength(v.value) > integer || FractionLength(v.value) > fraction)
  {
    if v.Some? && (IntegerLength(v.value) > integer || FractionLength(v.value) > fraction)
    then {Violation(field, message)}
    else {}
  }

  /** An id that is present and at least 1. */
  predicate IsPositiveId(id: Option<int>)
  {
    id.Some? && id.value >= 1
  }

  /** An amount that is present, in the Money format, and worth more than
      `floor` hundredths. */
  predicate IsAmountAbove(amount: Option<Decimal>, floor: int)
  {
    amount.Some? && HasMoneyFormat(amount.value) && AmountInHundredths(amount.value) > floor
  }

  const ZERO := Decimal(0, 1)      // "0.0"
  const ONE_CENT := Decimal(1, 2)  // "0.01"

  // ---------------------------------------------------------------------
  // RequestTransferOperationDTO

  datatype RequestTransferOperationDTO = RequestTransferOperationDTO(
    senderAccountId: Option<int>,
    receiverAccountId: Option<int>,
    value: Option<Decimal>)

  /** The violations the validator reports: one per failed constraint,
      with its field and message, and no other. */
  function TransferViolations(r: RequestTransferOperationDTO): (vs: set<Violation>)
    ensures Violation("senderAccountId", NOT_NULL_MESSAGE) in vs <==> r.senderAccountId.None?
    ensures Violation("senderAccountId", INVALID_ACCOUNT_ID) in vs <==> r.senderAccountId.Some? && r.senderAccountId.value < 1
    ensures Violation("receiverAccountId", NOT_NULL_MESSAGE) in vs <==> r.receiverAccountId.None?
    ensures Violation("receiverAccountId", INVALID_ACCOUNT_ID) in vs <==> r.receiverAccountId.Some? && r.receiverAccountId.value < 1
    ensures Violation("value", NOT_NULL_MESSAGE) in vs <==> r.value.None?
    ensures Violation("value", VALUE_INVALID) in vs <==> r.value.Some? && CompareTo(r.value.value, ZERO) <= 0
    ensures Violation("value", VALUE_FORMAT_INVALID) in vs <==> r.value.Some? && !HasMoneyFormat(r.value.value)
    ensures vs <= {Violation("senderAccountId", NOT_NULL_MESSAGE), Violation("senderAccountId", INVALID_ACCOUNT_ID),
                   Violation("receiverAccountId", NOT_NULL_MESSAGE), Violation("receiverAccountId", INVALID_ACCOUNT_ID),
                   Violation("value", NOT_NULL_MESSAGE), Violation("value", VALUE_INVALID), Violation("value", VALUE_FORMAT_INVALID)}
  {
    var sender := NotNull("senderAccountId", r.senderAccountId)
      + Min("senderAccountId", r.senderAccountId, 1, INVALID_ACCOUNT_ID);
    var receiver := NotNull("receiverAccountId", r.receiverAccountId)
      + Min("receiverAccountId", r.receiverAccountId, 1, INVALID_ACCOUNT_ID);
    var value := NotNull("value", r.value)
      + DecimalMinExclusive("value", r.value, ZERO, VALUE_INVALID)
      + Digits("value", r.value, 12, 2, VALUE_FORMAT_INVALID);
    assert sender <= {Violation("senderAccountId", NOT_NULL_MESSAGE), Violation("senderAccountId", INVALID_ACCOUNT_ID)};
    assert receiver <= {Violation("receiverAccountId", NOT_NULL_MESSAGE), Violation("receiverAccountId", INVALID_ACCOUNT_ID)};
    assert value <= {Violation("value", NOT_NULL_MESSAGE), Violation("value", VALUE_INVALID), Violation("value", VALUE_FORMAT_INVALID)};
    sender + receiver + value
  }

  predicate TransferIsValid(r: RequestTransferOperationDTO)
  {
    TransferViolations(r) == {}
  }

  /** A transfer request is valid exactly when both ids are at least 1 and the
      value is a positive amount in the Money format. Equal sender and
      receiver ids are valid at this layer. */
  lemma TransferValidIff(r: RequestTransferOperationDTO)
    ensures TransferIsValid(r) <==>
      IsPositiveId(r.senderAccountId) && IsPositiveId(r.receiverAccountId) && IsAmountAbove(r.value, 0)
  {
    if r.value.Some? && HasMoneyFormat(r.value.value) {
      CompareToByHundredths(r.value.value, ZERO);
    }
  }

  /** The value of a valid transfer request in hundredths: positive. */
  function TransferAmount(r: RequestTransferOperationDTO): (a: Money)
    requires TransferIsValid(r)
    ensures r.value.Some? && CompareTo(r.value.value, Decimal(a, 2)) == 0
    ensures 0 < a < Pow10(14)
  {
    TransferValidIff(r);
    AmountInHundredths(r.value.value)
  }

  /** A sender id below 1 is the one violation of an otherwise valid request. */
  lemma TransferRejectsSenderBelowOne(r: RequestTransferOperationDTO)
    requires r.senderAccountId.Some? && r.senderAccountId.value < 1
    requires IsPositiveId(r.receiverAccountId) && IsAmountAbove(r.value, 0)
    ensures TransferViolations(r) == {Violation("senderAccountId", INVALID_ACCOUNT_ID)}
  {
    CompareToByHundredths(r.value.value, ZERO);
  }

  /** A receiver id below 1 is the one violation of an otherwise valid request. */
  lemma TransferRejectsReceiverBelowOne(r: RequestTransferOperationDTO)
    requires r.receiverAccountId.Some? && r.receiverAccountId.value < 1
    requires IsPositiveId(r.senderAccountId) && IsAmountAbove(r.value, 0)
    ensures TransferViolations(r) == {Violation("receiverAccountId", INVALID_ACCOUNT_ID)}
  {
    CompareToByHundredths(r.value.value, ZERO);
  }

  /** A well-formed value that is not above zero is reported once, as an
      invalid value. */
  lemma TransferRejectsNonPositiveValue(r: RequestTransferOperationDTO)
    requires IsPositiveId(r.senderAccountId) && IsPositiveId(r.receiverAccountId)
    requires r.value.Some? && HasMoneyFormat(r.value.value) && AmountInHundredths(r.value.value) <= 0
    ensures TransferViolations(r) == {Violation("value", VALUE_INVALID)}
  {
    CompareToByHundredths(r.value.value, ZERO);
  }

  /** A positive value outside the Money format is reported once, as an
      invalid format. */
  lemma TransferRejectsValueFormat(r: RequestTransferOperationDTO)
    requires IsPositiveId(r.senderAccountId) && IsPositiveId(r.receiverAccountId)
    requires r.value.Some? && CompareTo(r.value.value, ZERO) > 0 && !HasMoneyFormat(r.value.value)
    ensures TransferViolations(r) == {Violation("value", VALUE_FORMAT_INVALID)}
  {
  }

  /** The requests of the transfer DTO's unit tests. */
  lemma TransferExamples()
    ensures TransferIsValid(RequestTransferOperationDTO(Some(1), Some(1), Some(Decimal(1, 2))))
    ensures TransferViolations(RequestTransferOperationDTO(Some(0), Some(1), Some(Decimal(1, 2))))
      == {Violation("senderAccountId", INVALID_ACCOUNT_ID)}
    ensures TransferViolations(RequestTransferOperationDTO(Some(1), Some(-1), Some(Decimal(1, 2))))
      == {Violation("receiverAccountId", INVALID_ACCOUNT_ID)}
    ensures TransferViolations(RequestTransferOperationDTO(Some(1), Some(1), Some(Decimal(0, 0))))
      == {Violation("value", VALUE_INVALID)}
    ensures TransferViolations(RequestTransferOperationDTO(Some(1), Some(1), Some(Decimal(1, 3))))
      == {Violation("value", VALUE_FORMAT_INVALID)}
  {
  }

  // ---------------------------------------------------------------------
  // RequestCreationAccountDTO

  datatype RequestCreationAccountDTO = RequestCreationAccountDTO(
    customerId: Option<int>,
    initialDepositAmount: Option<Decimal>)

  /** The violations the validator reports: one per failed constraint,
      with its field and message, and no other. */
  function CreationViolations(r: RequestCreationAccountDTO): (vs: set<Violation>)
    ensures Violation("customerId", NOT_NULL_MESSAGE) in vs <==> r.customerId.None?
    ensures Violation("customerId", CUSTOMER_ID_INVALID) in vs <==> r.customerId.Some? && r.customerId.value < 1
    ensures Violation("initialDepositAmount", NOT_NULL_MESSAGE) in vs <==> r.initialDepositAmount.None?
    ensures Violation("initialDepositAmount", INVALID_INITIAL_AMOUNT) in vs <==>
      r.initialDepositAmount.Some? && CompareTo(r.initialDepositAmount.value, ONE_CENT) <= 0
    ensures Violation("initialDepositAmount", INITIAL_AMOUNT_FORMAT_INVALID) in vs <==>
      r.initialDepositAmount.Some? && !HasMoneyFormat(r.initialDepositAmount.value)
    ensures vs <= {Violation("customerId", NOT_NULL_MESSAGE), Violation("customerId", CUSTOMER_ID_INVALID),
                   Violation("initialDepositAmount", NOT_NULL_MESSAGE), Violation("initialDepositAmount", INVALID_INITIAL_AMOUNT),
                   Violation("initialDepositAmount", INITIAL_AMOUNT_FORMAT_INVALID)}
  {
    var customer := NotNull("customerId", r.customerId)
      + Min("customerId", r.customerId, 1, CUSTOMER_ID_INVALID);
    var amount := NotNull("initialDepositAmount", r.initialDepositAmount)
      + DecimalMinExclusive("initialDepositAmount", r.initialDepositAmount, ONE_CENT, INVALID_INITIAL_AMOUNT)
      + Digits("initialDepositAmount", r.initialDepositAmount, 12, 2, INITIAL_AMOUNT_FORMAT_INVALID);
    assert customer <= {Violation("customerId", NOT_NULL_MESSAGE), Violation("customerId", CUSTOMER_ID_INVALID)};
    assert amount <= {Violation("initialDepositAmount", NOT_NULL_MESSAGE), Violation("initialDepositAmount", INVALID_INITIAL_AMOUNT),
                      Violation("initialDepositAmount", INITIAL_AMOUNT_FORMAT_INVALID)};
    customer + amount
  }

  predicate CreationIsValid(r: RequestCreationAccountDTO)
  {
    CreationViolations(r) == {}
  }

  /** An account-creation request is valid exactly when the customer id is at
      least 1 and the initial amount is in the Money format and strictly above
      0.01, so at least two cents. */
  lemma CreationValidIff(r: RequestCreationAccountDTO)
    ensures CreationIsValid(r) <==> IsPositiveId(r.customerId) && IsAmountAbove(r.initialDepositAmount, 1)
  {
    if r.initialDepositAmount.Some? && HasMoneyFormat(r.initialDepositAmount.value) {
      CompareToByHundredths(r.initialDepositAmount.value, ONE_CENT);
    }
  }

  /** The initial amount of a valid creation request in hundredths: at
      least two cents. */
  function CreationAmount(r: RequestCreationAccountDTO): (a: Money)
    requires CreationIsValid(r)
    ensures r.initialDepositAmount.Some? && CompareTo(r.initialDepositAmount.value, Decimal(a, 2)) == 0
    ensures 2 <= a < Pow10(14)
  {
    CreationValidIff(r);
    AmountInHundredths(r.initialDepositAmount.value)
  }

  /** A customer id below 1 is the one violation of an otherwise valid request. */
  lemma CreationRejectsCustomerBelowOne(r: RequestCreationAccountDTO)
    requires r.customerId.Some? && r.customerId.value < 1
    requires IsAmountAbove(r.initialDepositAmount, 1)
    ensures CreationViolations(r) == {Violation("customerId", CUSTOMER_ID_INVALID)}
  {
    CompareToByHundredths(r.initialDepositAmount.value, ONE_CENT);
  }

  /** A well-formed initial amount of at most one cent is reported once. */
  lemma CreationRejectsAmountUpToOneCent(r: RequestCreationAccountDTO)
    requires IsPositiveId(r.customerId)
    requires r.initialDepositAmount.Some? && HasMoneyFormat(r.initialDepositAmount.value)
    requires AmountInHundredths(r.initialDepositAmount.value) <= 1
    ensures CreationViolations(r) == {Violation("initialDepositAmount", INVALID_INITIAL_AMOUNT)}
  {
    CompareToByHundredths(r.initialDepositAmount.value, ONE_CENT);
  }

  /** An initial amount above one cent but outside the Money format is
      reported once, as an invalid format. */
  lemma CreationRejectsAmountFormat(r: RequestCreationAccountDTO)
    requires IsPositiveId(r.customerId)
    requires r.initialDepositAmount.Some? && CompareTo(r.initialDepositAmount.value, ONE_CENT) > 0
    requires !HasMoneyFormat(r.initialDepositAmount.value)
    ensures CreationViolations(r) == {Violation("initialDepositAmount", INITIAL_AMOUNT_FORMAT_INVALID)}
  {
  }

  /** The requests of the account DTO's unit tests. */
  lemma CreationExamples()
    ensures CreationIsValid(RequestCreationAccountDTO(Some(1), Some(Decimal(2, 2))))
    ensures CreationViolations(RequestCreationAccountDTO(Some(0), Some(Decimal(1021, 2))))
      == {Violation("customerId", CUSTOMER_ID_INVALID)}
    ensures CreationViolations(RequestCreationAccountDTO(Some(1), Some(Decimal(0, 2))))
      == {Violation("initialDepositAmount", INVALID_INITIAL_AMOUNT)}
    ensures CreationViolations(RequestCreationAccountDTO(Some(1), Some(Decimal(1, 2))))
      == {Violation("initialDepositAmount", INVALID_INITIAL_AMOUNT)}
    ensures CreationViolations(RequestCreationAccountDTO(Some(1), Some(Decimal(1012, 3))))
      == {Violation("initialDepositAmount", INITIAL_AMOUNT_FORMAT_INVALID)}
  {
  }

  // ---------------------------------------------------------------------
  // RequestDepositAccountDTO

  datatype RequestDepositAccountDTO = RequestDepositAccountDTO(
    accountId: Option<int>,
    depositAmount: Option<Decimal>)

  /** The violations the validator reports: one per failed constraint,
      with its field and message, and no other. The deposit amount carries
      no @NotNull. */
  function DepositViolations(r: RequestDepositAccountDTO): (vs: set<Violation>)
    ensures Violation("accountId", NOT_NULL_MESSAGE) in vs <==> r.accountId.None?
    ensures Violation("accountId", ACCOUNT_NOT_FOUND_ERROR) in vs <==> r.accountId.Some? && r.accountId.value < 1
    ensures Violation("depositAmount", INVALID_DEPOSIT_AMOUNT) in vs <==>
      r.depositAmount.Some? && CompareTo(r.depositAmount.value, ONE_CENT) <= 0
    ensures Violation("depositAmount", INITIAL_AMOUNT_FORMAT_INVALID) in vs <==>
      r.depositAmount.Some? && !HasMoneyFormat(r.depositAmount.value)
    ensures vs <= {Violation("accountId", NOT_NULL_MESSAGE), Violation("accountId", ACCOUNT_NOT_FOUND_ERROR),
                   Violation("depositAmount", INVALID_DEPOSIT_AMOUNT), Violation("depositAmount", INITIAL_AMOUNT_FORMAT_INVALID)}
  {
    NotNull("accountId", r.accountId)
    + Min("accountId", r.accountId, 1, ACCOUNT_NOT_FOUND_ERROR)
    + DecimalMinExclusive("depositAmount", r.depositAmount, ONE_CENT, INVALID_DEPOSIT_AMOUNT)
    + Digits("depositAmount", r.depositAmount, 12, 2, INITIAL_AMOUNT_FORMAT_INVALID)
  }

  predicate DepositIsValid(r: RequestDepositAccountDTO)
  {
    DepositViolations(r) == {}
  }

  /** A deposit request is valid exactly when the account id is at least 1 and
      the amount is either absent or in the Money format and at least two
      cents. */
  lemma DepositValidIff(r: RequestDepositAccountDTO)
    ensures DepositIsValid(r) <==>
      IsPositiveId(r.accountId) && (r.depositAmount.None? || IsAmountAbove(r.depositAmount, 1))
  {
    if r.depositAmount.Some? && HasMoneyFormat(r.depositAmount.value) {
      CompareToByHundredths(r.depositAmount.value, ONE_CENT);
    }
  }

  /** The amount of a valid deposit request that carries one, in
      hundredths: at least two cents. */
  function DepositAmount(r: RequestDepositAccountDTO): (a: Money)
    requires DepositIsValid(r) && r.depositAmount.Some?
    ensures CompareTo(r.depositAmount.value, Decimal(a, 2)) == 0
    ensures 2 <= a < Pow10(14)
  {
    DepositValidIff(r);
    AmountInHundredths(r.depositAmount.value)
  }

  /** The deposits of the operation controller's tests: 0.01 is rejected,
      100 is accepted, and an absent amount passes validation. */
  lemma DepositExamples()
    ensures DepositViolations(RequestDepositAccountDTO(Some(1), Some(Decimal(1, 2))))
      == {Violation("depositAmount", INVALID_DEPOSIT_AMOUNT)}
    ensures DepositIsValid(RequestDepositAccountDTO(Some(1), Some(Decimal(100, 0))))
    ensures DepositIsValid(RequestDepositAccountDTO(Some(1), None))
  {
  }

  // ---------------------------------------------------------------------
  // RequestWithdrawAccountDTO

  datatype RequestWithdrawAccountDTO = RequestWithdrawAccountDTO(
    accountId: Option<int>,
    withdrawAmount: Option<Decimal>)

  /** The violations the validator reports: one per failed constraint,
      with its field and message, and no other. The withdraw amount carries
      neither @NotNull nor a lower bound. */
  function WithdrawViolations(r: RequestWithdrawAccountDTO): (vs: set<Violation>)
    ensures Violation("accountId", NOT_NULL_MESSAGE) in vs <==> r.accountId.None?
    ensures Violation("accountId", ACCOUNT_NOT_FOUND_ERROR) in vs <==> r.accountId.Some? && r.accountId.value < 1
    ensures Violation("withdrawAmount", INITIAL_AMOUNT_FORMAT_INVALID) in vs <==>
      r.withdrawAmount.Some? && !HasMoneyFormat(r.withdrawAmount.value)
    ensures vs <= {Violation("accountId", NOT_NULL_MESSAGE), Violation("accountId", ACCOUNT_NOT_FOUND_ERROR),
                   Violation("withdrawAmount", INITIAL_AMOUNT_FORMAT_INVALID)}
  {
    NotNull("accountId", r.accountId)
    + Min("accountId", r.accountId, 1, ACCOUNT_NOT_FOUND_ERROR)
    + Digits("withdrawAmount", r.withdrawAmount, 12, 2, INITIAL_AMOUNT_FORMAT_INVALID)
  }

  predicate WithdrawIsValid(r: RequestWithdrawAccountDTO)
  {
    WithdrawViolations(r) == {}
  }

  /** A withdraw request is valid exactly when the account id is at least 1 and
      the amount is absent or in the Money format, whatever its sign. */
  lemma WithdrawValidIff(r: RequestWithdrawAccountDTO)
    ensures WithdrawIsValid(r) <==>
      IsPositiveId(r.accountId) && (r.withdrawAmount.None? || HasMoneyFormat(r.withdrawAmount.value))
  {
  }

  /** The amount of a valid withdraw request that carries one, in
      hundredths; it may be zero or negative. */
  function WithdrawAmount(r: RequestWithdrawAccountDTO): (a: Money)
    requires WithdrawIsValid(r) && r.withdrawAmount.Some?
    ensures CompareTo(r.withdrawAmount.value, Decimal(a, 2)) == 0
    ensures Abs(a) < Pow10(14)
  {
    WithdrawValidIff(r);
    AmountInHundredths(r.withdrawAmount.value)
  }

  /** Zero, negative and absent withdraw amounts all pass validation. */
  lemma WithdrawExamples()
    ensures WithdrawIsValid(RequestWithdrawAccountDTO(Some(1), Some(Decimal(0, 0))))
    ensures WithdrawIsValid(RequestWithdrawAccountDTO(Some(1), Some(Decimal(-100, 2))))
    ensures WithdrawIsValid(RequestWithdrawAccountDTO(Some(1), None))
    ensures WithdrawViolations(RequestWithdrawAccountDTO(None, Some(Decimal(1, 0))))
      == {Violation("accountId", NOT_NULL_MESSAGE)}
  {
    assert DigitCount(100) == 3;
    WithdrawValidIff(RequestWithdrawAccountDTO(Some(1), Some(Decimal(-100, 2))));
  }
}
