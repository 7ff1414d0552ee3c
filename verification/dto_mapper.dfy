/** service/mapper/DtoMapper.java: the builders between request DTOs,
    entities and response DTOs. The entity builders allocate a new entity;
    the response builders read an entity's field values, given here as its
    Record(). */
module DtoMapper {
  import opened Exceptions
  import opened Decimals
  import opened Requests
  import opened Entities
  import opened Responses

  /** toAccountEntity: a new account whose initial deposit and balance are
      both the requested initial amount; nothing else is set. The amount is
      a balance, so the request is one that passed validation. */
  method ToAccountEntity(request: RequestCreationAccountDTO) returns (account: Account)
    requires CreationIsValid(request)
    ensures fresh(account)
    ensures account.Record() == AccountRecord(None, CreationAmount(request), CreationAmount(request), None, None)
  {
    var amount := CreationAmount(request);
    account := new Account(None, amount, amount, None, None);
  }

  /** toResponseAccountDTO: the account's id, balance and creation time, and
      the id of its customer, which must be set. */
  function ToResponseAccountDTO(account: AccountRecord): (r: ResponseAccountDTO)
    requires account.customer.Some?
    ensures r.customerId == account.customer.value.id
    ensures r.id == account.id && r.balance == account.balance
    ensures r.creationTimestamp == account.creationTimestamp
  {
    ResponseAccountDTO(account.id, account.customer.value.id, account.balance, account.creationTimestamp)
  }

  /** toTransferOperationEntity: a new operation carrying only the value. */
  method ToTransferOperationEntity(request: RequestTransferOperationDTO) returns (operation: Operation)
    ensures fresh(operation)
    ensures operation.senderAccount == null && operation.receiverAccount == null
    ensures operation.Record() == OperationRecord(None, None, None, None, request.value, None)
  {
    operation := new Operation(request.value);
  }

  /** toDepositOperationEntity: a new operation carrying only the deposit
      amount. */
  method ToDepositOperationEntity(request: RequestDepositAccountDTO) returns (operation: Operation)
    ensures fresh(operation)
    ensures operation.senderAccount == null && operation.receiverAccount == null
    ensures operation.Record() == OperationRecord(None, None, None, None, request.depositAmount, None)
  {
    operation := new Operation(request.depositAmount);
  }

  /** toWithdrawOperationEntity: a new operation carrying only the withdraw
      amount. */
  method ToWithdrawOperationEntity(request: RequestWithdrawAccountDTO) returns (operation: Operation)
    ensures fresh(operation)
    ensures operation.senderAccount == null && operation.receiverAccount == null
    ensures operation.Record() == OperationRecord(None, None, None, None, request.withdrawAmount, None)
  {
    operation := new Operation(request.withdrawAmount);
  }

  /** toResponseOperationDTO: copies the operation's id, type, value and
      time, and the ids of both linked accounts; both accounts are
      dereferenced, so both must be set. */
  function ToResponseOperationDTO(operation: OperationRecord): (r: ResponseDepositWithdrawTransferDTO)
    requires operation.senderAccount.Some? && operation.receiverAccount.Some?
    ensures r.senderAccountId == operation.senderAccount.value.id
    ensures r.receiverAccountId == operation.receiverAccount.value.id
    ensures r.id == operation.id && r.typeOperation == operation.operationType
    ensures r.value == operation.value && r.creationTimestamp == operation.operationDateTime
  {
    ResponseDepositWithdrawTransferDTO(
      operation.id, operation.operationType,
      operation.senderAccount.value.id, operation.receiverAccount.value.id,
      operation.value, operation.operationDateTime)
  }

  /** toResponseHistoryDTO: as toResponseOperationDTO, but the sender id is
      always null and only the receiver is dereferenced. */
  function ToResponseHistoryDTO(operation: OperationRecord): (r: ResponseDepositWithdrawTransferDTO)
    requires operation.receiverAccount.Some?
    ensures r.senderAccountId.None?
    ensures r.receiverAccountId == operation.receiverAccount.value.id
    ensures r.id == operation.id && r.typeOperation == operation.operationType
    ensures r.value == operation.value && r.creationTimestamp == operation.operationDateTime
  {
    ResponseDepositWithdrawTransferDTO(
      operation.id, operation.operationType,
      None, operation.receiverAccount.value.id,
      operation.value, operation.operationDateTime)
  }

  /** toResponseDepositWithdrawDTO: the same builder as toResponseHistoryDTO,
      field for field. */
  function ToResponseDepositWithdrawDTO(operation: OperationRecord): (r: ResponseDepositWithdrawTransferDTO)
    requires operation.receiverAccount.Some?
    ensures r.senderAccountId.None?
    ensures r.receiverAccountId == operation.receiverAccount.value.id
    ensures r.id == operation.id && r.typeOperation == operation.operationType
    ensures r.value == operation.value && r.creationTimestamp == operation.operationDateTime
  {
    ResponseDepositWithdrawTransferDTO(
      operation.id, operation.operationType,
      None, operation.receiverAccount.value.id,
      operation.value, operation.operationDateTime)
  }

  /** The deposit/withdraw response and the history row of an operation are
      the same response. */
  lemma DepositWithdrawIsHistoryRow(operation: OperationRecord)
    requires operation.receiverAccount.Some?
    ensures ToResponseDepositWithdrawDTO(operation) == ToResponseHistoryDTO(operation)
  {
  }

  /** The history row of an operation with both accounts set is its full
      response with the sender id blanked, and nothing else differs. */
  lemma HistoryRowBlanksSender(operation: OperationRecord)
    requires operation.senderAccount.Some? && operation.receiverAccount.Some?
    ensures ToResponseHistoryDTO(operation) == ToResponseOperationDTO(operation).(senderAccountId := None)
    ensures ToResponseHistoryDTO(operation) == ToResponseOperationDTO(operation) <==> operation.senderAccount.value.id.None?
  {
  }

  /** The responses depend on the linked accounts only through their ids:
      balances and the other account fields never reach the client. */
  lemma ResponsesSeeOnlyAccountIds(o1: OperationRecord, o2: OperationRecord)
    requires o1.senderAccount.Some? && o1.receiverAccount.Some?
    requires o2.senderAccount.Some? && o2.receiverAccount.Some?
    requires o1.(senderAccount := None, receiverAccount := None) == o2.(senderAccount := None, receiverAccount := None)
    ensures ToResponseOperationDTO(o1) == ToResponseOperationDTO(o2)
      <==> o1.senderAccount.value.id == o2.senderAccount.value.id && o1.receiverAccount.value.id == o2.receiverAccount.value.id
  {
  }
}
