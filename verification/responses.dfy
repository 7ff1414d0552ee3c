/** The response DTOs under dto/response: plain records built by the mappers. */
module Responses {
  import opened Exceptions
  import opened Decimals
  import opened Entities

  /** One operation as reported to the client. */
  datatype ResponseDepositWithdrawTransferDTO = ResponseDepositWithdrawTransferDTO(
    id: Option<int>,
    typeOperation: Option<OperationType>,
    senderAccountId: Option<int>,
    receiverAccountId: Option<int>,
    value: Option<Decimal>,
    creationTimestamp: Option<Timestamp>)

  /** An account's history: the requested id and its operations. */
  datatype ResponseHistoryOperationsDTO = ResponseHistoryOperationsDTO(
    accountId: int,
    operationDTOList: seq<ResponseDepositWithdrawTransferDTO>,
    creationTimestamp: Timestamp)

  /** A created account (fields inferred from its builder calls). */
  datatype ResponseAccountDTO = ResponseAccountDTO(
    id: Option<int>,
    customerId: int,
    balance: Money,
    creationTimestamp: Option<Timestamp>)

  /** An account's balance (fields inferred from its builder calls). */
  datatype ResponseAccountBalanceDTO = ResponseAccountBalanceDTO(
    id: Option<int>,
    balance: Money,
    creationTimestamp: Timestamp)
}
