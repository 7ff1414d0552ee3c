/** The message strings of configuration/Constants.java used by the
    validation constraints and the log lines, and the validator's own
    message for @NotNull. */
module Constants {
  const CUSTOMER_ID_INVALID := "Invalid customer_id"
  const INVALID_ACCOUNT_ID := "Invalid account_id"
  const INVALID_INITIAL_AMOUNT := "Invalid initial_amount"
  const INVALID_DEPOSIT_AMOUNT := "Invalid deposit_amount"
  const INITIAL_AMOUNT_FORMAT_INVALID := "Invalid initial amount format"
  const VALUE_INVALID := "Invalid value"
  const VALUE_FORMAT_INVALID := "Invalid value format"
  const MESSAGE_NULL_REQUEST_ACCOUNT_DTO_ERROR := "Request account dto is null"
  const MESSAGE_NULL_REQUEST_OPERATION_DTO_ERROR := "Request operation dto is null"
  const CUSTOMER_NOT_FOUND_ID := "Customer not found id={}"
  const ACCOUNT_NOT_FOUND_ERROR := "Account not found id={}"
  const INSUFFICIENT_BALANCE_ERROR := "Insufficiente balance in Account id=%d"

  /** The default message of the @NotNull constraint. */
  const NOT_NULL_MESSAGE := "must not be null"
}
