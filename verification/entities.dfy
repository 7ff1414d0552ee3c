/** The entities: Customer, and the two JPA entities whose fields the
    services set one by one, Account and Operation. Each entity class has a
    Record() giving the values of its fields. */
module Entities {
  import opened Exceptions
  import opened Decimals

  /** A reading of the clock (LocalDateTime.now()), supplied by the caller. */
  type Timestamp = int

  datatype Customer = Customer(id: int, name: string)

  /** utils.OperationType; the entity stores its name. */
  datatype OperationType = DEPOSIT | WITHDRAW | TRANSFER

  /** The field values of an Account. Account.equals compares these. */
  datatype AccountRecord = AccountRecord(
    id: Option<int>,
    balance: Money,
    initialDepositAmount: Money,
    customer: Option<Customer>,
    creationTimestamp: Option<Timestamp>)

  class Account {
    var id: Option<int>
    var balance: Money
    var initialDepositAmount: Money
    var customer: Option<Customer>
    var creationTimestamp: Option<Timestamp>

    constructor (id: Option<int>, balance: Money, initialDepositAmount: Money,
                 customer: Option<Customer>, creationTimestamp: Option<Timestamp>)
      ensures Record() == AccountRecord(id, balance, initialDepositAmount, customer, creationTimestamp)
    {
      this.id := id;
      this.balance := balance;
      this.initialDepositAmount := initialDepositAmount;
      this.customer := customer;
      this.creationTimestamp := creationTimestamp;
    }

    function Record(): AccountRecord
      reads this
    {
      AccountRecord(id, balance, initialDepositAmount, customer, creationTimestamp)
    }
  }

  /** The field values of an Operation, with each linked account given by its
      own field values. */
  datatype OperationRecord = OperationRecord(
    id: Option<int>,
    operationType: Option<OperationType>,
    senderAccount: Option<AccountRecord>,
    receiverAccount: Option<AccountRecord>,
    value: Option<Decimal>,
    operationDateTime: Option<Timestamp>)

  class Operation {
    var id: Option<int>
    var operationType: Option<OperationType>
    var senderAccount: Account?
    var receiverAccount: Account?
    var value: Option<Decimal>
    var operationDateTime: Option<Timestamp>

    /** Operation.builder().value(value).build() */
    constructor (value: Option<Decimal>)
      ensures Record() == OperationRecord(None, None, None, None, value, None)
      ensures senderAccount == null && receiverAccount == null
    {
      this.id := None;
      this.operationType := None;
      this.senderAccount := null;
      this.receiverAccount := null;
      this.value := value;
      this.operationDateTime := None;
    }

    function Record(): OperationRecord
      reads this, senderAccount, receiverAccount
    {
      OperationRecord(
        id, operationType,
        if senderAccount == null then None else Some(senderAccount.Record()),
        if receiverAccount == null then None else Some(receiverAccount.Record()),
        value, operationDateTime)
    }
  }
}
