/** The error channel of the services: the exception classes they throw, a
    nullable-value wrapper, and the conditional-raise helper every check goes
    through (exception/Utils.java). A Java method that either returns or throws
    becomes a function or method returning a Result or an Outcome. */
module Exceptions {

  /** A Java reference that may be null. */
  datatype Option<+T> = None | Some(value: T)

  /** One constructor per exception class raised by the services. */
  datatype BankError =
    | InvalidRequestAccount
    | InvalidRequestOperation
    | CustomerNotFound
    | AccountNotFound
    | InsufficientBalance
    | TransferNotAllowed

  /** The end of a void method: it returned normally, or it threw. */
  datatype Outcome = Pass | Fail(error: BankError)

  /** The end of a value-returning method: its value, or what it threw. */
  datatype Result<+T> = Ok(value: T) | Err(error: BankError)

  /** Utils.throwsOnCondition: raises the supplier's exception when the
      condition holds and returns normally otherwise. The log messages are
      only written out, so they take no part in the outcome. */
  function ThrowsOnCondition(condition: bool, supplier: () -> BankError, logMessages: seq<string>): (o: Outcome)
    ensures o.Pass? <==> !condition
    ensures o.Fail? ==> o.error == supplier()
  {
    if condition then Fail(supplier()) else Pass
  }

  /** The outcome does not depend on the log messages. */
  lemma LogMessagesDoNotMatter(condition: bool, supplier: () -> BankError, m1: seq<string>, m2: seq<string>)
    ensures ThrowsOnCondition(condition, supplier, m1) == ThrowsOnCondition(condition, supplier, m2)
  {
  }

  /** With a false condition the supplier is never consulted: any two
      suppliers give the same outcome. */
  lemma SupplierOnlyOnTrueCondition(supplier1: () -> BankError, supplier2: () -> BankError, logMessages: seq<string>)
    ensures ThrowsOnCondition(false, supplier1, logMessages) == ThrowsOnCondition(false, supplier2, logMessages)
  {
  }
}
