/** service/AccountService.java: the ledger engine. It looks accounts and
    customers up in their repositories, creates accounts, and moves money by
    setting account balances in place. The repositories are maps from ids;
    the clock is the `now` parameter. */
module Ledger {
  import opened Exceptions
  import opened Decimals
  import opened Constants
  import opened Requests
  import opened Entities
  import opened Responses
  import DtoMapper

  /** The balance withdraw leaves: InsufficientBalance exactly when the
      balance is below the value, so a balance equal to the value can be
      withdrawn in full; otherwise the balance less the value, never
      negative. */
  function WithdrawBalance(balance: Money, value: Money): (r: Result<Money>)
    ensures r.Err? <==> balance < value
    ensures r.Err? ==> r.error == InsufficientBalance
    ensures r.Ok? ==> r.value >= 0 && r.value + value == balance
  {
    match ThrowsOnCondition(balance < value, () => InsufficientBalance, [INSUFFICIENT_BALANCE_ERROR])
    case Fail(e) => Err(e)
    case Pass => Ok(balance - value)
  }

  /** The sender and receiver balances transfer leaves. The balance check
      comes first: an underfunded transfer is InsufficientBalance even from
      an account to itself. A funded transfer between equal accounts is
      TransferNotAllowed. Otherwise the value moves from sender to receiver:
      the total is conserved and the sender is not left negative. */
  function TransferBalances(sender: AccountRecord, receiver: AccountRecord, value: Money): (r: Result<(Money, Money)>)
    ensures r.Err? <==> sender.balance < value || sender == receiver
    ensures sender.balance < value ==> r == Err(InsufficientBalance)
    ensures sender.balance >= value && sender == receiver ==> r == Err(TransferNotAllowed)
    ensures r.Ok? ==> r.value.0 + r.value.1 == sender.balance + receiver.balance
    ensures r.Ok? ==> r.value.0 >= 0 && r.value.0 + value == sender.balance
  {
    match ThrowsOnCondition(sender.balance < value, () => InsufficientBalance, [INSUFFICIENT_BALANCE_ERROR])
    case Fail(e) => Err(e)
    case Pass =>
      match ThrowsOnCondition(sender == receiver, () => TransferNotAllowed, [])
      case Fail(e) => Err(e)
      case Pass => Ok((sender.balance - value, receiver.balance + value))
  }

  /** The transfers of the service tests: 0.01 from 0.01 to 0.99 leaves
      0.00 and 1.00; 0.01 from 0.00 is refused for the balance; 0.01 from an
      account to itself is refused as a self-transfer. */
  lemma TransferScenarios()
    ensures TransferBalances(AccountRecord(Some(1), 1, 0, None, None), AccountRecord(Some(2), 99, 0, None, None), 1) == Ok((0, 100))
    ensures TransferBalances(AccountRecord(Some(1), 0, 0, None, None), AccountRecord(Some(2), 100, 0, None, None), 1) == Err(InsufficientBalance)
    ensures TransferBalances(AccountRecord(Some(1), 100, 0, None, None), AccountRecord(Some(1), 100, 0, None, None), 1) == Err(TransferNotAllowed)
  {
  }

  /** A successful transfer followed by the same value sent back restores
      both balances, for accounts with distinct ids and a receiver that
      was not overdrawn. */
  lemma TransferBackRestores(sender: AccountRecord, receiver: AccountRecord, value: Money)
    requires sender.id != receiver.id && receiver.balance >= 0
    requires TransferBalances(sender, receiver, value).Ok?
    ensures var moved := TransferBalances(sender, receiver, value).value;
      TransferBalances(receiver.(balance := moved.1), sender.(balance := moved.0), value) == Ok((receiver.balance, sender.balance))
  {
  }

  /** A successful withdraw of a deposited value restores the balance the
      deposit started from. */
  lemma WithdrawUndoesDeposit(balance: Money, value: Money)
    requires value >= 0
    ensures WithdrawBalance(balance + value, value) == Ok(balance) <==> balance >= 0
  {
  }

  class AccountService {
    /** The account repository: every stored account under its id. Stored
        accounts are managed: a balance set on one is what is stored. */
    var accounts: map<int, Account>
    /** The id the repository gives to the next account it stores. */
    var nextAccountId: int
    /** The customer repository. */
    const customers: map<int, Customer>

    /** Every account and customer is stored under its own id, and the next
        id is fresh. */
    ghost predicate Valid()
      reads this, accounts.Values
    {
      1 <= nextAccountId &&
      (forall id | id in accounts :: accounts[id].id == Some(id) && id < nextAccountId) &&
      (forall id | id in customers :: customers[id].id == id)
    }

    /** No stored account is overdrawn. */
    ghost predicate NonNegative()
      reads this, accounts.Values
    {
      forall id | id in accounts :: accounts[id].balance >= 0
    }

    constructor (customers: map<int, Customer>)
      requires forall id | id in customers :: customers[id].id == id
      ensures Valid() && NonNegative()
      ensures accounts == map[] && this.customers == customers
    {
      accounts := map[];
      nextAccountId := 1;
      this.customers := customers;
    }

    /** getCustomerById: the stored customer, or CustomerNotFound. */
    function GetCustomerById(customerId: int): (r: Result<Customer>)
      ensures r.Err? <==> customerId !in customers
      ensures r.Err? ==> r.error == CustomerNotFound
      ensures r.Ok? ==> r.value == customers[customerId]
    {
      if customerId in customers then Ok(customers[customerId]) else Err(CustomerNotFound)
    }

    /** getAccountById: the stored account, which carries the requested id,
        or AccountNotFound. */
    function GetAccountById(accountId: int): (r: Result<Account>)
      requires Valid()
      reads this, accounts.Values
      ensures r.Err? <==> accountId !in accounts
      ensures r.Err? ==> r.error == AccountNotFound
      ensures r.Ok? ==> r.value in accounts.Values && r.value.id == Some(accountId)
    {
      if accountId in accounts then Ok(accounts[accountId]) else Err(AccountNotFound)
    }

    /** retrieveBalance: the stored balance of the account with its id and
        the current time, or AccountNotFound. */
    function RetrieveBalance(accountId: int, now: Timestamp): (r: Result<ResponseAccountBalanceDTO>)
      requires Valid()
      reads this, accounts.Values
      ensures r.Err? <==> accountId !in accounts
      ensures r.Err? ==> r.error == AccountNotFound
      ensures r.Ok? ==> r.value == ResponseAccountBalanceDTO(Some(accountId), accounts[accountId].balance, now)
    {
      match GetAccountById(accountId)
      case Err(e) => Err(e)
      case Ok(account) => Ok(ResponseAccountBalanceDTO(account.id, account.balance, now))
    }

    /** transfer: the balances become those TransferBalances gives for the
        accounts as they were, and on failure neither balance changes. A
        successful transfer is between two distinct accounts. Saving the
        managed accounts stores the new balances. */
    method Transfer(sender: Account, receiver: Account, value: Money) returns (o: Outcome)
      modifies sender`balance, receiver`balance
      ensures var r := TransferBalances(old(sender.Record()), old(receiver.Record()), value);
        (r.Err? ==> o == Fail(r.error) && sender.balance == old(sender.balance) && receiver.balance == old(receiver.balance)) &&
        (r.Ok? ==> o == Pass && sender != receiver && sender.balance == r.value.0 && receiver.balance == r.value.1)
    {
      o := ThrowsOnCondition(sender.balance < value, () => InsufficientBalance, [INSUFFICIENT_BALANCE_ERROR]);
      if o.Fail? {
        return;
      }
      o := ThrowsOnCondition(sender.Record() == receiver.Record(), () => TransferNotAllowed, []);
      if o.Fail? {
        return;
      }
      sender.balance := sender.balance - value;
      receiver.balance := receiver.balance + value;
    }

    /** deposit: adds the value to the balance; it cannot fail. */
    method Deposit(account: Account, value: Money)
      modifies account`balance
      ensures account.balance == old(account.balance) + value
    {
      account.balance := account.balance + value;
    }

    /** withdraw: the balance becomes the one WithdrawBalance gives, and on
        failure it does not change. */
    method Withdraw(account: Account, value: Money) returns (o: Outcome)
      modifies account`balance
      ensures var r := WithdrawBalance(old(account.balance), value);
        (r.Err? ==> o == Fail(r.error) && account.balance == old(account.balance)) &&
        (r.Ok? ==> o == Pass && account.balance == r.value)
    {
      o := ThrowsOnCondition(account.balance < value, () => InsufficientBalance, [INSUFFICIENT_BALANCE_ERROR]);
      if o.Fail? {
        return;
      }
      account.balance := account.balance - value;
    }

    /** fillMissingFields: links the customer, sets the balance to the
        initial deposit and stamps the creation time. */
    method FillMissingFields(account: Account, customer: Customer, now: Timestamp)
      modifies account`customer, account`balance, account`creationTimestamp
      ensures account.Record() == old(account.Record()).(customer := Some(customer), balance := old(account.initialDepositAmount), creationTimestamp := Some(now))
    {
      account.customer := Some(customer);
      account.balance := account.initialDepositAmount;
      account.creationTimestamp := Some(now);
    }

    /** accountRepository.save of a new account: it is stored under the next
        id, which it now carries. */
    method SaveNew(account: Account)
      requires Valid() && account.id.None?
      modifies this, account`id
      ensures Valid()
      ensures account.id == Some(old(nextAccountId))
      ensures accounts == old(accounts)[old(nextAccountId) := account]
      ensures nextAccountId == old(nextAccountId) + 1
    {
      account.id := Some(nextAccountId);
      accounts := accounts[nextAccountId := account];
      nextAccountId := nextAccountId + 1;
    }

    /** createNewAccount: a null request is InvalidRequestAccount and an
        unknown customer CustomerNotFound, with nothing stored; the customer
        is looked up before the amount is read, so only a request whose
        customer exists must carry a valid amount. Otherwise a
        new account is stored under the next id, linked to the customer,
        with balance and initial deposit equal to the requested amount and
        the current time; the response reports it. */
    method CreateNewAccount(request: Option<RequestCreationAccountDTO>, now: Timestamp) returns (r: Result<ResponseAccountDTO>)
      requires Valid()
      requires request.Some? ==> request.value.customerId.Some?
      requires request.Some? && request.value.customerId.value in customers ==> CreationIsValid(request.value)
      modifies this
      ensures Valid()
      ensures old(NonNegative()) ==> NonNegative()
      ensures request.None? ==> r == Err(InvalidRequestAccount)
      ensures request.Some? && request.value.customerId.value !in customers ==> r == Err(CustomerNotFound)
      ensures r.Ok? <==> request.Some? && request.value.customerId.value in customers
      ensures r.Err? ==> accounts == old(accounts) && nextAccountId == old(nextAccountId)
      ensures r.Ok? ==>
        var id, customerId, amount := old(nextAccountId), request.value.customerId.value, CreationAmount(request.value);
        && id !in old(accounts) && id in accounts
        && accounts == old(accounts)[id := accounts[id]]
        && nextAccountId == id + 1
        && fresh(accounts[id])
        && accounts[id].Record() == AccountRecord(Some(id), amount, amount, Some(customers[customerId]), Some(now))
        && r.value == ResponseAccountDTO(Some(id), customerId, amount, Some(now))
    {
      var checked := ThrowsOnCondition(request.None?, () => InvalidRequestAccount, [MESSAGE_NULL_REQUEST_ACCOUNT_DTO_ERROR]);
      if checked.Fail? {
        return Err(checked.error);
      }
      var dto := request.value;
      var found := GetCustomerById(dto.customerId.value);
      if found.Err? {
        return Err(found.error);
      }
      var account := DtoMapper.ToAccountEntity(dto);
      FillMissingFields(account, found.value, now);
      SaveNew(account);
      r := Ok(DtoMapper.ToResponseAccountDTO(account.Record()));
    }

    /** Between the two states only balances changed: the same accounts
        under the same ids, each with its id, initial deposit, customer and
        creation time kept. */
    twostate predicate OnlyBalancesChanged()
      reads this, accounts.Values
    {
      accounts == old(accounts) && nextAccountId == old(nextAccountId) &&
      forall id | id in accounts :: accounts[id].Record() == old(accounts[id].Record()).(balance := accounts[id].balance)
    }

    /** Between the two states no stored balance changed, except possibly
        those of the accounts stored under s and v. */
    twostate predicate BalancesKeptExcept(s: int, v: int)
      reads this, accounts.Values
    {
      accounts == old(accounts) &&
      forall id | id in accounts && id != s && id != v :: accounts[id].balance == old(accounts[id].balance)
    }

    /** Between the two states no stored balance changed. */
    twostate predicate BalancesKept()
      reads this, accounts.Values
    {
      accounts == old(accounts) &&
      forall id | id in accounts :: accounts[id].balance == old(accounts[id].balance)
    }

    /** Every stored account is among the stored values. */
    lemma StoredAccountsAreValues()
      ensures forall id | id in accounts :: accounts[id] in accounts.Values
    {
    }

    /** Two stored accounts are equal, in the sense of the self-transfer
        check, exactly when they are stored under the same id. */
    lemma StoredAccountsEqualIffSameId(id1: int, id2: int)
      requires Valid() && id1 in accounts && id2 in accounts
      ensures accounts[id1].Record() == accounts[id2].Record() <==> id1 == id2
    {
    }
  }
}
