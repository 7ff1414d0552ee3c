/** service/OperationService.java: the three money operations and the
    history. Each operation rejects a null request, resolves its accounts,
    lets the ledger engine move the money and only then fills in and saves
    an operation record. The operation repository is the sequence of saved
    operations in save order; the clock is the `now` parameter. */
module Operations {
  import opened Exceptions
  import opened Decimals
  import opened Constants
  import opened Requests
  import opened Entities
  import opened Responses
  import opened DtoMapper
  import opened Ledger

  /** A saved operation: it has an id, a type, a receiver and a time. */
  predicate IsSaved(operation: OperationRecord)
  {
    operation.id.Some? && operation.operationType.Some? &&
    operation.receiverAccount.Some? && operation.operationDateTime.Some?
  }

  /** The operation has the account as its sender or as its receiver. */
  predicate InvolvesAccount(operation: OperationRecord, accountId: int)
  {
    (operation.senderAccount.Some? && operation.senderAccount.value.id == Some(accountId)) ||
    (operation.receiverAccount.Some? && operation.receiverAccount.value.id == Some(accountId))
  }

  /** The stored operations whose sender id or receiver id is the account:
      the rows findAllBySenderAccount_IdOrReceiverAccount_Id selects, in
      store order. */
  function Involving(store: seq<OperationRecord>, accountId: int): (r: seq<OperationRecord>)
    ensures forall op | op in r :: op in store && InvolvesAccount(op, accountId)
    ensures forall op | op in store && InvolvesAccount(op, accountId) :: op in r
  {
    if store == [] then []
    else (if InvolvesAccount(store[0], accountId) then [store[0]] else []) + Involving(store[1..], accountId)
  }

  /** Most recent first, as OrderByOperationDateTimeDesc sorts. */
  predicate NewestFirst(ops: seq<OperationRecord>)
  {
    forall i, j | 0 <= i < j < |ops| ::
      ops[i].operationDateTime.Some? && ops[j].operationDateTime.Some? &&
      ops[j].operationDateTime.value <= ops[i].operationDateTime.value
  }

  /** What the history query of the operation repository returns: saved
      operations, exactly those of the store that involve the account, each
      as often as it is stored, most recent first. */
  predicate IsHistoryQuery(store: seq<OperationRecord>, accountId: int, result: seq<OperationRecord>)
  {
    && multiset(result) == multiset(Involving(store, accountId))
    && NewestFirst(result)
    && (forall i | 0 <= i < |result| :: IsSaved(result[i]))
  }

  /** The stream map(toResponseHistoryDTO): one row per operation, in the
      same order, each the history row of its operation. */
  function ProjectHistory(ops: seq<OperationRecord>): (rows: seq<ResponseDepositWithdrawTransferDTO>)
    requires forall i | 0 <= i < |ops| :: ops[i].receiverAccount.Some?
    ensures |rows| == |ops|
    ensures forall i | 0 <= i < |ops| :: rows[i] == ToResponseHistoryDTO(ops[i])
  {
    if ops == [] then [] else [ToResponseHistoryDTO(ops[0])] + ProjectHistory(ops[1..])
  }

  /** The rows keep the operations' newest-first order, and no row names a
      sender. */
  lemma HistoryKeepsNewestFirst(ops: seq<OperationRecord>)
    requires forall i | 0 <= i < |ops| :: ops[i].receiverAccount.Some?
    requires NewestFirst(ops)
    ensures var rows := ProjectHistory(ops);
      forall i, j | 0 <= i < j < |rows| ::
        rows[i].creationTimestamp.Some? && rows[j].creationTimestamp.Some? &&
        rows[j].creationTimestamp.value <= rows[i].creationTimestamp.value
    ensures forall row | row in ProjectHistory(ops) :: row.senderAccountId.None?
  {
    var rows := ProjectHistory(ops);
    forall i, j | 0 <= i < j < |rows|
      ensures rows[i].creationTimestamp.Some? && rows[j].creationTimestamp.Some?
      ensures rows[j].creationTimestamp.value <= rows[i].creationTimestamp.value
    {
      assert rows[i].creationTimestamp == ops[i].operationDateTime;
      assert rows[j].creationTimestamp == ops[j].operationDateTime;
    }
  }

  /** A history query answer has one operation per stored operation that
      involves the account. */
  lemma QueryHasOneRowPerOperation(store: seq<OperationRecord>, accountId: int, found: seq<OperationRecord>)
    requires IsHistoryQuery(store, accountId, found)
    ensures |ProjectHistory(found)| == |Involving(store, accountId)|
  {
    calc {
      |found|;
      |multiset(found)|;
      |multiset(Involving(store, accountId))|;
      |Involving(store, accountId)|;
    }
  }

  /** Every stored operation that involves the account has its history row
      among the rows of the query answer. */
  lemma QueryRowsCoverInvolving(store: seq<OperationRecord>, accountId: int, found: seq<OperationRecord>)
    requires forall op | op in store :: op.receiverAccount.Some?
    requires IsHistoryQuery(store, accountId, found)
    ensures forall op | op in store && InvolvesAccount(op, accountId) :: ToResponseHistoryDTO(op) in ProjectHistory(found)
  {
    var rows := ProjectHistory(found);
    forall op | op in store && InvolvesAccount(op, accountId)
      ensures ToResponseHistoryDTO(op) in rows
    {
      assert op in multiset(Involving(store, accountId));
      var i :| 0 <= i < |found| && found[i] == op;
      assert rows[i] == ToResponseHistoryDTO(op);
    }
  }

  /** Every row of the query answer is the history row of a stored
      operation that involves the account. */
  lemma QueryRowsInvolveAccount(store: seq<OperationRecord>, accountId: int, found: seq<OperationRecord>)
    requires forall op | op in store :: op.receiverAccount.Some?
    requires IsHistoryQuery(store, accountId, found)
    ensures forall row | row in ProjectHistory(found) ::
      exists op | op in store && InvolvesAccount(op, accountId) :: row == ToResponseHistoryDTO(op)
  {
    var rows := ProjectHistory(found);
    forall row | row in rows
      ensures exists op | op in store && InvolvesAccount(op, accountId) :: row == ToResponseHistoryDTO(op)
    {
      var i :| 0 <= i < |rows| && rows[i] == row;
      assert found[i] in multiset(Involving(store, accountId));
    }
  }

  /** With no stored operation involving the account, the query has
      nothing to return. */
  lemma {:induction false} InvolvingNone(store: seq<OperationRecord>, accountId: int)
    requires forall op | op in store :: !InvolvesAccount(op, accountId)
    ensures Involving(store, accountId) == []
  {
    if store != [] {
      assert forall op | op in store[1..] :: op in store;
      InvolvingNone(store[1..], accountId);
    }
  }

  class OperationService {
    const accountService: AccountService
    /** The operation repository: the saved operations in save order. */
    var operations: seq<OperationRecord>
    /** The id the repository gives to the next operation it saves. */
    var nextOperationId: int

    /** The ledger is valid, and every stored operation is a saved one with
        an id below the next. */
    ghost predicate Valid()
      reads this, accountService, accountService.accounts.Values
    {
      accountService.Valid() && 1 <= nextOperationId &&
      forall i | 0 <= i < |operations| :: IsSaved(operations[i]) && operations[i].id.value < nextOperationId
    }

    constructor (accountService: AccountService)
      requires accountService.Valid()
      ensures Valid()
      ensures this.accountService == accountService && operations == []
    {
      this.accountService := accountService;
      operations := [];
      nextOperationId := 1;
    }

    /** fillTransferFields: links sender and receiver, sets the type to
        TRANSFER and stamps the time; id and value are kept. */
    method FillTransferFields(operation: Operation, sender: Account, receiver: Account, now: Timestamp)
      modifies operation
      ensures operation.senderAccount == sender && operation.receiverAccount == receiver
      ensures operation.operationType == Some(TRANSFER) && operation.operationDateTime == Some(now)
      ensures operation.id == old(operation.id) && operation.value == old(operation.value)
    {
      operation.senderAccount := sender;
      operation.receiverAccount := receiver;
      operation.operationType := Some(TRANSFER);
      operation.operationDateTime := Some(now);
    }

    /** fillDepositFields: no sender, the account as receiver, type DEPOSIT
        and the time; id and value are kept. */
    method FillDepositFields(operation: Operation, account: Account, now: Timestamp)
      modifies operation
      ensures operation.senderAccount == null && operation.receiverAccount == account
      ensures operation.operationType == Some(DEPOSIT) && operation.operationDateTime == Some(now)
      ensures operation.id == old(operation.id) && operation.value == old(operation.value)
    {
      operation.senderAccount := null;
      operation.receiverAccount := account;
      operation.operationType := Some(DEPOSIT);
      operation.operationDateTime := Some(now);
    }

    /** fillWithdrawFields: the sender is cleared and then set again, so the
        account ends up as both sender and receiver; type WITHDRAW and the
        time; id and value are kept. */
    method FillWithdrawFields(operation: Operation, account: Account, now: Timestamp)
      modifies operation
      ensures operation.senderAccount == account && operation.receiverAccount == account
      ensures operation.operationType == Some(WITHDRAW) && operation.operationDateTime == Some(now)
      ensures operation.id == old(operation.id) && operation.value == old(operation.value)
    {
      operation.senderAccount := null;
      operation.receiverAccount := account;
      operation.operationType := Some(WITHDRAW);
      operation.senderAccount := account;
      operation.operationDateTime := Some(now);
    }

    /** operationRepository.save of a new, filled-in operation: it gets the
        next id and its field values are appended to the store. */
    method SaveOperation(operation: Operation)
      requires Valid()
      requires operation.operationType.Some? && operation.receiverAccount != null && operation.operationDateTime.Some?
      modifies this, operation`id
      ensures Valid()
      ensures operation.id == Some(old(nextOperationId))
      ensures operations == old(operations) + [operation.Record()]
      ensures nextOperationId == old(nextOperationId) + 1
    {
      operation.id := Some(nextOperationId);
      operations := operations + [operation.Record()];
      nextOperationId := nextOperationId + 1;
    }

    /** The tail of transferOperation: fill in the operation, save it and
        build the response. */
    method RecordTransfer(operation: Operation, sender: Account, receiver: Account, now: Timestamp)
      returns (response: ResponseDepositWithdrawTransferDTO)
      requires Valid()
      modifies this, operation
      ensures Valid()
      ensures nextOperationId == old(nextOperationId) + 1
      ensures operations == old(operations) + [OperationRecord(Some(old(nextOperationId)), Some(TRANSFER),
        Some(sender.Record()), Some(receiver.Record()), old(operation.value), Some(now))]
      ensures response == ResponseDepositWithdrawTransferDTO(Some(old(nextOperationId)), Some(TRANSFER),
        sender.id, receiver.id, old(operation.value), Some(now))
    {
      FillTransferFields(operation, sender, receiver, now);
      SaveOperation(operation);
      response := ToResponseOperationDTO(operation.Record());
    }

    /** The tail of depositMoney: fill in the operation, save it and build
        the response. */
    method RecordDeposit(operation: Operation, account: Account, now: Timestamp)
      returns (response: ResponseDepositWithdrawTransferDTO)
      requires Valid()
      modifies this, operation
      ensures Valid()
      ensures nextOperationId == old(nextOperationId) + 1
      ensures operations == old(operations) + [OperationRecord(Some(old(nextOperationId)), Some(DEPOSIT),
        None, Some(account.Record()), old(operation.value), Some(now))]
      ensures response == ResponseDepositWithdrawTransferDTO(Some(old(nextOperationId)), Some(DEPOSIT),
        None, account.id, old(operation.value), Some(now))
    {
      FillDepositFields(operation, account, now);
      SaveOperation(operation);
      response := ToResponseDepositWithdrawDTO(operation.Record());
    }

    /** The tail of withdrawMoney: fill in the operation, save it and build
        the response. */
    method RecordWithdraw(operation: Operation, account: Account, now: Timestamp)
      returns (response: ResponseDepositWithdrawTransferDTO)
      requires Valid()
      modifies this, operation
      ensures Valid()
      ensures nextOperationId == old(nextOperationId) + 1
      ensures operations == old(operations) + [OperationRecord(Some(old(nextOperationId)), Some(WITHDRAW),
        Some(account.Record()), Some(account.Record()), old(operation.value), Some(now))]
      ensures response == ResponseDepositWithdrawTransferDTO(Some(old(nextOperationId)), Some(WITHDRAW),
        None, account.id, old(operation.value), Some(now))
    {
      FillWithdrawFields(operation, account, now);
      SaveOperation(operation);
      response := ToResponseDepositWithdrawDTO(operation.Record());
    }

    /** transferOperation once both accounts are found: the engine decides,
        and only a successful transfer is filled in and saved. */
    method TransferFound(operation: Operation, s: int, v: int, value: Money, now: Timestamp)
      returns (r: Result<ResponseDepositWithdrawTransferDTO>)
      requires Valid() && s in accountService.accounts && v in accountService.accounts && value > 0
      modifies this, operation, accountService.accounts.Values
      ensures Valid() && accountService.OnlyBalancesChanged()
      ensures old(accountService.NonNegative()) ==> accountService.NonNegative()
      ensures var accounts := accountService.accounts;
        var t := TransferBalances(old(accounts[s].Record()), old(accounts[v].Record()), value);
        && (t.Err? ==>
              && r == Err(t.error) && accountService.BalancesKept()
              && operations == old(operations) && nextOperationId == old(nextOperationId))
        && (t.Ok? ==>
              var id := old(nextOperationId);
              && r == Ok(ResponseDepositWithdrawTransferDTO(Some(id), Some(TRANSFER), Some(s), Some(v), old(operation.value), Some(now)))
              && accounts[s].balance == t.value.0 && accounts[v].balance == t.value.1
              && accountService.BalancesKeptExcept(s, v)
              && operations == old(operations) + [OperationRecord(Some(id), Some(TRANSFER),
                   Some(accounts[s].Record()), Some(accounts[v].Record()), old(operation.value), Some(now))])
      ensures r == Err(TransferNotAllowed) <==> s == v && old(accountService.accounts[s].balance) >= value
    {
      var sender := accountService.accounts[s];
      var receiver := accountService.accounts[v];
      accountService.StoredAccountsEqualIffSameId(s, v);
      var moved := accountService.Transfer(sender, receiver, value);
      accountService.StoredAccountsAreValues();
      if moved.Fail? {
        return Err(moved.error);
      }
      var response := RecordTransfer(operation, sender, receiver, now);
      r := Ok(response);
    }

    /** transferOperation. A null request is InvalidRequestOperation; an
        unknown sender, then an unknown receiver, is AccountNotFound; then
        the engine's verdict. Only a successful transfer is recorded: both
        balances move by the value, one TRANSFER operation naming both
        accounts is appended, and the response carries both account ids. A
        failure changes nothing; no balance is ever left negative. */
    method TransferOperation(request: Option<RequestTransferOperationDTO>, now: Timestamp)
      returns (r: Result<ResponseDepositWithdrawTransferDTO>)
      requires Valid()
      requires request.Some? ==> TransferIsValid(request.value)
      modifies this, accountService.accounts.Values
      ensures Valid()
      ensures old(accountService.NonNegative()) ==> accountService.NonNegative()
      ensures accountService.OnlyBalancesChanged()
      ensures request.None? ==> r == Err(InvalidRequestOperation)
      ensures r.Err? ==> operations == old(operations) && nextOperationId == old(nextOperationId)
      ensures r.Err? ==> accountService.BalancesKept()
      ensures request.Some? ==>
        var dto, accounts := request.value, accountService.accounts;
        var s, v := dto.senderAccountId.value, dto.receiverAccountId.value;
        && (s !in accounts ==> r == Err(AccountNotFound))
        && (s in accounts && v !in accounts ==> r == Err(AccountNotFound))
        && (s in accounts && v in accounts ==>
              var t := TransferBalances(old(accounts[s].Record()), old(accounts[v].Record()), TransferAmount(dto));
              && (t.Err? ==> r == Err(t.error))
              && (t.Ok? ==>
                    var id := old(nextOperationId);
                    && r == Ok(ResponseDepositWithdrawTransferDTO(Some(id), Some(TRANSFER), Some(s), Some(v), dto.value, Some(now)))
                    && accounts[s].balance == t.value.0 && accounts[v].balance == t.value.1
                    && accountService.BalancesKeptExcept(s, v)
                    && operations == old(operations) + [OperationRecord(Some(id), Some(TRANSFER),
                         Some(accounts[s].Record()), Some(accounts[v].Record()), dto.value, Some(now))]))
      ensures r == Err(TransferNotAllowed) <==>
        request.Some? &&
        var dto, accounts := request.value, accountService.accounts;
        var s, v := dto.senderAccountId.value, dto.receiverAccountId.value;
        s in accounts && s == v && old(accounts[s].balance) >= TransferAmount(dto)
    {
      var checked := ThrowsOnCondition(request.None?, () => InvalidRequestOperation, [MESSAGE_NULL_REQUEST_OPERATION_DTO_ERROR]);
      if checked.Fail? {
        return Err(checked.error);
      }
      var dto := request.value;
      var operation := ToTransferOperationEntity(dto);
      var sender := accountService.GetAccountById(dto.senderAccountId.value);
      if sender.Err? {
        return Err(sender.error);
      }
      var receiver := accountService.GetAccountById(dto.receiverAccountId.value);
      if receiver.Err? {
        return Err(receiver.error);
      }
      r := TransferFound(operation, dto.senderAccountId.value, dto.receiverAccountId.value, TransferAmount(dto), now);
    }

    /** depositMoney once the account is found: the amount is added and the
        operation filled in and saved. */
    method DepositFound(operation: Operation, a: int, value: Money, now: Timestamp)
      returns (r: Result<ResponseDepositWithdrawTransferDTO>)
      requires Valid() && a in accountService.accounts && value > 0
      modifies this, operation, accountService.accounts.Values
      ensures Valid() && accountService.OnlyBalancesChanged()
      ensures old(accountService.NonNegative()) ==> accountService.NonNegative()
      ensures var accounts, id := accountService.accounts, old(nextOperationId);
        && r == Ok(ResponseDepositWithdrawTransferDTO(Some(id), Some(DEPOSIT), None, Some(a), old(operation.value), Some(now)))
        && accounts[a].balance == old(accounts[a].balance) + value
        && accountService.BalancesKeptExcept(a, a)
        && operations == old(operations) + [OperationRecord(Some(id), Some(DEPOSIT),
             None, Some(accounts[a].Record()), old(operation.value), Some(now))]
    {
      var account := accountService.accounts[a];
      accountService.Deposit(account, value);
      accountService.StoredAccountsAreValues();
      var response := RecordDeposit(operation, account, now);
      r := Ok(response);
    }

    /** depositMoney. A null request is InvalidRequestOperation and an
        unknown account AccountNotFound, with nothing changed. Otherwise the
        amount is added to the balance and one DEPOSIT operation with no
        sender and the account as receiver is appended; the response has no
        sender id. The amount is dereferenced only once the account is
        found. */
    method DepositMoney(request: Option<RequestDepositAccountDTO>, now: Timestamp)
      returns (r: Result<ResponseDepositWithdrawTransferDTO>)
      requires Valid()
      requires request.Some? ==> DepositIsValid(request.value)
      requires request.Some? && request.value.accountId.value in accountService.accounts ==> request.value.depositAmount.Some?
      modifies this, accountService.accounts.Values
      ensures Valid()
      ensures old(accountService.NonNegative()) ==> accountService.NonNegative()
      ensures accountService.OnlyBalancesChanged()
      ensures request.None? ==> r == Err(InvalidRequestOperation)
      ensures r.Ok? <==> request.Some? && request.value.accountId.value in accountService.accounts
      ensures r.Err? ==> operations == old(operations) && nextOperationId == old(nextOperationId)
      ensures r.Err? ==> accountService.BalancesKept()
      ensures request.Some? ==>
        var dto, accounts := request.value, accountService.accounts;
        var a := dto.accountId.value;
        && (a !in accounts ==> r == Err(AccountNotFound))
        && (a in accounts ==>
              var id := old(nextOperationId);
              && r == Ok(ResponseDepositWithdrawTransferDTO(Some(id), Some(DEPOSIT), None, Some(a), dto.depositAmount, Some(now)))
              && accounts[a].balance == old(accounts[a].balance) + DepositAmount(dto)
              && accountService.BalancesKeptExcept(a, a)
              && operations == old(operations) + [OperationRecord(Some(id), Some(DEPOSIT),
                   None, Some(accounts[a].Record()), dto.depositAmount, Some(now))])
    {
      var checked := ThrowsOnCondition(request.None?, () => InvalidRequestOperation, [MESSAGE_NULL_REQUEST_OPERATION_DTO_ERROR]);
      if checked.Fail? {
        return Err(checked.error);
      }
      var dto := request.value;
      var operation := ToDepositOperationEntity(dto);
      var account := accountService.GetAccountById(dto.accountId.value);
      if account.Err? {
        return Err(account.error);
      }
      r := DepositFound(operation, dto.accountId.value, DepositAmount(dto), now);
    }

    /** withdrawMoney once the account is found: the engine decides, and
        only a successful withdrawal is filled in and saved. */
    method WithdrawFound(operation: Operation, a: int, value: Money, now: Timestamp)
      returns (r: Result<ResponseDepositWithdrawTransferDTO>)
      requires Valid() && a in accountService.accounts
      modifies this, operation, accountService.accounts.Values
      ensures Valid() && accountService.OnlyBalancesChanged()
      ensures old(accountService.NonNegative()) ==> accountService.NonNegative()
      ensures var accounts := accountService.accounts;
        var w := WithdrawBalance(old(accounts[a].balance), value);
        && (w.Err? ==>
              && r == Err(w.error) && accountService.BalancesKept()
              && operations == old(operations) && nextOperationId == old(nextOperationId))
        && (w.Ok? ==>
              var id := old(nextOperationId);
              && r == Ok(ResponseDepositWithdrawTransferDTO(Some(id), Some(WITHDRAW), None, Some(a), old(operation.value), Some(now)))
              && accounts[a].balance == w.value
              && accountService.BalancesKeptExcept(a, a)
              && operations == old(operations) + [OperationRecord(Some(id), Some(WITHDRAW),
                   Some(accounts[a].Record()), Some(accounts[a].Record()), old(operation.value), Some(now))])
    {
      var account := accountService.accounts[a];
      var taken := accountService.Withdraw(account, value);
      accountService.StoredAccountsAreValues();
      if taken.Fail? {
        return Err(taken.error);
      }
      var response := RecordWithdraw(operation, account, now);
      r := Ok(response);
    }

    /** withdrawMoney. A null request is InvalidRequestOperation, an unknown
        account AccountNotFound, and a balance below the amount
        InsufficientBalance, with nothing changed. Otherwise the amount is
        taken from the balance and one WITHDRAW operation with the account as
        both sender and receiver is appended; the response still reports no
        sender id. The amount is dereferenced only once the account is
        found. */
    method WithdrawMoney(request: Option<RequestWithdrawAccountDTO>, now: Timestamp)
      returns (r: Result<ResponseDepositWithdrawTransferDTO>)
      requires Valid()
      requires request.Some? ==> WithdrawIsValid(request.value)
      requires request.Some? && request.value.accountId.value in accountService.accounts ==> request.value.withdrawAmount.Some?
      modifies this, accountService.accounts.Values
      ensures Valid()
      ensures old(accountService.NonNegative()) ==> accountService.NonNegative()
      ensures accountService.OnlyBalancesChanged()
      ensures request.None? ==> r == Err(InvalidRequestOperation)
      ensures r.Err? ==> operations == old(operations) && nextOperationId == old(nextOperationId)
      ensures r.Err? ==> accountService.BalancesKept()
      ensures request.Some? ==>
        var dto, accounts := request.value, accountService.accounts;
        var a := dto.accountId.value;
        && (a !in accounts ==> r == Err(AccountNotFound))
        && (a in accounts ==>
              var w := WithdrawBalance(old(accounts[a].balance), WithdrawAmount(dto));
              && (w.Err? ==> r == Err(w.error))
              && (w.Ok? ==>
                    var id := old(nextOperationId);
                    && r == Ok(ResponseDepositWithdrawTransferDTO(Some(id), Some(WITHDRAW), None, Some(a), dto.withdrawAmount, Some(now)))
                    && accounts[a].balance == w.value
                    && accountService.BalancesKeptExcept(a, a)
                    && operations == old(operations) + [OperationRecord(Some(id), Some(WITHDRAW),
                         Some(accounts[a].Record()), Some(accounts[a].Record()), dto.withdrawAmount, Some(now))]))
    {
      var checked := ThrowsOnCondition(request.None?, () => InvalidRequestOperation, [MESSAGE_NULL_REQUEST_OPERATION_DTO_ERROR]);
      if checked.Fail? {
        return Err(checked.error);
      }
      var dto := request.value;
      var operation := ToWithdrawOperationEntity(dto);
      var account := accountService.GetAccountById(dto.accountId.value);
      if account.Err? {
        return Err(account.error);
      }
      r := WithdrawFound(operation, dto.accountId.value, WithdrawAmount(dto), now);
    }

    /** historyOperations: AccountNotFound for an unknown account; otherwise
        the requested id, the current time, and one history row per
        operation the repository query returns, in its order. `found` is
        what the query returned; when it returns nothing the list is
        empty. */
    function HistoryOperations(accountId: int, found: Option<seq<OperationRecord>>, now: Timestamp): (r: Result<ResponseHistoryOperationsDTO>)
      requires Valid()
      requires found.Some? ==> IsHistoryQuery(operations, accountId, found.value)
      reads this, accountService, accountService.accounts.Values
      ensures r.Err? <==> accountId !in accountService.accounts
      ensures r.Err? ==> r.error == AccountNotFound
      ensures r.Ok? ==> r.value.accountId == accountId && r.value.creationTimestamp == now
      ensures r.Ok? && found.None? ==> r.value.operationDTOList == []
      ensures r.Ok? && found.Some? ==>
        |r.value.operationDTOList| == |found.value| &&
        forall i | 0 <= i < |found.value| :: r.value.operationDTOList[i] == ToResponseHistoryDTO(found.value[i])
    {
      match accountService.GetAccountById(accountId)
      case Err(e) => Err(e)
      case Ok(account) =>
        var rows := if found.Some? then found.value else [];
        Ok(ResponseHistoryOperationsDTO(accountId, ProjectHistory(rows), now))
    }

    /** The history of a known account lists every stored operation that
        involves it, as its history row, and nothing else: one row per
        operation. */
    lemma HistoryIsComplete(accountId: int, found: seq<OperationRecord>, now: Timestamp)
      requires Valid() && accountId in accountService.accounts
      requires IsHistoryQuery(operations, accountId, found)
      ensures HistoryOperations(accountId, Some(found), now).Ok?
      ensures var rows := HistoryOperations(accountId, Some(found), now).value.operationDTOList;
        && |rows| == |Involving(operations, accountId)|
        && (forall op | op in operations && InvolvesAccount(op, accountId) :: ToResponseHistoryDTO(op) in rows)
        && (forall row | row in rows :: exists op | op in operations && InvolvesAccount(op, accountId) :: row == ToResponseHistoryDTO(op))
    {
      assert forall op | op in operations :: op.receiverAccount.Some?;
      QueryHasOneRowPerOperation(operations, accountId, found);
      QueryRowsCoverInvolving(operations, accountId, found);
      QueryRowsInvolveAccount(operations, accountId, found);
    }

    /** An account that no stored operation involves has an empty history,
        whatever form the query's empty answer takes. */
    lemma EmptyHistory(accountId: int, found: Option<seq<OperationRecord>>, now: Timestamp)
      requires Valid() && accountId in accountService.accounts
      requires found.Some? ==> IsHistoryQuery(operations, accountId, found.value)
      requires forall op | op in operations :: !InvolvesAccount(op, accountId)
      ensures HistoryOperations(accountId, found, now).Ok?
      ensures HistoryOperations(accountId, found, now).value.accountId == accountId
      ensures HistoryOperations(accountId, found, now).value.operationDTOList == []
    {
      InvolvingNone(operations, accountId);
      if found.Some? {
        assert |found.value| == |multiset(found.value)| == 0;
      }
    }
  }
}
