/** Client code that exercises the gateway only through its contracts. */
module Scenarios {
  import opened Base
  import opened Schema
  import opened Tables
  import opened Storage

  /**
   * A new user's deposit is pending; once an operator confirms it, it leaves
   * the pending list and the user's deposits show it confirmed, stamped with
   * the confirmation time and the operator.
   */
  method DepositLifecycle(telegramId: string, userId: Id, depositId: Id, operatorId: Id, t0: Time, t1: Time, t2: Time)
    returns (pendingBefore: bool, pendingAfter: bool, shown: Option<Deposit>)
    ensures pendingBefore && !pendingAfter
    ensures shown.Some? && shown.value.id == depositId && shown.value.userId == userId
    ensures shown.value.status == "confirmed" && shown.value.amount == "50"
    ensures shown.value.confirmedAt == Some(t2) && shown.value.confirmedBy == Some(operatorId)
  {
    var store := new PostgresStorage();
    var user := store.CreateUser(NewUser(telegramId, "alice", None, None), userId, t0);
    assert user.Ok? && user.value.availableBalance == "0" && user.value.frozenBalance == "0";
    var deposit := store.CreateDeposit(NewDeposit(userId, "50", None, None), depositId, t1);
    pendingBefore := First(store.GetPendingDeposits(), DepositId, depositId).Some?;
    store.ConfirmDeposit(depositId, operatorId, t2);
    pendingAfter := First(store.GetPendingDeposits(), DepositId, depositId).Some?;
    assert store.deposits[0].id == depositId;
    shown := First(store.GetDepositsByUserId(userId), DepositId, depositId);
  }

  /**
   * An operator resolves an urgent request with a status and a comment; the
   * urgency, the fee flag and the amounts stay as submitted. A later update
   * that names no column is refused and changes nothing.
   */
  method PaymentReview(userId: Id, requestId: Id, t0: Time)
    returns (shown: Option<PaymentRequest>, emptyUpdate: Result<(), DbError>)
    ensures emptyUpdate == Err(NoValuesToSet)
    ensures shown.Some? && shown.value.status == "paid" && shown.value.adminComment == Some("ok")
    ensures shown.value.urgency == "urgent" && shown.value.hasUrgentFee == 1
    ensures shown.value.amountRub == "1000" && shown.value.amountUsdt == "10" && shown.value.frozenRate == "100"
  {
    var store := new PostgresStorage();
    var request := store.CreatePaymentRequest(
      NewPaymentRequest(userId, "1000", "10", "100", "urgent", Some(1), None, None, None, None, None), requestId, t0);
    assert request.Ok? && request.value.status == "submitted";
    var resolved := store.UpdatePaymentRequestFull(requestId, RequestUpdates(Some("paid"), None, Some("ok"), None, None));
    assert resolved.Ok?;
    emptyUpdate := store.UpdatePaymentRequestFull(requestId, RequestUpdates(None, None, None, None, None));
    shown := store.GetPaymentRequest(requestId);
  }

  /** A second user with a taken Telegram id, or a second operator with a taken login, is refused. */
  method DuplicatesRefused(telegramId: string, login: string, a: Id, b: Id, t: Time)
    returns (secondUser: Result<User, DbError>, secondOperator: Result<Operator, DbError>)
    ensures secondUser.Err? && secondOperator.Err?
  {
    var store := new PostgresStorage();
    var firstUser := store.CreateUser(NewUser(telegramId, "first", None, None), a, t);
    secondUser := store.CreateUser(NewUser(telegramId, "second", None, None), b, t);
    var firstOperator := store.CreateOperator(NewOperator(login, "hash", "salt", None), a, t);
    assert firstOperator.Ok? && firstOperator.value.isActive == 1;
    secondOperator := store.CreateOperator(NewOperator(login, "hash2", "salt2", None), b, t);
  }
}
