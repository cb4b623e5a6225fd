/**
 * The storage gateway: one class holding the five tables, with one member per
 * gateway operation. Lookups and lists are functions over the tables; every
 * insert, update and delete is a method that says exactly which rows and which
 * columns it changes. The database's primary-key and UNIQUE constraints are the
 * class invariant `Valid()`.
 *
 * The database's own id generator and clock are parameters: `id` is the value
 * `gen_random_uuid()` produced for an insert, `now` the clock reading that
 * `defaultNow()` or `new Date()` would take.
 */
module Storage {
  import opened Base
  import opened Schema
  import opened Tables

  /**
   * A statement the database layer refuses: an insert whose named column
   * already holds that value, or an update whose SET clause names no column.
   */
  datatype DbError = UniqueViolation(column: string) | NoValuesToSet

  // ------------------------------------------------------ column accessors

  function UserId(u: User): Id { u.id }
  function UserTelegramId(u: User): string { u.telegramId }
  function UserRegisteredAt(u: User): Time { u.registeredAt }

  function RequestId(p: PaymentRequest): Id { p.id }
  function RequestUserId(p: PaymentRequest): Id { p.userId }
  function RequestCreatedAt(p: PaymentRequest): Time { p.createdAt }

  function NotificationId(n: Notification): Id { n.id }
  function NotificationUserId(n: Notification): Id { n.userId }
  function NotificationCreatedAt(n: Notification): Time { n.createdAt }
  /** The pair of columns of `WHERE user_id = u AND is_read = 0`. */
  function NotificationOwnerAndFlag(n: Notification): (Id, int) { (n.userId, n.isRead) }

  function DepositId(d: Deposit): Id { d.id }
  function DepositUserId(d: Deposit): Id { d.userId }
  function DepositStatus(d: Deposit): string { d.status }
  function DepositCreatedAt(d: Deposit): Time { d.createdAt }

  function OperatorId(o: Operator): Id { o.id }
  function OperatorLogin(o: Operator): string { o.login }
  function OperatorCreatedAt(o: Operator): Time { o.createdAt }

  // ----------------------------------------------------------- SET clauses

  /** The columns `updatePaymentRequestFull` may set; an absent one is left as it is. */
  datatype RequestUpdates = RequestUpdates(
    status: Option<string>,
    receipt: Option<Option<Attachment>>,
    adminComment: Option<string>,
    amountRub: Option<Decimal>,
    amountUsdt: Option<Decimal>)

  /**
   * A payment request after a partial update. The id, the owner, the frozen
   * rate, the urgency, the fee flag, the attachments, the user's comment and the
   * creation time are not among the columns an update may name.
   */
  function ApplyRequestUpdates(p: PaymentRequest, u: RequestUpdates): (q: PaymentRequest)
    ensures q.id == p.id && q.userId == p.userId && q.createdAt == p.createdAt
    ensures q.frozenRate == p.frozenRate && q.urgency == p.urgency && q.hasUrgentFee == p.hasUrgentFee
    ensures q.attachments == p.attachments && q.comment == p.comment
    ensures q.status == (if u.status.Some? then u.status.value else p.status)
    ensures q.receipt == (if u.receipt.Some? then u.receipt.value else p.receipt)
    ensures q.adminComment == (if u.adminComment.Some? then u.adminComment else p.adminComment)
    ensures q.amountRub == (if u.amountRub.Some? then u.amountRub.value else p.amountRub)
    ensures q.amountUsdt == (if u.amountUsdt.Some? then u.amountUsdt.value else p.amountUsdt)
  {
    p.(status := u.status.GetOr(p.status),
       receipt := u.receipt.GetOr(p.receipt),
       adminComment := if u.adminComment.Some? then u.adminComment else p.adminComment,
       amountRub := u.amountRub.GetOr(p.amountRub),
       amountUsdt := u.amountUsdt.GetOr(p.amountUsdt))
  }

  /** An update object whose keys are all absent: the SET clause would be empty. */
  predicate NamesNoColumn(u: RequestUpdates) {
    u.status.None? && u.receipt.None? && u.adminComment.None? && u.amountRub.None? && u.amountUsdt.None?
  }

  /** `SET is_read = 1`. */
  function MarkRead(n: Notification): Notification { n.(isRead := Read) }

  // ------------------------------------------- notification statements

  /** `UPDATE notifications SET is_read = 1 WHERE id = X`. */
  function MarkedRead(t: seq<Notification>, id: Id): seq<Notification> {
    Update(t, NotificationId, id, MarkRead)
  }

  /** `SELECT ... WHERE user_id = u AND is_read = 0`, counted. */
  function UnreadCount(t: seq<Notification>, userId: Id): nat {
    |Select(t, NotificationOwnerAndFlag, (userId, Unread))|
  }

  /** Marking a notification read twice leaves the same table as marking it once. */
  lemma MarkedReadIdempotent(t: seq<Notification>, id: Id)
    ensures MarkedRead(MarkedRead(t, id), id) == MarkedRead(t, id)
  {
    UpdateIdempotent(t, NotificationId, id, MarkRead);
  }

  /** Marking one of a user's unread notifications read lowers that user's unread count by exactly one. */
  lemma {:induction false} MarkedReadUnreadCount(t: seq<Notification>, id: Id, userId: Id)
    requires Unique(t, NotificationId)
    ensures UnreadCount(MarkedRead(t, id), userId)
         == UnreadCount(t, userId) - if exists n :: n in t && n.id == id && n.userId == userId && n.isRead == Unread then 1 else 0
  {
    if t != [] {
      var k := (userId, Unread);
      var after := MarkedRead(t, id);
      assert after[1..] == MarkedRead(t[1..], id);
      assert t == [t[0]] + t[1..];
      UniqueTail(t, NotificationId);
      if t[0].id == id {
        UpdateMissing(t[1..], NotificationId, id, MarkRead);
        assert after == [MarkRead(t[0])] + t[1..];
        assert forall n :: n in t && n.id == id ==> n == t[0];
      } else {
        MarkedReadUnreadCount(t[1..], id, userId);
        assert after == [t[0]] + MarkedRead(t[1..], id);
      }
    }
  }

  // ------------------------------------------------------------- the store

  class PostgresStorage {
    var users: seq<User>
    var paymentRequests: seq<PaymentRequest>
    var notifications: seq<Notification>
    var deposits: seq<Deposit>
    var operators: seq<Operator>

    /** The primary keys and the UNIQUE columns `telegram_id` and `login`. */
    ghost predicate Valid()
      reads this
    {
      && Unique(users, UserId) && Unique(users, UserTelegramId)
      && Unique(paymentRequests, RequestId)
      && Unique(notifications, NotificationId)
      && Unique(deposits, DepositId)
      && Unique(operators, OperatorId) && Unique(operators, OperatorLogin)
    }

    constructor ()
      ensures Valid()
      ensures users == [] && paymentRequests == [] && notifications == [] && deposits == [] && operators == []
    {
      users, paymentRequests, notifications, deposits, operators := [], [], [], [], [];
    }

    // ------------------------------------------------------------- users

    function GetUser(id: Id): (r: Option<User>)
      reads this
      ensures r.Some? ==> r.value in users && r.value.id == id
      ensures r.None? ==> forall u :: u in users ==> u.id != id
      ensures Valid() ==> forall u :: u in users && u.id == id ==> r == Some(u)
    {
      FirstOfUnique(users, UserId, id);
      First(users, UserId, id)
    }

    function GetUserByTelegramId(telegramId: string): (r: Option<User>)
      reads this
      ensures r.Some? ==> r.value in users && r.value.telegramId == telegramId
      ensures r.None? ==> forall u :: u in users ==> u.telegramId != telegramId
      ensures Valid() ==> forall u :: u in users && u.telegramId == telegramId ==> r == Some(u)
    {
      FirstOfUnique(users, UserTelegramId, telegramId);
      First(users, UserTelegramId, telegramId)
    }

    method CreateUser(insertUser: NewUser, id: Id, now: Time) returns (r: Result<User, DbError>)
      requires Valid()
      modifies this`users
      ensures Valid()
      ensures r.Err? <==> exists u :: u in old(users) && (u.id == id || u.telegramId == insertUser.telegramId)
      ensures r.Ok? ==> r.value == MaterializeUser(insertUser, id, now) && users == old(users) + [r.value]
      ensures r.Err? ==> users == old(users)
      ensures r.Ok? ==> GetUser(id) == Some(r.value) && GetUserByTelegramId(insertUser.telegramId) == Some(r.value)
    {
      if First(users, UserId, id).Some? {
        r := Err(UniqueViolation("id"));
      } else if First(users, UserTelegramId, insertUser.telegramId).Some? {
        r := Err(UniqueViolation("telegram_id"));
      } else {
        var u := MaterializeUser(insertUser, id, now);
        UniqueAppend(users, u, UserId);
        UniqueAppend(users, u, UserTelegramId);
        users := users + [u];
        r := Ok(u);
      }
    }

    method UpdateUserBalance(userId: Id, availableBalance: Decimal, frozenBalance: Decimal)
      requires Valid()
      modifies this`users
      ensures Valid()
      ensures |users| == |old(users)|
      ensures forall i :: 0 <= i < |users| ==>
        users[i] == if old(users)[i].id == userId
                    then old(users)[i].(availableBalance := availableBalance, frozenBalance := frozenBalance)
                    else old(users)[i]
      ensures (forall u :: u in old(users) ==> u.id != userId) ==> users == old(users)
    {
      var setBalances := (u: User) => u.(availableBalance := availableBalance, frozenBalance := frozenBalance);
      UpdateKeepsUnique(users, UserId, userId, setBalances, UserId);
      UpdateKeepsUnique(users, UserId, userId, setBalances, UserTelegramId);
      users := Update(users, UserId, userId, setBalances);
    }

    function GetAllUsers(): (r: seq<User>)
      reads this
      ensures SortedDesc(r, UserRegisteredAt)
      ensures multiset(r) == multiset(users)
    {
      SortByDesc(users, UserRegisteredAt)
    }

    // -------------------------------------------------- payment requests

    function GetPaymentRequest(id: Id): (r: Option<PaymentRequest>)
      reads this
      ensures r.Some? ==> r.value in paymentRequests && r.value.id == id
      ensures r.None? ==> forall p :: p in paymentRequests ==> p.id != id
      ensures Valid() ==> forall p :: p in paymentRequests && p.id == id ==> r == Some(p)
    {
      FirstOfUnique(paymentRequests, RequestId, id);
      First(paymentRequests, RequestId, id)
    }

    function GetPaymentRequestsByUserId(userId: Id): (r: seq<PaymentRequest>)
      reads this
      ensures SortedDesc(r, RequestCreatedAt)
      ensures multiset(r) == multiset(Select(paymentRequests, RequestUserId, userId))
      ensures forall p :: p in r <==> p in paymentRequests && p.userId == userId
    {
      SortByDescMembers(Select(paymentRequests, RequestUserId, userId), RequestCreatedAt);
      SortByDesc(Select(paymentRequests, RequestUserId, userId), RequestCreatedAt)
    }

    method CreatePaymentRequest(insertRequest: NewPaymentRequest, id: Id, now: Time) returns (r: Result<PaymentRequest, DbError>)
      requires Valid()
      modifies this`paymentRequests
      ensures Valid()
      ensures r.Err? <==> exists p :: p in old(paymentRequests) && p.id == id
      ensures r.Ok? ==> r.value == MaterializePaymentRequest(insertRequest, id, now)
      ensures r.Ok? ==> paymentRequests == old(paymentRequests) + [r.value]
      ensures r.Err? ==> paymentRequests == old(paymentRequests)
      ensures r.Ok? ==> GetPaymentRequest(id) == Some(r.value)
    {
      if First(paymentRequests, RequestId, id).Some? {
        r := Err(UniqueViolation("id"));
      } else {
        var p := MaterializePaymentRequest(insertRequest, id, now);
        UniqueAppend(paymentRequests, p, RequestId);
        paymentRequests := paymentRequests + [p];
        r := Ok(p);
      }
    }

    method UpdatePaymentRequestStatus(id: Id, status: string)
      requires Valid()
      modifies this`paymentRequests
      ensures Valid()
      ensures |paymentRequests| == |old(paymentRequests)|
      ensures forall i :: 0 <= i < |paymentRequests| ==>
        paymentRequests[i] == if old(paymentRequests)[i].id == id
                              then old(paymentRequests)[i].(status := status)
                              else old(paymentRequests)[i]
    {
      var setStatus := (p: PaymentRequest) => p.(status := status);
      UpdateKeepsUnique(paymentRequests, RequestId, id, setStatus, RequestId);
      paymentRequests := Update(paymentRequests, RequestId, id, setStatus);
    }

    method UpdatePaymentRequestWithReceipt(id: Id, status: string, receipt: Option<Attachment>)
      requires Valid()
      modifies this`paymentRequests
      ensures Valid()
      ensures |paymentRequests| == |old(paymentRequests)|
      ensures forall i :: 0 <= i < |paymentRequests| ==>
        paymentRequests[i] == if old(paymentRequests)[i].id == id
                              then old(paymentRequests)[i].(status := status, receipt := receipt)
                              else old(paymentRequests)[i]
    {
      var setStatusAndReceipt := (p: PaymentRequest) => p.(status := status, receipt := receipt);
      UpdateKeepsUnique(paymentRequests, RequestId, id, setStatusAndReceipt, RequestId);
      paymentRequests := Update(paymentRequests, RequestId, id, setStatusAndReceipt);
    }

    /**
     * `UPDATE payment_requests SET <the given columns> WHERE id = X`. An update
     * object with no column in it is refused before any row is touched.
     */
    method UpdatePaymentRequestFull(id: Id, updates: RequestUpdates) returns (r: Result<(), DbError>)
      requires Valid()
      modifies this`paymentRequests
      ensures Valid()
      ensures r.Err? <==> NamesNoColumn(updates)
      ensures r.Err? ==> r.error == NoValuesToSet && paymentRequests == old(paymentRequests)
      ensures |paymentRequests| == |old(paymentRequests)|
      ensures r.Ok? ==> forall i :: 0 <= i < |paymentRequests| ==>
        paymentRequests[i] == if old(paymentRequests)[i].id == id
                              then ApplyRequestUpdates(old(paymentRequests)[i], updates)
                              else old(paymentRequests)[i]
      ensures r.Ok? && old(GetPaymentRequest(id)).Some? ==>
        GetPaymentRequest(id) == Some(ApplyRequestUpdates(old(GetPaymentRequest(id)).value, updates))
    {
      if NamesNoColumn(updates) {
        return Err(NoValuesToSet);
      }
      r := Ok(());
      var apply := (p: PaymentRequest) => ApplyRequestUpdates(p, updates);
      UpdateKeepsUnique(paymentRequests, RequestId, id, apply, RequestId);
      FirstAfterUpdate(paymentRequests, RequestId, id, apply);
      paymentRequests := Update(paymentRequests, RequestId, id, apply);
    }

    function GetAllPaymentRequests(): (r: seq<PaymentRequest>)
      reads this
      ensures SortedDesc(r, RequestCreatedAt)
      ensures multiset(r) == multiset(paymentRequests)
    {
      SortByDesc(paymentRequests, RequestCreatedAt)
    }

    // ------------------------------------------------------ notifications

    function GetNotificationsByUserId(userId: Id): (r: seq<Notification>)
      reads this
      ensures SortedDesc(r, NotificationCreatedAt)
      ensures multiset(r) == multiset(Select(notifications, NotificationUserId, userId))
      ensures forall n :: n in r <==> n in notifications && n.userId == userId
    {
      SortByDescMembers(Select(notifications, NotificationUserId, userId), NotificationCreatedAt);
      SortByDesc(Select(notifications, NotificationUserId, userId), NotificationCreatedAt)
    }

    method CreateNotification(insertNotification: NewNotification, id: Id, now: Time) returns (r: Result<Notification, DbError>)
      requires Valid()
      modifies this`notifications
      ensures Valid()
      ensures r.Err? <==> exists n :: n in old(notifications) && n.id == id
      ensures r.Ok? ==> r.value == MaterializeNotification(insertNotification, id, now)
      ensures r.Ok? ==> notifications == old(notifications) + [r.value]
      ensures r.Err? ==> notifications == old(notifications)
    {
      if First(notifications, NotificationId, id).Some? {
        r := Err(UniqueViolation("id"));
      } else {
        var n := MaterializeNotification(insertNotification, id, now);
        UniqueAppend(notifications, n, NotificationId);
        notifications := notifications + [n];
        r := Ok(n);
      }
    }

    method MarkNotificationAsRead(id: Id)
      requires Valid()
      modifies this`notifications
      ensures Valid()
      ensures notifications == MarkedRead(old(notifications), id)
      ensures |notifications| == |old(notifications)|
      ensures forall i :: 0 <= i < |notifications| ==>
        notifications[i] == if old(notifications)[i].id == id
                            then old(notifications)[i].(isRead := Read)
                            else old(notifications)[i]
      ensures forall userId ::
                GetUnreadNotificationsCount(userId) == old(GetUnreadNotificationsCount(userId)) -
                (if exists n :: n in old(notifications) && n.id == id && n.userId == userId && n.isRead == Unread then 1 else 0)
    {
      UpdateKeepsUnique(notifications, NotificationId, id, MarkRead, NotificationId);
      forall userId: Id {
        MarkedReadUnreadCount(notifications, id, userId);
      }
      notifications := MarkedRead(notifications, id);
    }

    function GetUnreadNotificationsCount(userId: Id): (r: nat)
      reads this
      ensures r == |set i | 0 <= i < |notifications| && notifications[i].userId == userId && notifications[i].isRead == Unread|
    {
      SelectCount(notifications, NotificationOwnerAndFlag, (userId, Unread));
      assert MatchingPositions(notifications, NotificationOwnerAndFlag, (userId, Unread))
          == set i | 0 <= i < |notifications| && notifications[i].userId == userId && notifications[i].isRead == Unread;
      UnreadCount(notifications, userId)
    }

    // ----------------------------------------------------------- deposits

    function GetDeposit(id: Id): (r: Option<Deposit>)
      reads this
      ensures r.Some? ==> r.value in deposits && r.value.id == id
      ensures r.None? ==> forall d :: d in deposits ==> d.id != id
      ensures Valid() ==> forall d :: d in deposits && d.id == id ==> r == Some(d)
    {
      FirstOfUnique(deposits, DepositId, id);
      First(deposits, DepositId, id)
    }

    function GetDepositsByUserId(userId: Id): (r: seq<Deposit>)
      reads this
      ensures SortedDesc(r, DepositCreatedAt)
      ensures multiset(r) == multiset(Select(deposits, DepositUserId, userId))
      ensures forall d :: d in r <==> d in deposits && d.userId == userId
    {
      SortByDescMembers(Select(deposits, DepositUserId, userId), DepositCreatedAt);
      SortByDesc(Select(deposits, DepositUserId, userId), DepositCreatedAt)
    }

    function GetPendingDeposits(): (r: seq<Deposit>)
      reads this
      ensures SortedDesc(r, DepositCreatedAt)
      ensures multiset(r) == multiset(Select(deposits, DepositStatus, DefaultDepositStatus))
      ensures forall d :: d in r <==> d in deposits && d.status == "pending"
    {
      SortByDescMembers(Select(deposits, DepositStatus, DefaultDepositStatus), DepositCreatedAt);
      SortByDesc(Select(deposits, DepositStatus, DefaultDepositStatus), DepositCreatedAt)
    }

    method CreateDeposit(insertDeposit: NewDeposit, id: Id, now: Time) returns (r: Result<Deposit, DbError>)
      requires Valid()
      modifies this`deposits
      ensures Valid()
      ensures r.Err? <==> exists d :: d in old(deposits) && d.id == id
      ensures r.Ok? ==> r.value == MaterializeDeposit(insertDeposit, id, now)
      ensures r.Ok? ==> deposits == old(deposits) + [r.value]
      ensures r.Err? ==> deposits == old(deposits)
      ensures r.Ok? ==> GetDeposit(id) == Some(r.value)
      ensures r.Ok? && insertDeposit.status.None? ==> r.value in GetPendingDeposits()
    {
      if First(deposits, DepositId, id).Some? {
        r := Err(UniqueViolation("id"));
      } else {
        var d := MaterializeDeposit(insertDeposit, id, now);
        UniqueAppend(deposits, d, DepositId);
        deposits := deposits + [d];
        r := Ok(d);
      }
    }

    method ConfirmDeposit(id: Id, confirmedBy: Id, now: Time)
      requires Valid()
      modifies this`deposits
      ensures Valid()
      ensures |deposits| == |old(deposits)|
      ensures forall i :: 0 <= i < |deposits| ==>
        deposits[i] == if old(deposits)[i].id == id
                       then old(deposits)[i].(status := "confirmed", confirmedAt := Some(now), confirmedBy := Some(confirmedBy))
                       else old(deposits)[i]
      ensures old(GetDeposit(id)).Some? ==>
        GetDeposit(id) == Some(old(GetDeposit(id)).value.(status := "confirmed", confirmedAt := Some(now), confirmedBy := Some(confirmedBy)))
      ensures forall d :: d in GetPendingDeposits() <==> d in old(GetPendingDeposits()) && d.id != id
    {
      var confirm := (d: Deposit) => d.(status := "confirmed", confirmedAt := Some(now), confirmedBy := Some(confirmedBy));
      UpdateKeepsUnique(deposits, DepositId, id, confirm, DepositId);
      FirstAfterUpdate(deposits, DepositId, id, confirm);
      SelectAfterUpdate(deposits, DepositId, id, confirm, DepositStatus, DefaultDepositStatus);
      SortByDescMembers(Select(deposits, DepositStatus, DefaultDepositStatus), DepositCreatedAt);
      deposits := Update(deposits, DepositId, id, confirm);
      SortByDescMembers(Select(deposits, DepositStatus, DefaultDepositStatus), DepositCreatedAt);
    }

    method RejectDeposit(id: Id)
      requires Valid()
      modifies this`deposits
      ensures Valid()
      ensures |deposits| == |old(deposits)|
      ensures forall i :: 0 <= i < |deposits| ==>
        deposits[i] == if old(deposits)[i].id == id then old(deposits)[i].(status := "rejected") else old(deposits)[i]
      ensures forall d :: d in GetPendingDeposits() <==> d in old(GetPendingDeposits()) && d.id != id
    {
      var reject := (d: Deposit) => d.(status := "rejected");
      UpdateKeepsUnique(deposits, DepositId, id, reject, DepositId);
      SelectAfterUpdate(deposits, DepositId, id, reject, DepositStatus, DefaultDepositStatus);
      SortByDescMembers(Select(deposits, DepositStatus, DefaultDepositStatus), DepositCreatedAt);
      deposits := Update(deposits, DepositId, id, reject);
      SortByDescMembers(Select(deposits, DepositStatus, DefaultDepositStatus), DepositCreatedAt);
    }

    // ---------------------------------------------------------- operators

    function GetOperator(id: Id): (r: Option<Operator>)
      reads this
      ensures r.Some? ==> r.value in operators && r.value.id == id
      ensures r.None? ==> forall o :: o in operators ==> o.id != id
      ensures Valid() ==> forall o :: o in operators && o.id == id ==> r == Some(o)
    {
      FirstOfUnique(operators, OperatorId, id);
      First(operators, OperatorId, id)
    }

    function GetOperatorByLogin(login: string): (r: Option<Operator>)
      reads this
      ensures r.Some? ==> r.value in operators && r.value.login == login
      ensures r.None? ==> forall o :: o in operators ==> o.login != login
      ensures Valid() ==> forall o :: o in operators && o.login == login ==> r == Some(o)
    {
      FirstOfUnique(operators, OperatorLogin, login);
      First(operators, OperatorLogin, login)
    }

    function GetAllOperators(): (r: seq<Operator>)
      reads this
      ensures SortedDesc(r, OperatorCreatedAt)
      ensures multiset(r) == multiset(operators)
    {
      SortByDesc(operators, OperatorCreatedAt)
    }

    method CreateOperator(insertOperator: NewOperator, id: Id, now: Time) returns (r: Result<Operator, DbError>)
      requires Valid()
      modifies this`operators
      ensures Valid()
      ensures r.Err? <==> exists o :: o in old(operators) && (o.id == id || o.login == insertOperator.login)
      ensures r.Ok? ==> r.value == MaterializeOperator(insertOperator, id, now) && operators == old(operators) + [r.value]
      ensures r.Err? ==> operators == old(operators)
      ensures r.Ok? ==> GetOperator(id) == Some(r.value) && GetOperatorByLogin(insertOperator.login) == Some(r.value)
    {
      if First(operators, OperatorId, id).Some? {
        r := Err(UniqueViolation("id"));
      } else if First(operators, OperatorLogin, insertOperator.login).Some? {
        r := Err(UniqueViolation("login"));
      } else {
        var o := MaterializeOperator(insertOperator, id, now);
        UniqueAppend(operators, o, OperatorId);
        UniqueAppend(operators, o, OperatorLogin);
        operators := operators + [o];
        r := Ok(o);
      }
    }

    method UpdateOperatorStatus(id: Id, isActive: int)
      requires Valid()
      modifies this`operators
      ensures Valid()
      ensures |operators| == |old(operators)|
      ensures forall i :: 0 <= i < |operators| ==>
        operators[i] == if old(operators)[i].id == id then old(operators)[i].(isActive := isActive) else old(operators)[i]
    {
      var setActive := (o: Operator) => o.(isActive := isActive);
      UpdateKeepsUnique(operators, OperatorId, id, setActive, OperatorId);
      UpdateKeepsUnique(operators, OperatorId, id, setActive, OperatorLogin);
      operators := Update(operators, OperatorId, id, setActive);
    }

    method DeleteOperator(id: Id)
      requires Valid()
      modifies this`operators
      ensures Valid()
      ensures forall o :: o in operators <==> o in old(operators) && o.id != id
      ensures IsSubsequence(operators, old(operators))
      ensures |operators| == if exists o :: o in old(operators) && o.id == id then |old(operators)| - 1 else |old(operators)|
    {
      RemoveExactlyOne(operators, OperatorId, id);
      var rest := Remove(operators, OperatorId, id);
      SubsequenceKeepsUnique(rest, operators, OperatorId);
      SubsequenceKeepsUnique(rest, operators, OperatorLogin);
      operators := rest;
    }
  }
}
