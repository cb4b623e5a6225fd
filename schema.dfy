/**
 * The five record types of the payment application, the insert variants a
 * caller supplies, and how a row is materialised from an insert variant:
 * the server assigns the id and the creation timestamp, and every column with
 * a default that the caller left out receives that default.
 */
module Schema {
  import opened Base

  /** Primary keys (`varchar`, generated by the database). */
  type Id = string
  /** Timestamp columns, as an abstract clock reading. */
  type Time = int
  /** `numeric` columns travel as decimal text; the gateway does no arithmetic on them. */
  type Decimal = string

  // ------------------------------------------------------------ attachments

  /** The closed set of attachment kinds. */
  datatype AttachmentType = Image | Link | Pdf | Doc | Docx

  /** An attachment: a kind, a required value and an optional file name. */
  datatype Attachment = Attachment(kind: AttachmentType, value: string, name: Option<string>)

  /** The literal that stands for an attachment kind in stored JSON. */
  function AttachmentTypeName(t: AttachmentType): string {
    match t
    case Image => "image"
    case Link => "link"
    case Pdf => "pdf"
    case Doc => "doc"
    case Docx => "docx"
  }

  /** Reads an attachment kind from its literal; any other text is not a kind. */
  function ParseAttachmentType(s: string): (r: Option<AttachmentType>)
    ensures r.Some? ==> AttachmentTypeName(r.value) == s
    ensures r.None? ==> forall t :: AttachmentTypeName(t) != s
  {
    if s == "image" then Some(Image)
    else if s == "link" then Some(Link)
    else if s == "pdf" then Some(Pdf)
    else if s == "doc" then Some(Doc)
    else if s == "docx" then Some(Docx)
    else None
  }

  /** Every kind is read back from its own literal. */
  lemma AttachmentTypeRoundTrip(t: AttachmentType)
    ensures ParseAttachmentType(AttachmentTypeName(t)) == Some(t)
  {
  }

  // ------------------------------------------------------------------ users

  datatype User = User(
    id: Id,
    telegramId: string,
    username: string,
    availableBalance: Decimal,
    frozenBalance: Decimal,
    registeredAt: Time)

  /** `InsertUser`: a user without `id` and `registeredAt`; balances may be left out. */
  datatype NewUser = NewUser(
    telegramId: string,
    username: string,
    availableBalance: Option<Decimal>,
    frozenBalance: Option<Decimal>)

  /** The default of both balance columns. */
  const DefaultBalance: Decimal := "0"

  function MaterializeUser(ins: NewUser, id: Id, now: Time): (u: User)
    ensures u.id == id && u.registeredAt == now
    ensures u.telegramId == ins.telegramId && u.username == ins.username
    ensures ins.availableBalance.None? ==> u.availableBalance == DefaultBalance
    ensures ins.frozenBalance.None? ==> u.frozenBalance == DefaultBalance
    ensures ins.availableBalance.Some? ==> u.availableBalance == ins.availableBalance.value
    ensures ins.frozenBalance.Some? ==> u.frozenBalance == ins.frozenBalance.value
  {
    User(id, ins.telegramId, ins.username,
         ins.availableBalance.GetOr(DefaultBalance), ins.frozenBalance.GetOr(DefaultBalance), now)
  }

  /** The insert variant that supplies every column a caller may supply. */
  function UserInsertOf(u: User): NewUser {
    NewUser(u.telegramId, u.username, Some(u.availableBalance), Some(u.frozenBalance))
  }

  /** The insert variant omits exactly `id` and `registeredAt`: with those two, it determines the row. */
  lemma UserInsertOmitsServerFields(u: User)
    ensures MaterializeUser(UserInsertOf(u), u.id, u.registeredAt) == u
  {
  }

  // ------------------------------------------------------- payment requests

  datatype PaymentRequest = PaymentRequest(
    id: Id,
    userId: Id,
    amountRub: Decimal,
    amountUsdt: Decimal,
    frozenRate: Decimal,
    urgency: string,
    hasUrgentFee: int,
    attachments: Option<seq<Attachment>>,
    comment: Option<string>,
    status: string,
    receipt: Option<Attachment>,
    adminComment: Option<string>,
    createdAt: Time)

  /** `InsertPaymentRequest`: a request without `id` and `createdAt`. */
  datatype NewPaymentRequest = NewPaymentRequest(
    userId: Id,
    amountRub: Decimal,
    amountUsdt: Decimal,
    frozenRate: Decimal,
    urgency: string,
    hasUrgentFee: Option<int>,
    attachments: Option<seq<Attachment>>,
    comment: Option<string>,
    status: Option<string>,
    receipt: Option<Attachment>,
    adminComment: Option<string>)

  const DefaultRequestStatus: string := "submitted"
  const DefaultUrgentFee: int := 0

  function MaterializePaymentRequest(ins: NewPaymentRequest, id: Id, now: Time): (p: PaymentRequest)
    ensures p.id == id && p.createdAt == now
    ensures ins.status.None? ==> p.status == DefaultRequestStatus
    ensures ins.hasUrgentFee.None? ==> p.hasUrgentFee == DefaultUrgentFee
    ensures ins.status.Some? ==> p.status == ins.status.value
    ensures ins.hasUrgentFee.Some? ==> p.hasUrgentFee == ins.hasUrgentFee.value
    ensures p.userId == ins.userId && p.amountRub == ins.amountRub && p.amountUsdt == ins.amountUsdt
    ensures p.frozenRate == ins.frozenRate && p.urgency == ins.urgency
    ensures p.attachments == ins.attachments && p.comment == ins.comment
    ensures p.receipt == ins.receipt && p.adminComment == ins.adminComment
  {
    PaymentRequest(id, ins.userId, ins.amountRub, ins.amountUsdt, ins.frozenRate, ins.urgency,
                   ins.hasUrgentFee.GetOr(DefaultUrgentFee), ins.attachments, ins.comment,
                   ins.status.GetOr(DefaultRequestStatus), ins.receipt, ins.adminComment, now)
  }

  function PaymentRequestInsertOf(p: PaymentRequest): NewPaymentRequest {
    NewPaymentRequest(p.userId, p.amountRub, p.amountUsdt, p.frozenRate, p.urgency, Some(p.hasUrgentFee),
                      p.attachments, p.comment, Some(p.status), p.receipt, p.adminComment)
  }

  /** The insert variant omits exactly `id` and `createdAt`. */
  lemma PaymentRequestInsertOmitsServerFields(p: PaymentRequest)
    ensures MaterializePaymentRequest(PaymentRequestInsertOf(p), p.id, p.createdAt) == p
  {
  }

  // ---------------------------------------------------------- notifications

  datatype Notification = Notification(
    id: Id,
    userId: Id,
    requestId: Option<Id>,
    message: string,
    isRead: int,
    createdAt: Time)

  /** `InsertNotification`: a notification without `id` and `createdAt`. */
  datatype NewNotification = NewNotification(
    userId: Id,
    requestId: Option<Id>,
    message: string,
    isRead: Option<int>)

  const Unread: int := 0
  const Read: int := 1

  function MaterializeNotification(ins: NewNotification, id: Id, now: Time): (n: Notification)
    ensures n.id == id && n.createdAt == now
    ensures ins.isRead.None? ==> n.isRead == Unread
    ensures ins.isRead.Some? ==> n.isRead == ins.isRead.value
    ensures n.userId == ins.userId && n.requestId == ins.requestId && n.message == ins.message
  {
    Notification(id, ins.userId, ins.requestId, ins.message, ins.isRead.GetOr(Unread), now)
  }

  function NotificationInsertOf(n: Notification): NewNotification {
    NewNotification(n.userId, n.requestId, n.message, Some(n.isRead))
  }

  /** The insert variant omits exactly `id` and `createdAt`. */
  lemma NotificationInsertOmitsServerFields(n: Notification)
    ensures MaterializeNotification(NotificationInsertOf(n), n.id, n.createdAt) == n
  {
  }

  // --------------------------------------------------------------- deposits

  datatype Deposit = Deposit(
    id: Id,
    userId: Id,
    amount: Decimal,
    status: string,
    txHash: Option<string>,
    createdAt: Time,
    confirmedAt: Option<Time>,
    confirmedBy: Option<Id>)

  /** `InsertDeposit`: a deposit without `id`, `createdAt`, `confirmedAt` and `confirmedBy`. */
  datatype NewDeposit = NewDeposit(
    userId: Id,
    amount: Decimal,
    status: Option<string>,
    txHash: Option<string>)

  const DefaultDepositStatus: string := "pending"

  function MaterializeDeposit(ins: NewDeposit, id: Id, now: Time): (d: Deposit)
    ensures d.id == id && d.createdAt == now
    ensures d.confirmedAt.None? && d.confirmedBy.None?
    ensures ins.status.None? ==> d.status == DefaultDepositStatus
    ensures ins.status.Some? ==> d.status == ins.status.value
    ensures d.userId == ins.userId && d.amount == ins.amount && d.txHash == ins.txHash
  {
    Deposit(id, ins.userId, ins.amount, ins.status.GetOr(DefaultDepositStatus), ins.txHash, now, None, None)
  }

  function DepositInsertOf(d: Deposit): NewDeposit {
    NewDeposit(d.userId, d.amount, Some(d.status), d.txHash)
  }

  /**
   * The insert variant omits exactly `id`, `createdAt`, `confirmedAt` and
   * `confirmedBy`: a row is the materialisation of its insert variant exactly
   * when it has not been confirmed.
   */
  lemma DepositInsertOmitsServerFields(d: Deposit)
    ensures MaterializeDeposit(DepositInsertOf(d), d.id, d.createdAt) == d
        <==> d.confirmedAt.None? && d.confirmedBy.None?
  {
  }

  // -------------------------------------------------------------- operators

  datatype Operator = Operator(
    id: Id,
    login: string,
    passwordHash: string,
    salt: string,
    isActive: int,
    createdAt: Time)

  /** `InsertOperator`: an operator without `id` and `createdAt`. */
  datatype NewOperator = NewOperator(
    login: string,
    passwordHash: string,
    salt: string,
    isActive: Option<int>)

  const Active: int := 1

  function MaterializeOperator(ins: NewOperator, id: Id, now: Time): (o: Operator)
    ensures o.id == id && o.createdAt == now
    ensures ins.isActive.None? ==> o.isActive == Active
    ensures ins.isActive.Some? ==> o.isActive == ins.isActive.value
    ensures o.login == ins.login && o.passwordHash == ins.passwordHash && o.salt == ins.salt
  {
    Operator(id, ins.login, ins.passwordHash, ins.salt, ins.isActive.GetOr(Active), now)
  }

  function OperatorInsertOf(o: Operator): NewOperator {
    NewOperator(o.login, o.passwordHash, o.salt, Some(o.isActive))
  }

  /** The insert variant omits exactly `id` and `createdAt`. */
  lemma OperatorInsertOmitsServerFields(o: Operator)
    ensures MaterializeOperator(OperatorInsertOf(o), o.id, o.createdAt) == o
  {
  }
}
