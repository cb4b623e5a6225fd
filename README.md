# Payment app storage gateway, schema and history view, in Dafny

This project models the core of a small top-up and payment-request application:
users deposit USDT, submit rouble payment requests, and get notifications;
operators confirm or reject deposits and resolve payment requests.

It models three parts of the application.

- **Schema** (`schema.dfy`, module `Schema`). This covers the five record types
  (`User`, `PaymentRequest`, `Notification`, `Deposit`, `Operator`) and the
  insert variant of each, which is the record a caller supplies. It also covers
  the closed `Attachment` kind. `Materialize*` builds a stored row from an
  insert variant, a server-assigned id and a clock reading, and fills in the
  column defaults.
- **Storage gateway** (`storage.dfy`, module `Storage`). The class
  `PostgresStorage` holds the five tables as sequences of rows in insertion
  order. Its invariant `Valid()` is the database's constraints: the primary keys
  plus the UNIQUE columns `telegram_id` and `login`. Lookups and lists are
  functions that read the tables. Each insert, update and delete is a method
  whose postcondition gives the whole new table, row by row. The relational
  statements these members use are generic functions over a table in
  `tables.dfy` (module `Tables`): select, `LIMIT 1`, descending sort, update and
  delete.
- **History view** (`history.dfy`, module `History`). This is the split of
  transactions into the "active" and "history" tabs, the set of statuses that
  have a label, and the shortened display of a deposit's transaction hash,
  which follows JavaScript `substring` semantics.

`scenarios.dfy` (module `Scenarios`) has three client methods. They drive a
fresh store only through the gateway's contracts and prove the expected
outcomes of a deposit's lifecycle, of an operator's review of a payment
request, and of duplicate inserts.

The database supplies ids and timestamps, and the model takes them as inputs.
Each create method takes `id`, the value `gen_random_uuid()` produced, and
`now`, the clock reading of `defaultNow()`. `ConfirmDeposit` takes `now`, the
reading of `new Date()`. A create whose `id` is already in the table fails like
any other primary-key violation. So no create method has a precondition beyond
the invariant.

Some behaviour of the code worth stating plainly:
- Users are looked up by their Telegram id, with `getUserByTelegramId`.
- Deposit and payment-request statuses are free text. The gateway confirms or
  rejects a deposit whatever its current status, so `ConfirmDeposit` and
  `RejectDeposit` have no precondition on the status.
- No update method names the `frozen_rate` column, so a request's frozen rate
  never changes after the insert. `ApplyRequestUpdates` states this.
- `updatePaymentRequestFull` with an update object that names no column has an
  empty SET clause, which the ORM refuses with an error. The model returns
  `Err(NoValuesToSet)` and leaves the table unchanged.

## Model

| member | source | states |
|---|---|---|
| Tables.Select | server/storage.ts:81-86 | `WHERE col = v` returns exactly the rows of the table with that value, as an order-preserving subsequence of the table |
| Tables.SelectMultiset | server/storage.ts:159-164 | a select keeps every copy of a matching row and drops every other row |
| Tables.SelectCount | server/storage.ts:136-144 | the length of a select's result is the number of row positions whose column has that value |
| Tables.SelectAppend | server/storage.ts:136-144 | selecting from a concatenation of tables is the concatenation of the selects |
| Tables.First | server/storage.ts:48-51 | `LIMIT 1` gives a row of the table with the requested key, and gives absent only when no row has it |
| Tables.FirstOfUnique | server/storage.ts:147-150 | when the key is unique, `LIMIT 1` gives the one row with that key |
| Tables.SortByDesc | server/storage.ts:69-73 | `ORDER BY col DESC` returns the same multiset of rows, in non-increasing order of that column |
| Tables.SortByDescMembers | server/storage.ts:111-115 | sorting neither adds nor drops a row |
| Tables.Update | server/storage.ts:93-97 | `UPDATE ... SET f WHERE key = k` keeps the table's length and order; it applies `f` to exactly the rows with key `k` and leaves every other row as it was |
| Tables.UpdateMissing | server/storage.ts:63-67 | an update whose key matches no row leaves the table unchanged |
| Tables.UpdateIdempotent | server/storage.ts:130-134 | an update with an idempotent, key-preserving SET clause gives the same table when applied twice as when applied once |
| Tables.UpdateKeepsUnique | server/storage.ts:63-67 | an update that does not touch a unique column keeps that constraint |
| Tables.FirstAfterUpdate | server/storage.ts:105-109 | a lookup after a key-preserving update gives the updated version of the row found before, or absent when there was none |
| Tables.SelectAfterUpdate | server/storage.ts:171-185 | after an update that moves the rows it touches out of `key2 = v`, the rows with `key2 = v` are the earlier ones minus the touched ones |
| Tables.Remove | server/storage.ts:215-217 | `DELETE ... WHERE key = k` leaves only rows whose key is not `k`, and every such row, in their order |
| Tables.RemoveMultiset | server/storage.ts:215-217 | a delete keeps every copy of each row whose key is not `k` and no copy of any other row, so it leaves exactly those rows |
| Tables.RemoveExactlyOne | server/storage.ts:215-217 | under a unique key, a delete shortens the table by one when the key is present and by nothing otherwise |
| Tables.UniqueAppend | shared/schema.ts:7-8 | inserting a row whose unique value is new keeps the constraint |
| Tables.SubsequenceKeepsUnique | server/storage.ts:215-217 | a table left by a delete satisfies every uniqueness constraint the original did |
| Schema.ParseAttachmentType | shared/schema.ts:98-102 | an attachment kind is one of `image`, `link`, `pdf`, `doc`, `docx`; any other text is not a kind |
| Schema.AttachmentTypeRoundTrip | shared/schema.ts:98-102 | every kind is read back from its own literal |
| Schema.MaterializeUser | shared/schema.ts:6-13 | a new user gets the given id and registration time, keeps the supplied columns, and gets balances of "0" where none were supplied |
| Schema.UserInsertOmitsServerFields | shared/schema.ts:60-63 | the user insert variant omits exactly `id` and `registeredAt`: those two plus the insert variant determine the row |
| Schema.MaterializePaymentRequest | shared/schema.ts:15-29 | a new request gets status "submitted" and `hasUrgentFee` 0 when they are not supplied, and keeps every supplied column |
| Schema.PaymentRequestInsertOmitsServerFields | shared/schema.ts:65-68 | the request insert variant omits exactly `id` and `createdAt` |
| Schema.MaterializeNotification | shared/schema.ts:31-38 | a new notification gets `isRead` 0 when it is not supplied |
| Schema.NotificationInsertOmitsServerFields | shared/schema.ts:70-73 | the notification insert variant omits exactly `id` and `createdAt` |
| Schema.MaterializeDeposit | shared/schema.ts:40-49 | a new deposit gets status "pending" when none is supplied, and its `confirmedAt` and `confirmedBy` are null |
| Schema.DepositInsertOmitsServerFields | shared/schema.ts:75-80 | the deposit insert variant omits exactly `id`, `createdAt`, `confirmedAt` and `confirmedBy`: a row comes from its insert variant exactly when it is unconfirmed |
| Schema.MaterializeOperator | shared/schema.ts:51-58 | a new operator gets `isActive` 1 when it is not supplied |
| Schema.OperatorInsertOmitsServerFields | shared/schema.ts:82-85 | the operator insert variant omits exactly `id` and `createdAt` |
| Storage.ApplyRequestUpdates | server/storage.ts:105-109 | a partial update sets exactly the columns present in it; id, owner, frozen rate, urgency, fee flag, attachments, comment and creation time never change |
| Storage.MarkedReadIdempotent | server/storage.ts:130-134 | marking a notification read twice gives the same table as marking it once |
| Storage.MarkedReadUnreadCount | server/storage.ts:130-144 | marking a user's unread notification read lowers that user's unread count by exactly one; otherwise the count stays |
| Storage.PostgresStorage.constructor | server/storage.ts:220 | the store starts with five empty tables that satisfy every constraint |
| Storage.PostgresStorage.GetUser | server/storage.ts:48-51 | returns the user with that id, or absent when no row has it; never fails |
| Storage.PostgresStorage.GetUserByTelegramId | server/storage.ts:53-56 | returns the user with that Telegram id, or absent when no row has it |
| Storage.PostgresStorage.CreateUser | server/storage.ts:58-61 | fails exactly when the id or the Telegram id is taken, leaving the table unchanged; otherwise appends the materialised row and returns it, and lookups by id and by Telegram id then find it |
| Storage.PostgresStorage.UpdateUserBalance | server/storage.ts:63-67 | sets exactly `availableBalance` and `frozenBalance` on the row with that id; every other column and row is unchanged, and an unknown id leaves the table unchanged |
| Storage.PostgresStorage.GetAllUsers | server/storage.ts:69-73 | all users, newest registration first |
| Storage.PostgresStorage.GetPaymentRequest | server/storage.ts:76-79 | returns the request with that id, or absent when no row has it |
| Storage.PostgresStorage.GetPaymentRequestsByUserId | server/storage.ts:81-86 | exactly the user's requests, newest first |
| Storage.PostgresStorage.CreatePaymentRequest | server/storage.ts:88-91 | fails exactly on a taken id; otherwise appends the materialised row, which the lookup then finds |
| Storage.PostgresStorage.UpdatePaymentRequestStatus | server/storage.ts:93-97 | sets only `status`, and only on the row with that id |
| Storage.PostgresStorage.UpdatePaymentRequestWithReceipt | server/storage.ts:99-103 | sets only `status` and `receipt`, and only on the row with that id |
| Storage.PostgresStorage.UpdatePaymentRequestFull | server/storage.ts:105-109 | fails exactly when the update object names no column, leaving the table unchanged; otherwise applies the partial update to the row with that id only, and the lookup then shows the updated row |
| Storage.PostgresStorage.GetAllPaymentRequests | server/storage.ts:111-115 | all requests, newest first |
| Storage.PostgresStorage.GetNotificationsByUserId | server/storage.ts:118-123 | exactly the user's notifications, newest first |
| Storage.PostgresStorage.CreateNotification | server/storage.ts:125-128 | fails exactly on a taken id; otherwise appends the materialised row |
| Storage.PostgresStorage.MarkNotificationAsRead | server/storage.ts:130-134 | sets `isRead` to 1 on the row with that id only; each user's unread count drops by one if that row was theirs and unread, and otherwise stays |
| Storage.PostgresStorage.GetUnreadNotificationsCount | server/storage.ts:136-144 | the number of notifications with that user id and `isRead` 0 |
| Storage.PostgresStorage.GetDeposit | server/storage.ts:147-150 | returns the deposit with that id, or absent when no row has it |
| Storage.PostgresStorage.GetDepositsByUserId | server/storage.ts:152-157 | exactly the user's deposits, newest first |
| Storage.PostgresStorage.GetPendingDeposits | server/storage.ts:159-164 | exactly the deposits whose status is "pending", newest first |
| Storage.PostgresStorage.CreateDeposit | server/storage.ts:166-169 | fails exactly on a taken id; otherwise appends the materialised row, which the lookup finds and which is pending when no status was supplied |
| Storage.PostgresStorage.ConfirmDeposit | server/storage.ts:171-179 | whatever the prior status, sets status "confirmed", `confirmedAt` to the clock and `confirmedBy` to the operator on the row with that id, and nothing else; that deposit then leaves the pending list and no other deposit enters or leaves it |
| Storage.PostgresStorage.RejectDeposit | server/storage.ts:181-185 | sets only the status, to "rejected", on the row with that id; that deposit then leaves the pending list |
| Storage.PostgresStorage.GetOperator | server/storage.ts:188-191 | returns the operator with that id, or absent when no row has it |
| Storage.PostgresStorage.GetOperatorByLogin | server/storage.ts:193-196 | returns the operator with that login, or absent when no row has it |
| Storage.PostgresStorage.GetAllOperators | server/storage.ts:198-202 | all operators, newest first |
| Storage.PostgresStorage.CreateOperator | server/storage.ts:204-207 | fails exactly when the id or the login is taken; otherwise appends the materialised row, which both lookups then find |
| Storage.PostgresStorage.UpdateOperatorStatus | server/storage.ts:209-213 | sets only `isActive`, and only on the row with that id |
| Storage.PostgresStorage.DeleteOperator | server/storage.ts:215-217 | removes exactly the rows with that id, in order, shortening the table by one when the id is present |
| Scenarios.DepositLifecycle | server/storage.ts:159-179 | a new user's 50 USDT deposit is pending; after confirmation it is no longer pending, and the user's deposits show it confirmed with the clock and the operator |
| Scenarios.PaymentReview | server/storage.ts:88-109 | an urgent request resolved with status "paid" and comment "ok" keeps its urgency, fee flag, amounts and rate; a later update naming no column is refused |
| Scenarios.DuplicatesRefused | shared/schema.ts:8-53 | a second user with a taken Telegram id and a second operator with a taken login are both refused |
| History.ActiveTransactions | client/src/components/HistoryPage.tsx:55-57 | a transaction is in the active tab iff its status is "submitted", "processing" or "pending", and the tab keeps the input order |
| History.HistoryTransactions | client/src/components/HistoryPage.tsx:59-61 | a transaction is in the history tab iff its status is "paid", "rejected", "cancelled" or "confirmed", and the tab keeps the input order |
| History.StatusPartition | client/src/components/HistoryPage.tsx:34-61 | each of the seven labelled statuses is in exactly one tab, and any other status is in neither |
| History.TabsDisjoint | client/src/components/HistoryPage.tsx:55-61 | no transaction appears in both tabs |
| History.TabsCoverLabelled | client/src/components/HistoryPage.tsx:34-61 | the two tabs together are exactly as long as the list of transactions with a labelled status |
| History.Substring | client/src/components/HistoryPage.tsx:102 | JavaScript `substring` clamps both indices into the string and swaps them when reversed, so it never fails and is never longer than the string |
| History.SubstringSlice | client/src/components/HistoryPage.tsx:102 | within bounds, `substring` is the slice, and its two arguments may come in either order |
| History.AbbreviateHash | client/src/components/HistoryPage.tsx:102 | the hash display is at most the first 10 characters, then "...", then at most the last 8 characters |
| History.LongHashAbbreviation | client/src/components/HistoryPage.tsx:102 | a hash of at least 18 characters shows its first 10 and its last 8, 21 characters in all |
| History.ShortHashAbbreviation | client/src/components/HistoryPage.tsx:102 | a hash of at most 8 characters appears whole on both sides of the ellipsis |
| History.HashLine | client/src/components/HistoryPage.tsx:95-104 | a payment card has no hash line; a deposit card has one exactly when its hash is neither absent nor empty; the line keeps the hash's first and last characters, puts the ellipsis after at most 10 characters, and has at most 21 characters |

## Left out

- The ORM, the database connection and the asynchronous calls are not modelled. Every gateway operation is a synchronous statement on in-memory tables.
- Concurrent callers and last-write-wins between concurrent updates are not modelled. Each operation is atomic.
- The database's id generator and clock are inputs: the `id` and `now` parameters.
- Numeric precision (`numeric(18,8)` and `numeric(18,2)`) is not modelled. Amounts and balances are decimal text, and the gateway does no arithmetic on them. The database normalises and rounds that text: a deposit of "50" reads back as "50.00000000" and the default balance "0" as "0.00000000". Equal text in the model, as in `Schema.MaterializeUser`'s default balances and `Scenarios.DepositLifecycle`'s amount, stands for equal numeric value.
- The 32-bit range of the `integer` columns is not modelled. Neither is the 64-character limit on `salt`. Values outside them would make the database refuse the statement; the model accepts them.
- The `jsonb` columns `attachments` and `receipt` hold arbitrary JSON in the database. The model types them as attachments, which is how the application uses them.
- Storage.PostgresStorage.UpdatePaymentRequestWithReceipt: a receipt argument of `undefined` is left out; the model takes a receipt or null.
- Storage.PostgresStorage.UpdatePaymentRequestFull: the ORM's error for an empty SET clause is modelled as one error value, `NoValuesToSet`; its message and the rejected promise are not.
- History.Substring: JavaScript `substring` and `.length` count UTF-16 code units. The model counts the characters of a Dafny string, which are Unicode scalar values. A hash with a character outside the Basic Multilingual Plane would be cut differently. Transaction hashes are ASCII in practice. `History.AbbreviateHash` and `History.HashLine` inherit this.
- Storage.PostgresStorage.CreateUser: when both the id and the Telegram id are taken, it does not say which violated constraint is reported. `CreateOperator` likewise does not say which of id and login.
- Tables.SortByDesc: rows with equal creation time come out in table order in the model, whereas the database leaves their order unspecified. The contracts state only the non-increasing order and the same multiset of rows.
- Tables.First: without a uniqueness constraint, `LIMIT 1` may return any matching row; the model returns the first in table order. Every lookup the gateway makes is on a unique column, where the row is determined.
- The code enforces neither legal status transitions nor balance invariants (non-negativity, available and frozen together). The model enforces neither.
- The `IStorage` interface has one implementation. The model has only that class.
- The `Transaction` type that the history view lists is not part of this model. `History.Transaction` carries only the fields the modelled logic reads.
- The view's rendering is not modelled: JSX, icons, colours, labels' text, date formatting, `toFixed` and `toLocaleString`, and the file download through the DOM.
- client/src/components/TopUpPage.tsx and client/src/components/DashboardPage.tsx are not part of this model. They hold floating-point amount parsing and display, clipboard, QR code and network calls.
