# Academy backend: domain rules in Dafny

This project models the domain rules of a Django backend for a training
academy. The academy runs course batches, enrolls students, sells payment
plans split into installments, and keeps a notification inbox per user. The
ORM is replaced by in-memory tables: a `seq` of records per table, with an
auto-increment key counter. Money columns (`DecimalField(max_digits=10,
decimal_places=2)`) are integer cents. A value fits its column when its
absolute value is below 10^10. Dates are integer day numbers, and timestamps
are integers passed in by the caller.

The database is PostgreSQL, so a value that breaks a column constraint is a
refused write. The model returns the refusal as an error value (`Option` or
`Result`), or as a `false` "stored" flag.

Modules, one file each:

- `Common` (common.dfy): `Option`/`Result`, the `User` snapshot and the money bound. It also holds the sequence operations that stand in for querysets (`Filter`, `Count`, `Map`, `SortBy`) and their lemmas, plus ASCII case folding and substring search.
- `Students` (students.dfy): the `StudentProfile` and `Enrollment` classes and their `save()` overrides. `Save` assigns the student id only once and re-derives the final fee on every save.
- `Batches` (batches.dfy): the `Batch` record and its column checks, including the `valid_date_range` constraint. Also the status/name filter of the batch list endpoint.
- `Notifications` (notifications.dfy):
  - the `Notification` record;
  - the owner-scoped list, unread count and mark-read endpoints;
  - the CASCADE/SET_NULL behaviour when a referenced user, batch or payment is deleted;
  - a `NotificationTable` class whose methods update the table in place.
- `Signals` (signals.dfy): the two working `post_save` receivers. One writes a welcome row for a new user; the other writes one row per staff user for a new batch.
- `Installments` (installments.dfy): the `Installment` record, its status choices, the `(payment_plan, installment_number)` uniqueness rule, and the schedule ordering.
- `Payments` (payments.dfy): payment plans and transactions. A `PaymentStore` class holds the plan, installment and transaction tables. It has inserts that enforce the column, uniqueness and foreign-key rules, and deletes that follow the CASCADE and SET_NULL rules between the tables.

`AdminNotification` has the same columns as `Notification`, with `admin` in
place of `recipient`. A second `NotificationTable` stands for it.

## Model

| member | source | states |
|---|---|---|
| Students.EnrollmentStatusCodes | apps/students/models.py:13-18 | each enrollment status code fits `max_length=20`, reads back as the same status, and only the four codes read back at all |
| Students.NewStudentId | apps/students/models.py:54 | a generated id is "STD-" followed by six upper-case hex digits, so it fits `max_length=12` |
| Students.StudentIdHex | apps/students/models.py:54 | text parses as a student id exactly when it has that shape, and then yields six lower-case hex digits |
| Students.NewStudentIdRoundTrip | apps/students/models.py:54 | the id made from a uuid gives back the first six hex digits of that uuid |
| Students.NewStudentIdInjective | apps/students/models.py:54 | uuids with different six-digit prefixes give different student ids |
| Students.StudentProfile.constructor | apps/students/models.py:35 | a new profile has an empty student id |
| Students.StudentProfile.Save | apps/students/models.py:52-55 | an empty id is replaced by a generated one; an id already set never changes, so saving again changes nothing; afterwards the id is non-empty |
| Students.FinalFee | apps/students/models.py:83 | the final fee plus the discount is the total fee |
| Students.DefaultDiscountKeepsTotal | apps/students/models.py:73 | with the default discount of 0 the final fee equals the total |
| Students.OverDiscountGoesNegative | apps/students/models.py:83 | a discount above the total is not refused and gives a negative final fee |
| Students.FinalFeeExample | apps/students/models.py:82-84 | 500.00 with 50.00 off gives 450.00 |
| Students.Enrollment.constructor | apps/students/models.py:70-74 | omitted discount and status take the defaults 0 and ACTIVE; the final fee is unset |
| Students.Enrollment.Save | apps/students/models.py:82-84 | every save sets `final_fee` to total minus discount from the current fields and changes nothing else; the write succeeds exactly when the three amounts fit numeric(10,2) and the course fits varchar(100) |
| Batches.CheckRow | apps/batch/models.py:8-28 | no error exactly when end date > start date, the name has at most 100 characters, the price fits numeric(10,2) and max_students is absent or within 0..2147483647 (an `integer` column with a non-negative check); any error names a check the row fails |
| Batches.MaxStudentsBound | apps/batch/models.py:14 | a `max_students` of 2147483648 is refused as out of range |
| Batches.SameDayRejected | apps/batch/models.py:25 | a batch that ends on its start day is refused by `valid_date_range` |
| Batches.StoredBatchPhases | apps/batch/models.py:23-28 | on any day an accepted batch is in exactly one phase: upcoming, active or finished; it is active on its first day |
| Batches.ListBatches | apps/batch/views.py:22-35 | the staged status-then-name filtering equals one order-preserving filter by "status matches and name matches" |
| Batches.ListBatchesExact | apps/batch/views.py:26-35 | a batch is listed exactly when it is stored and passes both conditions; the listing is a subsequence of all batches, in their order |
| Batches.ActiveListing | apps/batch/views.py:29-30 | status "active" lists exactly the batches with start ≤ today ≤ end, in order |
| Batches.UpcomingListing | apps/batch/views.py:31-32 | status "upcoming" lists exactly the batches with start > today, in order |
| Batches.UnfilteredListing | apps/batch/views.py:29-35 | any other or absent status, with an absent or empty name, lists every batch |
| Batches.ListingIgnoresNameCase | apps/batch/views.py:34-35 | searching for the upper-cased name lists exactly the same batches as the name itself |
| Batches.ActiveUpcomingDisjoint | apps/batch/views.py:29-32 | no batch is in both the "active" and the "upcoming" listing for the same day |
| Notifications.ListFor | apps/notifications/views.py:18 | the listing holds exactly the caller's notifications, each as often as stored, newest first |
| Notifications.UnreadCount | apps/notifications/views.py:60 | the caller's unread count is zero exactly when none of their rows is unread, and never exceeds the number of rows |
| Notifications.UnreadAfterCreate | apps/notifications/views.py:60 | a new row raises its recipient's unread count by one when it is unread and leaves every other count unchanged |
| Notifications.UnreadWithinList | apps/notifications/views.py:60 | the unread count never exceeds the number of notifications listed for the same user |
| Notifications.FindOwned | apps/notifications/views.py:44 | finds a row with that id addressed to the caller, or reports that no such row exists |
| Notifications.MarkReadCounts | apps/notifications/views.py:44-47 | marking a row read lowers its recipient's unread count by one if the row was unread; every other count is unchanged |
| Notifications.MarkOwnedCounts | apps/notifications/views.py:44-47 | marking the caller's own unread row lowers the caller's count by exactly one and leaves every other user's count unchanged |
| Notifications.FindOwnedAfterMark | apps/notifications/views.py:44-46 | marking a row read does not change which row the ownership lookup finds |
| Notifications.MarkReadIdempotent | apps/notifications/views.py:44-46 | a second mark-read of the caller's row finds the same row again, leaves it read, and equals marking it once |
| Notifications.AfterUserDeleted | apps/notifications/models.py:72-90 | deleting a user removes the rows addressed to them (CASCADE), clears `related_user` on the others (SET_NULL), and keeps every other row |
| Notifications.AfterBatchDeleted | apps/notifications/models.py:91-97 | deleting a batch keeps every row, leaves none pointing at it (rows that pointed at it now hold null), and changes no other field |
| Notifications.AfterPaymentDeleted | apps/notifications/models.py:98-104 | deleting a payment keeps every row, leaves none pointing at it (rows that pointed at it now hold null), and changes no other field |
| Notifications.UserDeletionScope | apps/notifications/models.py:72-76 | after a user is deleted, their listing is empty, their unread count is 0 and no row can be looked up (so none can be marked) for them; any other user lists as many rows as before |
| Notifications.OtherUserKeepsRows | apps/notifications/models.py:72-76 | deleting one user does not change how many rows are addressed to any other user |
| Notifications.UserDeletionKeepsKeys | apps/notifications/models.py:72-76 | after a user is deleted, the surviving keys stay strictly ascending and below the key counter, and every surviving row still fits its columns |
| Notifications.NotificationTable.constructor | apps/notifications/models.py:69-107 | the table starts empty, with key counter 1 |
| Notifications.NotificationTable.Create | apps/notifications/models.py:106-107 | `objects.create` appends one unread row with the next key and leaves the earlier rows untouched |
| Notifications.NotificationTable.MarkRead | apps/notifications/views.py:42-49 | reports found exactly when the caller owns a row with that id; then only that row's `is_read` becomes true; otherwise nothing changes |
| Notifications.NotificationTable.OnUserDeleted | apps/notifications/models.py:72-90 | the table becomes `AfterUserDeleted` of the old table, with its keys still ascending |
| Notifications.NotificationTable.OnBatchDeleted | apps/notifications/models.py:91-97 | the table becomes `AfterBatchDeleted` of the old table |
| Notifications.NotificationTable.OnPaymentDeleted | apps/notifications/models.py:98-104 | the table becomes `AfterPaymentDeleted` of the old table |
| Signals.SignupNoticeShape | apps/notifications/signals.py:13-19 | the welcome row is an unread NEW_SIGNUP row addressed to the new user, with `related_user` set to that user and a message containing their full name |
| Signals.SignupRaisesUnread | apps/notifications/signals.py:11-19 | the welcome row raises the new user's unread count by exactly one and leaves every other user's count unchanged |
| Signals.CreateSignupNotification | apps/notifications/signals.py:11-19 | on create, exactly one welcome row is appended; on update, nothing changes |
| Signals.FanOut | apps/notifications/signals.py:41-48 | one row per admin, in order, each with the next consecutive key |
| Signals.FanOutRows | apps/notifications/signals.py:40-48 | every fan-out row is an unread BATCH_CREATED row for a staff user; it points at the new batch and its message contains the batch name |
| Signals.FanOutRecipients | apps/notifications/signals.py:41-48 | the number of fan-out rows for a user id equals the number of listed admins with that id |
| Signals.FanOutOnePerStaff | apps/notifications/signals.py:40-48 | with distinct user keys, each staff user gets exactly one row and every other user gets none |
| Signals.BatchCreatedNotification | apps/notifications/signals.py:37-48 | on create, the loop appends exactly the fan-out rows after the existing ones; on update, nothing changes |
| Installments.InstallmentStatusCodes | apps/installment/models.py:7-12 | the four status codes are distinct and fit `max_length=20` |
| Installments.CheckNew | apps/installment/models.py:15-26 | a new row is accepted exactly when its number is within 0..2147483647 (an `integer` column with a non-negative check), its amount fits numeric(10,2), its number is unused in its plan, and the plan exists |
| Installments.NumberBound | apps/installment/models.py:20 | numbers 2147483648 and -1 are refused as out of range |
| Installments.AcceptedKeepsUnique | apps/installment/models.py:26 | an accepted row keeps numbers distinct within each plan |
| Installments.ReplayKeepsUnique | apps/installment/models.py:26 | after any sequence of attempted inserts, numbers within a plan stay pairwise distinct and no stored row is lost |
| Installments.SameNumberOtherPlan | apps/installment/models.py:26 | a number used in one plan is still free in any other plan |
| Installments.Schedule | apps/installment/models.py:27 | a plan's installments are exactly its own rows, each as often as stored, in ascending number order |
| Payments.PaymentChoiceCodes | apps/payments/models.py:40-54 | the six method codes and four status codes are distinct and fit their columns |
| Payments.CheckPlan | apps/payments/models.py:11-13 | a plan is accepted exactly when its name has at most 100 characters, its total fits numeric(10,2) and its installment count is within 0..2147483647 |
| Payments.InstallmentCountBound | apps/payments/models.py:13 | an installment count of 2147483648 is refused as out of range |
| Payments.ClearInstallments | apps/payments/models.py:61-67 | after installments are deleted, every transaction survives in place, none refers to a deleted installment (those references become null), and only the reference changes |
| Payments.AfterEnrollmentDeleted | apps/payments/models.py:56-67 | deleting an enrollment removes its transactions and keeps every other one, with references to deleted installments cleared; every remaining row comes from a surviving transaction, in the original order |
| Payments.AfterStudentDeleted | apps/payments/models.py:68-72 | deleting a student profile removes exactly their transactions and keeps the rest in order |
| Payments.ClearedReferencesValid | apps/payments/models.py:61-67 | once installments are removed and references to them cleared, every remaining transaction reference names a surviving installment |
| Payments.PaymentStore.constructor | apps/payments/models.py:9-16 | the three tables start empty |
| Payments.PaymentStore.AddPlan | apps/payments/models.py:9-16 | inserts the plan exactly when `CheckPlan` accepts it, with the next key; otherwise the store is unchanged |
| Payments.PaymentStore.AddInstallment | apps/installment/models.py:14-26 | inserts the row exactly when `CheckNew` accepts it, with status PENDING by default; otherwise the store is unchanged; numbers stay unique per plan |
| Payments.PaymentStore.AddTransaction | apps/payments/models.py:56-79 | inserts the row exactly when the amount fits and any referenced installment exists, with status SUCCESS and payment date today by default |
| Payments.PaymentStore.DeleteInstallment | apps/payments/models.py:61-67 | the installment leaves the ledger; its transactions stay, with the reference cleared (SET_NULL) |
| Payments.PaymentStore.DeletePlans | apps/installment/models.py:15-19 | the selected plans go, their installments go with them (CASCADE), and transactions lose references to those installments |
| Payments.PaymentStore.RemoveInstallments | apps/payments/models.py:61-67 | removing installments clears the transaction references to them and keeps every reference valid |
| Payments.PaymentStore.DeleteEnrollment | apps/payments/models.py:56-60 | the enrollment's plans, their installments and its transactions go; other transactions lose references to the deleted installments |
| Payments.PaymentStore.DeleteStudent | apps/payments/models.py:68-72 | the student's transactions go; plans and installments are unchanged |

Every `PaymentStore` and `NotificationTable` method keeps the table
invariant:
- keys strictly ascending and below the key counter;
- for notifications, every row fits its columns;
- for the store, every installment's plan exists and every set transaction reference names a stored installment;
- for the store, installment numbers are unique per plan.

## Left out

- `payment_notification` (apps/notifications/signals.py:23-32): it reads `instance.user`, which `PaymentTransaction` does not have, so it raises instead of writing a row. It is not modelled as a working receiver.
- E-mail receivers (apps/students/signals.py, apps/payments/signals.py): they send mail over SMTP and swallow the errors.
- HTTP and DRF plumbing: serializers, permissions, authentication, URL routing, and the batch create/update/delete handlers. The acting user and the `is_staff` flag are inputs.
- Clocks: `date.today()` and `timezone.now` are the parameters `today` and `now`.
- uuid randomness: the uuid's hex text is a parameter of `StudentProfile.Save`.
- Students.StudentProfile.Save: the database-wide uniqueness of `student_id` is not modelled; a collision between two generated ids would be refused by the database.
- Batches.ListBatches: `icontains` is modelled with ASCII lower-casing, not the database collation.
- Notifications.ListFor: rows with equal `created_at` come out in an order the database does not fix; the contract states only membership, multiplicity and newest-first order.
- Notifications.NotificationTable.Create: requires the title and type to fit their columns, where the database would refuse the row. Every caller passes constant titles and types that fit.
- `notification_type` choices are not validated on `objects.create`, so the type is a free string.
- `Course` and the creation of `AdminNotification` rows: no code shown defines the former or creates the latter.
- Students.Enrollment.Save: the foreign keys `student` and `batch` are not checked, because users and batches are not tables of the payment store; the database would also refuse the write for an unknown key.
- Batches.CheckRow: the foreign key `created_by` is not checked, because users are not a table of this model; the database would also refuse a batch with an unknown creator.
- Payments.PaymentStore.AddTransaction: returns `Ok` after the insert. In the program the `post_save` receiver `payment_notification` is connected when the notifications app loads, and it reads `instance.user`, which a transaction does not have. So every create raises `AttributeError` to its caller after the INSERT, and the row is kept only when no surrounding transaction is rolled back.
- Notifications.NotificationTable.OnUserDeleted: applies only the notification table's own foreign keys. Deleting a user also cascades to the batches and payment plans they created, their student profile and its transactions, and their enrollments. The caller must apply `OnBatchDeleted` and `OnPaymentDeleted` for each cascaded batch and transaction; no member composes that chain.
- Notifications.NotificationTable.OnBatchDeleted: clears only the notification rows' `related_batch`. Deleting a batch also cascades to its enrollments (apps/students/models.py:64-68), then to their payment plans, installments and transactions; each deleted transaction then nulls `related_payment` in notifications. The caller must run `Payments.PaymentStore.DeleteEnrollment` for each cascaded enrollment and `OnPaymentDeleted` for each removed transaction; no member composes that chain.
- Payments.PaymentStore.DeleteStudent: removes only the payment rows. The caller must apply `Notifications.NotificationTable.OnPaymentDeleted` for each key in `removed`; no member composes the two.
- Payments.PaymentStore.AddPlan: the existence of the enrollment and of `created_by` is not checked, because enrollments and users are not tables of this model.
- Payments.PaymentStore.AddTransaction: the existence of the enrollment and of the student is not checked, for the same reason.
- Payments.PaymentStore.DeleteEnrollment: only states the transactions that remain through `AfterEnrollmentDeleted`. The notification rows that pointed at deleted transactions are cleared by calling `NotificationTable.OnPaymentDeleted` for each returned key, not by this method.
- Installments.ReplayKeepsUnique: treats every plan as existing; plan existence is checked by `PaymentStore.AddInstallment`.
- Ordering of plans and transactions (`-created_at`) is not modelled; only the notification and installment orderings are.
- Signals.BatchCreatedNotification: the user table is a snapshot given by the caller, in the order the staff query returns it.
- Enrollment fields not read by `save()` (enrollment date, student and profile details such as phone, address and picture) are not modelled.
