# Financeiro back end, modelled in Dafny

The back end of a Brazilian company's finance desk. It keeps accounts
payable as `payments` rows that are single, split into installments or
recurring. Editing a payment can switch its type, and the series is rebuilt
by deleting, inserting and renumbering rows. The Banco do Brasil feed is
imported into `reconciliation_statements`, with duplicates removed. Pending
lines are matched against `bank_statements` and reconciled in two writes.

Three crons do the routine work:
- promote scheduled payments that have fallen due;
- settle receivables on the acquirer's settlement day;
- send the day's pending transfers to the bank.

Payments are executed as a PAID flag plus a DEBIT statement line, and batches
of boletos, Pix payments or transfers are released through the bank.
Receivables are derived from sales according to their payment method. CNAB
400 remittance files are generated. Boletos arrive by upload or by e-mail;
their text is read and turned into payment requests, with a guard against
duplicate barcodes.

The modules follow the source files:

- `src/controllers/paymentController.js`: `Payments`, `PaymentSeries`, `PaymentCreate`, `PaymentUpdate`, `PaymentUpdateProperties`
- `src/controllers/bankController.js`: `BankDates`, `Statements`, `Reconciliation`, `Transfers`
- `src/controllers/receivableController.js`: `Receivables`, `ReceivableController`
- `src/crons/receivableCron.js`: `ReceivableCron`
- `src/crons/paymentCron.js`: `PaymentCron`
- `src/services/bankPaymentService.js`: `BankPayment`
- `src/controllers/batchPaymentController.js`: `BatchPayments`
- `src/crons/transferCron.js`: `TransferCron`
- `src/controllers/cnabController.js`: `Cnab`
- `src/controllers/billController.js`: `BillFormat`, `PaymentRequests`, `Bills`
- `src/crons/mailParserCron.js`: `MailParser`

The shared modules `Wrappers`, `Seqs`, `Dates`, `Text` and `DateText` hold
options, order-preserving filters, calendar arithmetic, decimal digits and
padding, and `YYYY-MM-DD` text.

**Database tables.** Each table is an in-memory sequence of rows. The
database assigns ids from a counter. A class holds the table and reassigns
it on every call. Each database call takes an explicit failure flag, or a
set of the steps that fail. Its effect is also written as a function of the
old table. The Supabase filters `eq`, `gt`, `gte`, `lte` and `in` become
column predicates. `eq` against NULL matches nothing, as in SQL.

**Handlers.** A handler is a method whose `ensures` equals a pure effect
function of the old state. Lemmas about that effect function state what
the code promises and what it fails to protect. There is no transaction,
no rollback and no protection of PAID rows.

**Money and dates.** Money is `real`. The CNAB amount is an integer
number of cents. Dates are proleptic Gregorian days with JavaScript's
`setDate`/`setMonth` roll-over.

**Values passed in as parameters:**
- the current day;
- fresh group ids (`uuidv4`);
- random file names;
- the bucket's public URL;
- the OCR and text-model answers;
- the bank's answers.

`src/crons/mailParserCron.js` carries its own copies of `formatBillCurrency`,
`formatBillDate` and `createPaymentRequest`. They are the same code as in
`src/controllers/billController.js`, except for one thing: the duplicate
guard looks for origin EMAIL instead of MANUAL. One definition,
`PaymentRequests.CreateEffect`, models both copies. Its `guardOrigin`
parameter is that difference, and the rows below cite each copy where it
is used.

## Model

| member | source | states |
|---|---|---|
| Payments.Table.Select | src/controllers/paymentController.js:619-622 | `select("*")` with `eq`/`gt`/`gte` filters returns exactly the table rows every filter accepts |
| Payments.Table.Delete | src/controllers/paymentController.js:446-452 | `delete()` with filters keeps exactly the rows some filter rejects and never moves the id counter |
| Payments.Table.Update | src/controllers/paymentController.js:624-627 | `update(patch)` with filters patches exactly the matching rows, in place, and leaves the others as they were |
| Payments.Table.Insert | src/controllers/paymentController.js:80-82 | `insert(rows)` appends the rows after the existing ones, under fresh consecutive ids |
| Payments.SelectGroup | src/controllers/paymentController.js:619-622 | a select on one `payment_group` sees exactly the rows of that group, in table order |
| Payments.DeleteFrame | src/controllers/paymentController.js:552-557 | rows that no delete filter can match survive a delete untouched and in order |
| Payments.UpdateFrame | src/controllers/paymentController.js:624-627 | rows that no update filter can match come through an update untouched and in order |
| Payments.UpdateCount | src/controllers/paymentController.js:624-627 | an update that keeps a row property keeps the number of rows with that property |
| Payments.InsertFrame | src/controllers/paymentController.js:606-608 | rows inserted outside a selection do not change that selection |
| Payments.DeleteRemovesId | src/controllers/paymentController.js:552-557 | a deleted row's id no longer occurs in the table |
| Payments.InsertKeepsAbsent | src/controllers/paymentController.js:606-608 | an id already handed out and since removed is never handed out again |
| Payments.DeleteValid | src/controllers/paymentController.js:552-557 | a delete keeps the ids distinct and below the counter |
| Payments.UpdateValid | src/controllers/paymentController.js:624-627 | an update never writes an id, so ids stay distinct |
| Payments.InsertValid | src/controllers/paymentController.js:606-608 | an insert hands out fresh ids, so ids stay distinct |
| Payments.PaymentStore.Select | src/controllers/paymentController.js:619-622 | the store's select returns the table's answer, or nothing when the call fails |
| Payments.PaymentStore.Delete | src/controllers/paymentController.js:446-452 | the store's delete applies the filtered delete, and a failed call changes nothing |
| Payments.PaymentStore.Update | src/controllers/paymentController.js:624-627 | the store's update applies the filtered patch, and a failed call changes nothing |
| Payments.PaymentStore.Insert | src/controllers/paymentController.js:80-82 | the store's insert appends all the rows or, on failure, none |
| PaymentSeries.MonthsAfterIncreasing | src/controllers/paymentController.js:373-374 | repeated `setMonth(getMonth() + 1)` calls land on strictly later dates |
| PaymentSeries.MonthsAfterNoDrift | src/controllers/paymentController.js:373-374 | from a day of month up to the 28th, n successive one-month steps equal adding n months at once |
| PaymentSeries.MonthsAfterDrifts | src/controllers/paymentController.js:373-374 | from 31 January 2024 two successive one-month steps reach 2 April, while adding two months reaches 31 March |
| PaymentSeries.StepForward | src/controllers/paymentController.js:415-436 | every known frequency (biweekly, monthly, bimonthly, quarterly, yearly) moves the date strictly forward |
| PaymentSeries.RecurringDates | src/controllers/paymentController.js:387-437 | the recurring due dates are empty iff the due date is after the end date; otherwise they start at the due date, none is after the end, and one more step after the last would pass it |
| PaymentSeries.RecurringDatesStep | src/controllers/paymentController.js:387-437 | each recurring due date is one frequency step after the one before |
| PaymentSeries.RecurringDatesIncreasing | src/controllers/paymentController.js:387-437 | the recurring due dates are strictly increasing |
| PaymentSeries.InstallmentRowAt | src/controllers/paymentController.js:344-375 | row `i` of an installment series is the template due `i` months after the start and numbered `first + i` |
| PaymentSeries.InstallmentRowsOrdered | src/controllers/paymentController.js:344-375 | installment rows are numbered consecutively from the first number and strictly increasing in due date |
| PaymentSeries.BuildInstallments | src/controllers/paymentController.js:339-378 | the installment loop pushes `count` copies of the template, the k-th due k months on and numbered from the first number |
| PaymentSeries.BuildRecurring | src/controllers/paymentController.js:382-440 | the recurring loop pushes one copy of the template for each recurring due date, in order |
| PaymentCreate.CreatePayment | src/controllers/paymentController.js:12-110 | the handler leaves the table and answers the status that the create effect describes |
| PaymentCreate.CreateRejects | src/controllers/paymentController.js:38-44 | the answer is 400 iff one of supplier_name, value, due_date, type, userId is missing or the type is not single, installments or recurring; any answer but 200 writes nothing |
| PaymentCreate.CreateSingle | src/controllers/paymentController.js:50-77 | a single payment is exactly one SCHEDULED row outside any group, appended under the next id, with both creator columns (`created_by_id` and `created_by`) set to the user, and the answer is 200 |
| PaymentCreate.CreateInstallments | src/controllers/paymentController.js:78-79 | an installments request appends exactly its plan: n rows in the new group, numbered 1 to n, each carrying n, SCHEDULED, the value unchanged, due on successive months, with both creator columns set to the user |
| PaymentCreate.CreateRecurring | src/controllers/paymentController.js:80-81 | a recurring request keeps the existing rows and appends, under consecutive fresh ids, one SCHEDULED row in the new group for each recurring due date from the due date up to the end date, none when the due date is after it |
| PaymentCreate.CreateRecurringWithoutEnd | src/controllers/paymentController.js:382-387 | without an end date (an invalid date in JavaScript) a recurring request inserts no row |
| PaymentUpdate.Fetched | src/controllers/paymentController.js:124-132 | the fetched row is a row of the table carrying the requested id |
| PaymentUpdate.UpdateToSinglePayment | src/controllers/paymentController.js:442-525 | leaving a series takes the table to the to-single effect: delete later group rows, recount installments, rewrite the edited row, writing the body's `pixKey` as its PIX key and keeping the stored key when that is absent |
| PaymentUpdate.UpdateInstallments | src/controllers/paymentController.js:527-641 | editing an installment plan takes the table to the installments effect: guard, delete, regenerate, recount; the regenerated rows take the body's `pix_key` (NULL when absent) |
| PaymentUpdate.UpdateInstallmentsToRecurrency | src/controllers/paymentController.js:643-783 | the plan-to-recurring edit takes the table to its effect: delete, new series from today, recount of the old group |
| PaymentUpdate.ReplaceRows | src/controllers/paymentController.js:902-988 | the delete-then-insert tail deletes the matching rows and, if that succeeds, inserts the new rows |
| PaymentUpdate.UpdateRecurrency | src/controllers/paymentController.js:785-900 | a recurring-to-recurring edit deletes the group rows from the old due date on and regenerates the series in the same group |
| PaymentUpdate.UpdateRecurringToInstallment | src/controllers/paymentController.js:902-988 | a recurring-to-installments edit deletes the group rows from the old due date on and inserts a new plan under a new group, whose rows take the body's `pix_key` |
| PaymentUpdate.UpdateSingleToInstallments | src/controllers/paymentController.js:989-1071 | a single-to-installments edit deletes the single row and inserts a new plan under a new group, whose rows take the body's `pix_key` |
| PaymentUpdate.UpdateSingleToRecurring | src/controllers/paymentController.js:1072-1174 | a single-to-recurring edit deletes the single row and inserts a new series under a new group, whose rows take the body's `pix_key` |
| PaymentUpdate.UpdatePayment | src/controllers/paymentController.js:112-204 | the handler answers 404 when the row cannot be fetched, otherwise dispatches on the (old type, new type) pair and answers 200 whatever the helper returned, 500 only on an exception |
| PaymentUpdateProperties.NotFound | src/controllers/paymentController.js:124-132 | the answer is 404 exactly when the edited row cannot be fetched, and then nothing is written |
| PaymentUpdateProperties.RoutesCoverKnownTypes | src/controllers/paymentController.js:141-184 | every pair of known types reaches a handler; `singleUpdate` sends any non-single new type to the in-place edit; a series turned single goes to `updateToSinglePayment` |
| PaymentUpdateProperties.InPlaceEdit | src/controllers/paymentController.js:141-175 | the in-place edit rewrites only the row with the given id, sets it SCHEDULED, keeps its type, group and numbering, writes the body's `pixKey` as its PIX key or keeps the stored one when that is absent, and answers 500 only when the update fails |
| PaymentUpdateProperties.InstallmentsGuard | src/controllers/paymentController.js:535-547 | `updateInstallments` returns 400 and writes nothing exactly when the new count is below the edited installment's number |
| PaymentUpdateProperties.InstallmentsInsertFailure | src/controllers/paymentController.js:552-617 | with no transaction, a failed insert leaves the old installments deleted and none in their place, and the caller still gets 200 |
| PaymentUpdateProperties.InstallmentsRecountFailure | src/controllers/paymentController.js:619-633 | a failure of either call after the insert, the group select (whose null result's `length` throws) or the recount (a reference error), throws, so the caller sees 500 with delete and insert already applied |
| PaymentUpdateProperties.NewPlanShape | src/controllers/paymentController.js:925-961 | a new plan is `installments` rows under the new group, numbered 1 to n, SCHEDULED, carrying n, due a month apart from the edit's due date, with the body's `pix_key` as PIX key, the stored row's `created_by_id` and `created_by` left NULL |
| PaymentUpdateProperties.SingleDeletesOnlyItself | src/controllers/paymentController.js:991-994 | turning a single payment into a series first deletes exactly that row |
| PaymentUpdateProperties.InstallmentsKeepOtherGroups | src/controllers/paymentController.js:552-627 | rows of other groups come through `updateInstallments` untouched and in order |
| PaymentUpdateProperties.InstallmentsRecounted | src/controllers/paymentController.js:619-627 | after `updateInstallments` every row of the group records the group's row count |
| PaymentUpdateProperties.InstallmentsDropFromEdited | src/controllers/paymentController.js:552-557 | every installment of the group due on or after the edited due date is gone, PAID or not |
| PaymentUpdateProperties.TailRow | src/controllers/paymentController.js:571-601 | the k-th regenerated installment is numbered edited number + k, due k + 1 one-month steps after the old due date, in the same group, SCHEDULED, with the body's `pix_key` as PIX key, the stored row's `created_by_id` and `created_by` left NULL |
| PaymentUpdateProperties.InstallmentsRegenerated | src/controllers/paymentController.js:571-627 | the table ends with the regenerated installments under fresh ids, numbered from the edited number to the new count, due one, two, ... months after the edited due date |
| PaymentUpdateProperties.LeavesGroup | src/controllers/paymentController.js:485-516 | the edit to single keeps the id and clears group, count, number, frequency and end date, taking the requested type and due date, and the body's `pixKey` as PIX key unless it is absent |
| PaymentUpdateProperties.ToSingleRecountFrame | src/controllers/paymentController.js:446-483 | the delete of later rows and the recount touch only the edited row's group |
| PaymentUpdateProperties.ToSingleEditFrame | src/controllers/paymentController.js:485-516 | the final edit touches only the edited row |
| PaymentUpdateProperties.ToSingleKeepsBystanders | src/controllers/paymentController.js:442-525 | leaving a series never touches rows outside the edited row's group |
| PaymentUpdateProperties.ToSingleDropsLater | src/controllers/paymentController.js:446-452 | every row of the group due strictly after the edited row is gone, PAID or not |
| PaymentUpdateProperties.ToSingleEditedStays | src/controllers/paymentController.js:446-452 | the edited row itself survives the `gt` delete and the recount, still in its group |
| PaymentUpdateProperties.EditToSingleRows | src/controllers/paymentController.js:485-516 | the edit rewrites exactly the rows carrying the edited id and keeps every id |
| PaymentUpdateProperties.ToSingleEditedRow | src/controllers/paymentController.js:485-516 | after leaving a plan the edited row exists and carries no group, count, number, frequency or end date |
| PaymentUpdateProperties.ToSingleRecountValid | src/controllers/paymentController.js:446-483 | the delete and the recount keep ids distinct |
| PaymentUpdateProperties.ToSingleRecountRows | src/controllers/paymentController.js:468-477 | the recount writes the group's size after the delete, less one, into every row of the group |
| PaymentUpdateProperties.EditShrinksGroup | src/controllers/paymentController.js:485-516 | taking the edited row out of its group shrinks the group by exactly one and leaves its other rows alone |
| PaymentUpdateProperties.ToSingleRecounted | src/controllers/paymentController.js:442-525 | after leaving a plan every row still in the group records how many rows the group now has |
| PaymentUpdateProperties.DeleteThenInsertFrame | src/controllers/paymentController.js:902-988 | a fault-free delete-then-insert leaves rows that neither step concerns where they were |
| PaymentUpdateProperties.DeleteThenInsertAppends | src/controllers/paymentController.js:966-968 | a fault-free delete-then-insert ends the table with the inserted rows under fresh ids |
| PaymentUpdateProperties.DeleteThenInsertDrops | src/controllers/paymentController.js:904-911 | a fault-free delete-then-insert removes every row the delete matched |
| PaymentUpdateProperties.RecurringKeepsOtherGroups | src/controllers/paymentController.js:785-900 | editing a recurring series never touches rows of other groups |
| PaymentUpdateProperties.RecurringDropsFromEdited | src/controllers/paymentController.js:794-798 | every row of the series due on or after the edited due date is gone, whatever its status |
| PaymentUpdateProperties.RecurringRegenerated | src/controllers/paymentController.js:815-881 | the table ends with one SCHEDULED row of the same group for each recurring date from the new due date to the end date, none without an end date |
| PaymentUpdateProperties.FromTodayRows | src/controllers/paymentController.js:667-699 | every row of the series started today is in the new group, of the recurring type, with the old row's routing fields and `created_by_id`, and `created_by` left NULL |
| PaymentUpdateProperties.FromTodayDates | src/controllers/paymentController.js:668-721 | the series started today is dated by the recurring dates from today and stays strictly before the end date, since `new Date()` carries the time of day |
| PaymentUpdateProperties.ToRecurringKeepsOthers | src/controllers/paymentController.js:643-783 | leaving a plan for a series keeps every row outside the old group in order and appends the new series |
| PaymentUpdateProperties.ToRecurringDropsFromEdited | src/controllers/paymentController.js:648-653 | the plan's installments due on or after the edited due date are gone, whatever their status |
| PaymentUpdateProperties.ToRecurringRecounted | src/controllers/paymentController.js:742-762 | the installments left in the old group record the size of that group |
| PaymentUpdateProperties.ToRecurringAppends | src/controllers/paymentController.js:726-762 | the recount does not reach the new series, which ends the table as inserted |
| PaymentUpdateProperties.ToRecurringNewSeries | src/controllers/paymentController.js:667-728 | the new series starts today, in the new group, with fresh ids and the old routing, and stops strictly before the end date |
| BankDates.ToDDMMYYYY | src/controllers/bankController.js:207-213 | the date sent to the bank is all digits, at least day and month zero-padded to two digits followed by the year |
| BankDates.Substring | src/controllers/bankController.js:219-221 | `substring(a, b)` clamps both ends to the string and is the slice `s[a..b]` when the string is long enough |
| BankDates.FromDDMMYYYY | src/controllers/bankController.js:215-223 | a seven- or eight-character feed date becomes a ten-character `YYYY-MM-DD` text with dashes at positions 4 and 7 |
| BankDates.WidenedDigits | src/controllers/bankController.js:216-218 | a feed number of seven or eight digits, once a leading zero is added to the seven-digit case, is eight digits of the same value |
| BankDates.LayoutSwap | src/controllers/bankController.js:215-223 | reading a `DDMMYYYY` text swaps its fields into `YYYY-MM-DD` |
| BankDates.LayoutValue | src/controllers/bankController.js:207-213 | the eight characters `DDMMYYYY` are the decimal digits of the number day·10⁶ + month·10⁴ + year |
| BankDates.NumberRead | src/controllers/bankController.js:171-172 | the feed's `dataLancamento` number, with or without a leading day zero, is read back field by field |
| BankDates.DDMMYYYYRoundTrip | src/controllers/bankController.js:207-223 | writing a date for the bank and reading it back gives the stored `YYYY-MM-DD` of the same day |
| BankDates.FeedDateRead | src/controllers/bankController.js:171-172 | the number the bank feed sends for a day is stored as that day's `YYYY-MM-DD` |
| Statements.NumberedFrom | src/controllers/bankController.js:274-276 | inserted rows keep their order and receive consecutive ids from the first free one |
| Statements.Ledger.Select | src/controllers/bankController.js:76-79 | a filtered select returns exactly the rows every filter accepts |
| Statements.Ledger.Insert | src/controllers/bankController.js:274-276 | an insert appends the rows, numbered from the next id, after every existing row |
| Statements.Ledger.Update | src/controllers/bankController.js:453-462 | an update rewrites exactly the rows the filters accept, in place, and leaves the others and the id counter alone |
| Statements.Ledger.Delete | src/controllers/receivableController.js:537-542 | a delete keeps exactly the rows some filter rejects |
| Statements.FitsOne | src/controllers/bankController.js:76-79 | a one-column filter holds exactly when its column test does |
| Statements.UpdateById | src/controllers/bankController.js:453-462 | an update by id touches the rows carrying that id and no other |
| Statements.InsertKeeps | src/controllers/bankController.js:274-276 | inserting never loses an existing row |
| Statements.StatementStore.Select | src/controllers/bankController.js:74-79 | a failed select yields no rows; otherwise it yields the table's selection |
| Statements.StatementStore.Insert | src/controllers/bankController.js:274-276 | an insert stores all its rows or, when the call fails, none |
| Statements.StatementStore.Update | src/controllers/bankController.js:453-462 | an update applies to the table or, when the call fails, leaves it as it was |
| Statements.StatementStore.Delete | src/controllers/receivableController.js:537-542 | a delete applies to the table or, when the call fails, leaves it as it was |
| Reconciliation.FeedRowShape | src/controllers/bankController.js:170-181 | a feed entry becomes a PENDING row of the account, CREDIT exactly for sign `C`, with history and complement joined by a space, its document and value, and the entry's day as transaction and value date |
| Reconciliation.FeedRowsCover | src/controllers/bankController.js:162-181 | the first feed entry is dropped, every later entry with a batch number or document becomes a row, and every row comes from such an entry |
| Reconciliation.FeedRowsHas | src/controllers/bankController.js:166-168 | a later feed entry with a reference is among the rows handed on |
| Reconciliation.FeedRowsFrom | src/controllers/bankController.js:166-181 | every row handed on is the image of a later feed entry with a reference |
| Reconciliation.FetchInsideWindow | src/controllers/bankController.js:138-140 | the first day asked of the bank lies inside the dedupe window, strictly after its start when a last sync exists |
| Reconciliation.NewStatementsExact | src/controllers/bankController.js:259-270 | a fetched row is inserted exactly when no stored row in the window has its date, description, document and value, and the kept rows keep their order |
| Reconciliation.StoredIsSeen | src/controllers/bankController.js:250-270 | a stored row the dedupe lookup returns hides every fetched row with its key |
| Reconciliation.InWindow | src/controllers/bankController.js:245-257 | the dedupe lookup filters on account and date only, never on the id |
| Reconciliation.SeenAfterImport | src/controllers/bankController.js:238-280 | after a fault-free import every fetched row inside the window is visible to the next dedupe lookup |
| Reconciliation.SeenBefore | src/controllers/bankController.js:238-280 | a row visible to the dedupe lookup before an import stays visible after it |
| Reconciliation.SeenOnceInserted | src/controllers/bankController.js:259-276 | a fetched row not seen before is inserted and then found by the lookup |
| Reconciliation.InsertedIsSeen | src/controllers/bankController.js:274-276 | an inserted row the lookup's filters accept is found by that lookup |
| Reconciliation.ImportIdempotent | src/controllers/bankController.js:238-280 | importing the same batch twice inserts nothing the second time inside the dedupe window |
| Reconciliation.UnreconciledLines | src/controllers/bankController.js:99-116 | the loop lists, in order, the reconciliation rows no bank row equals on date, description, document, value and type |
| Reconciliation.UnreconciledExact | src/controllers/bankController.js:99-116 | a row is listed exactly when it is a reconciliation row with no bank row equal on all five fields |
| Reconciliation.CompareShape | src/controllers/bankController.js:402-426 | each pending reconciliation row is paired, in order, with exactly the pending bank rows that are candidates for it |
| Reconciliation.CandidateDays | src/controllers/bankController.js:404-419 | a bank row is a candidate exactly when it falls on the day before, the day of or the day after, has the same type and differs in value by at most 1 |
| Reconciliation.ReconcileNeedsBothIds | src/controllers/bankController.js:441-450 | the answer is 400 exactly when either id is missing, and then nothing is written |
| Reconciliation.SelectOne | src/controllers/bankController.js:461-462 | with distinct ids, selecting an existing id finds one row, so `single()` succeeds |
| Reconciliation.SelectDistinct | src/controllers/bankController.js:461-462 | a selection from a table with distinct ids has distinct rows |
| Reconciliation.FilterDistinctRows | src/controllers/bankController.js:461-462 | filtering rows with distinct ids keeps them distinct |
| Reconciliation.ReconcileSucceeds | src/controllers/bankController.js:452-487 | with both rows present and no fault the answer is 200, the reconciliation row is RECONCILED and linked to the bank row, the bank row is RECONCILED, and no other row changes |
| Reconciliation.ReconcileHalfDone | src/controllers/bankController.js:452-476 | when the bank write fails after the first write, the answer is 500 and the reconciliation row stays linked while the bank table is untouched |
| Reconciliation.Books.ImportStatements | src/controllers/bankController.js:238-284 | `insertBankStatement` changes the reconciliation table as the import effect says and never the bank table |
| Reconciliation.Books.FetchBankStatement | src/controllers/bankController.js:132-205 | the fetched feed is imported and the last sync moves to today unless that write fails |
| Reconciliation.Books.UnreconciledStatements | src/controllers/bankController.js:70-130 | `getReconciliationStatements` answers 400 without an account, nothing when the bank select fails, 500 when the other select fails, else the unmatched rows of the account |
| Reconciliation.Books.CompareStatements | src/controllers/bankController.js:356-439 | `compareStatements` answers 400 without an account, 500 on a failed select, else the pairings of the pending rows of the account |
| Reconciliation.Books.ReconcileStatements | src/controllers/bankController.js:441-495 | `reconcileStatements` changes both tables and answers as the reconcile effect says |
| PaymentCron.MatchesTwo | src/crons/paymentCron.js:15-19 | a select with two filters accepts a row exactly when both filters do |
| PaymentCron.SelectedIds | src/crons/paymentCron.js:26-32 | with distinct ids, a row's id is among the selected ids exactly when the row itself was selected, so `.in("id", ids)` rewrites the selected rows and no other |
| PaymentCron.RestatusRow | src/crons/paymentCron.js:13-47 | without a failing call a row takes the new status exactly when the select accepted it, and nothing else about it changes |
| PaymentCron.RestatusShape | src/crons/paymentCron.js:13-47 | a status sweep, failing or not, keeps the number of rows and the id counter |
| PaymentCron.SweepExact | src/crons/paymentCron.js:13-83 | a sweep on one status and one due-date filter gives exactly the rows passing both the new status and leaves every other row and column alone |
| PaymentCron.PromoteExact | src/crons/paymentCron.js:13-47 | `updatePendingPayments` turns exactly the SCHEDULED payments due today or earlier into PENDING ones and leaves every other row and column alone |
| PaymentCron.DemoteExact | src/crons/paymentCron.js:49-83 | as written, `updateScheduledPayments` turns exactly the PENDING payments due today or later into SCHEDULED ones: `due_date` is a date column, so `gte` with the current timestamp compares with today |
| PaymentCron.DemoteCorrectedExact | src/crons/paymentCron.js:49-83 | with `gt` for `gte`, the inverse turns exactly the PENDING payments due after today into SCHEDULED ones |
| PaymentCron.RestatusNothingSelected | src/crons/paymentCron.js:25-43 | when no row matches, nothing is written |
| PaymentCron.PromoteIdempotent | src/crons/paymentCron.js:85-89 | running the scheduled promoter twice in a row is running it once |
| PaymentCron.PromoteValid | src/crons/paymentCron.js:25-32 | the promotion writes no id, so ids stay distinct |
| PaymentCron.DemoteUndoesPromotion | src/crons/paymentCron.js:13-83 | as written, a SCHEDULED payment due today is promoted to PENDING and the inverse sweep sends it straight back, leaving the row as it was |
| PaymentCron.DemoteSparesPromoted | src/crons/paymentCron.js:13-83 | the corrected inverse never sends back a payment the promoter turned PENDING because it is due |
| PaymentCron.UpdatePendingPayments | src/crons/paymentCron.js:13-47 | the cron job changes the payments table exactly as the promotion effect says, failures included |
| PaymentCron.UpdateScheduledPayments | src/crons/paymentCron.js:49-83 | the inverse job changes the payments table exactly as the as-written demotion effect says, failures included |
| BankPayment.ExecuteNeedsId | src/services/bankPaymentService.js:18-20 | without a payment id the service throws "Payment ID not provided" and writes nothing |
| BankPayment.ExecuteUnknown | src/services/bankPaymentService.js:24-32 | an id no payment carries throws "Payment not found" and writes nothing |
| BankPayment.FindsRow | src/services/bankPaymentService.js:24-28 | with distinct ids the lookup by a payment's id returns exactly that payment, so `single()` succeeds |
| BankPayment.DistinctPair | src/services/bankPaymentService.js:24-28 | in a table with distinct ids two positions hold different ids |
| BankPayment.ExecutePays | src/services/bankPaymentService.js:17-77 | without failure exactly the payment with the id becomes PAID, the result carries the payment as read, and exactly its DEBIT line is appended to the bank statements |
| BankPayment.ExecuteHalfDone | src/services/bankPaymentService.js:35-71 | when the statement insert fails the service throws with the payment already PAID and no statement line written |
| BankPayment.DebitLineShape | src/services/bankPaymentService.js:47-63 | the line is a DEBIT of the payment's value dated today for its supplier and linked to it, PENDING exactly when the payment has no category, described as the payment's description and a space followed by `(n/m)` exactly when both installment fields are set |
| BankPayment.MessagesDiffer | src/services/bankPaymentService.js:18-82 | each failure throws its own message: "Payment ID not provided" exactly for a missing id, "Payment not found" exactly for an unknown one, and never "Payment not provided" |
| BankPayment.MissingIdAnswers500 | src/controllers/bankController.js:286-304 | as written the controller's 400 branch is dead: no thrown message is "Payment not provided", so a missing id answers 500 |
| BankPayment.ReplyStatusIntended | src/controllers/bankController.js:286-304 | tested against the message the service throws, the controller answers 400 exactly for a missing id, 404 exactly for an unknown one and 200 exactly on success |
| BankPayment.HandleExecutePayment | src/controllers/bankController.js:286-304 | the handler changes the tables as the execution effect says and answers the status its thrown message maps to as written |
| BankPayment.ExecutePayment | src/services/bankPaymentService.js:17-82 | the service changes the payments and statement tables and answers exactly as the execution effect says |
| Transfers.TransferTable.Insert | src/controllers/bankController.js:325-339 | an insert appends one row under the next id |
| Transfers.TransferTable.Restatus | src/controllers/batchPaymentController.js:517-522 | `update({status}).in("id", ids)` gives the status to exactly the rows whose id is listed |
| Transfers.TransferTable.DueToday | src/crons/transferCron.js:41-45 | the cron's select returns exactly the PENDING transfers dated today |
| Transfers.CreateTransferRecords | src/controllers/bankController.js:306-354 | `createBankTransfer` answers 201 exactly when source, destination, a non-zero value and date are given, appending one PENDING transfer with those fields, an empty bank transaction id and the description and type defaults; otherwise 400 with no write |
| Transfers.CreateTransferValid | src/controllers/bankController.js:325-339 | creating a transfer keeps the transfer ids distinct |
| Transfers.TransferStore.CreateBankTransfer | src/controllers/bankController.js:306-354 | the handler changes the transfer table and answers exactly as the creation effect says, 500 on a failed insert |
| Transfers.TransferStore.Restatus | src/controllers/batchPaymentController.js:517-522 | a status write applies to the table or, when the call fails, leaves it as it was |
| BatchPayments.SplitFromEntries | src/controllers/batchPaymentController.js:86-106 | with several entries, or one and no top-level payment id, the ids settled are the entries' ids in order, the first entry's user acts, and each entry loses exactly its two id fields |
| BatchPayments.SplitFromTop | src/controllers/batchPaymentController.js:107-111 | with one entry and a top-level payment id, only that id is settled, the top-level user acts and both are cleared from the payload |
| BatchPayments.SomeIds | src/controllers/batchPaymentController.js:150-154 | the ids the `.in("id", …)` filter matches are exactly the given ones |
| BatchPayments.ExecuteAllStops | src/controllers/batchPaymentController.js:156-158 | once one execution throws, no later payment id is tried |
| BatchPayments.ExecuteAllMissingFirst | src/controllers/batchPaymentController.js:156-158 | a batch whose first id is missing executes nothing |
| BatchPayments.BatchNeedsEntries | src/controllers/batchPaymentController.js:57-65 | a payload without a non-empty list is refused with 400 and nothing is called or written |
| BatchPayments.BatchNeedsRequestNumber | src/controllers/batchPaymentController.js:131-136 | without a non-zero request number the handler answers 400 with no write; the transfer handler reads it from its own payload (line 393) |
| BatchPayments.FlagExact | src/controllers/batchPaymentController.js:150-154 | after a 200 release exactly the settled payments carry `bb_payment_status` COMPLETED and every other row is as it was |
| BatchPayments.CreateBatchPayment | src/controllers/batchPaymentController.js:53-184 | each batch handler changes the payments and statements and answers exactly as the batch effect says |
| BatchPayments.ExecuteEach | src/controllers/batchPaymentController.js:156-158 | the loop executes the ids in order and stops at the first that throws, as the execution sequence says |
| BatchPayments.HelperMarksEntry | src/controllers/batchPaymentController.js:450-530 | for the one-entry payload the transfer cron builds, a 200 release marks exactly the named transfer COMPLETED |
| TransferCron.NumReqFresh | src/crons/transferCron.js:14-30 | `getNumReq` returns the stored number and stores the next, so two successful calls hand out increasing numbers |
| TransferCron.DayFirst | src/crons/transferCron.js:90-95 | reversing the `YYYY-MM-DD` fields gives eight characters |
| TransferCron.DayFirstIsBankForm | src/crons/transferCron.js:90-95 | the transfer date goes to the bank in the same `DDMMYYYY` form as the statement dates and reads back as the same day |
| TransferCron.PayloadShape | src/crons/transferCron.js:100-120 | the payload pays with type 128, falls back to check digit "X", and holds exactly one leg, which names the transfer as the payment to settle with its value and date, under the drawn request number |
| TransferCron.CronIdleWhenNothingDue | src/crons/transferCron.js:41-55 | with no PENDING transfer dated today nothing is written |
| TransferCron.ProcessOneSucceeds | src/crons/transferCron.js:62-169 | a transfer whose bank calls go through draws one request number, becomes COMPLETED, and is followed by the test DEBIT, the CREDIT and the DEBIT lines in that order |
| TransferCron.ProcessOneBankFails | src/crons/transferCron.js:123-135 | when the bank call throws the transfer stays PENDING and only the request number and the test line remain |
| TransferCron.ZeroRequestNumberFails | src/crons/transferCron.js:14-30 | a stored request number of zero counts as missing, so that transfer fails after its test line |
| TransferCron.ProcessAllSteps | src/crons/transferCron.js:62-173 | whatever happens to one transfer the loop goes on: the run is the passes one after another |
| TransferCron.TransferDesk.GetNumReq | src/crons/transferCron.js:14-30 | the counter and the returned number follow the request-number effect, and no other table changes |
| TransferCron.TransferDesk.CreateStatement | src/crons/transferCron.js:179-216 | a statement line is appended unless the insert fails, and nothing else changes |
| TransferCron.TransferDesk.Send | src/crons/transferCron.js:99-169 | once the request number, the accounts and the date are in hand, the test line, the helper call, the COMPLETED status and the two lines change the tables exactly as the sending effect says |
| TransferCron.TransferDesk.ProcessTransfer | src/crons/transferCron.js:62-172 | one pass of the loop changes the tables exactly as the one-transfer effect says |
| TransferCron.TransferDesk.ProcessPendingTransfers | src/crons/transferCron.js:33-177 | the run changes the tables exactly as the cron effect says |
| Receivables.RecTable.Select | src/controllers/receivableController.js:60-64 | a filtered select on `receivables` returns exactly the rows every filter accepts |
| Receivables.RecTable.Insert | src/controllers/receivableController.js:564-582 | an insert appends one receivable under the next id and leaves the group counter alone |
| Receivables.RecTable.Update | src/controllers/receivableController.js:446-453 | an update rewrites exactly the rows the filters accept, in place, and keeps both counters |
| Receivables.RecTable.NewGroup | src/controllers/receivableController.js:21 | drawing a group identifier consumes a fresh one and changes no row |
| Receivables.PicksOne | src/controllers/receivableController.js:60-64 | a one-column filter holds exactly when its column test does |
| Receivables.SelectsOnly | src/controllers/receivableController.js:60-64 | a filter exactly one row passes selects that row alone, so `single()` succeeds |
| Receivables.SelectsById | src/controllers/receivableController.js:434-438 | with distinct ids, the filter on a row's id selects that row alone |
| Receivables.SelectsNoId | src/controllers/receivableController.js:434-442 | an id no row carries selects nothing, which the handlers answer with 404 |
| Receivables.RecUpdateById | src/controllers/receivableController.js:446-453 | an update by id rewrites that row and no other |
| Receivables.InsertValid | src/controllers/receivableController.js:564-582 | inserting a receivable of an already drawn group keeps ids distinct and groups drawn |
| Receivables.UpdateValid | src/controllers/receivableController.js:446-453 | updates keep the table's ids distinct and its groups drawn |
| ReceivableController.PlanOfCount | src/controllers/receivableController.js:100-112 | "1x" to "12x" spread over that many installments, "0x" and counts above 12 are refused, and a bare "x" reads no count at all |
| ReceivableController.Dues | src/controllers/receivableController.js:115-117 | an `n`-installment series has `n` due dates, 30, 60, ... days after the start |
| ReceivableController.DuesApart | src/controllers/receivableController.js:115-117 | consecutive installments fall due 30 days apart, in increasing order, on real calendar days |
| ReceivableController.Draft | src/controllers/receivableController.js:555-582 | `createReceivable` writes one installment in the caller's group, with the given date, status and value, linked to the approval request and created by the user |
| ReceivableController.InsertSeries | src/controllers/receivableController.js:115-132 | the installment loop only appends receivables and keeps every earlier row |
| ReceivableController.SeriesAppends | src/controllers/receivableController.js:115-132 | without failure the loop appends one PENDING receivable per due date, in order, under consecutive ids |
| ReceivableController.TotalOfEqual | src/controllers/receivableController.js:120 | receivables of equal value sum to their number times that value |
| ReceivableController.ShareTimes | src/controllers/receivableController.js:120 | `n` shares of the net value over `n` add back to the net value |
| ReceivableController.SeriesSplitsNet | src/controllers/receivableController.js:115-132 | an `n`-installment series adds `n` receivables whose values sum to the net value |
| ReceivableController.CreateRefuses | src/controllers/receivableController.js:15-31 | without a receivable body the answer is 400, without a payment method 404, and nothing is written |
| ReceivableController.FreshGroupFound | src/controllers/receivableController.js:60-64 | the lookup by a freshly drawn group finds exactly the row just inserted with it |
| ReceivableController.CreateImmediate | src/controllers/receivableController.js:46-95 | an immediate sale writes one receivable of the net value, RECEIVED exactly when paid today, and one CREDIT line of the net value dated today linked to it, PENDING exactly when it has no category |
| ReceivableController.SeriesRows | src/controllers/receivableController.js:115-132 | the rows a series appends are the drafts of its due dates at the share value, by position |
| ReceivableController.CreateInstallments | src/controllers/receivableController.js:100-132 | "Nx" writes `n` PENDING receivables of one group due 30, 60, ... days after the payment date, each worth the net value over `n`, and no statement line |
| ReceivableController.CreateFollowsPlan | src/controllers/receivableController.js:34-155 | with the method found, `create` writes what the plan its condition names writes, on the net value after both fees |
| ReceivableController.CreateThirtySixtyNinety | src/controllers/receivableController.js:134-152 | "30/60/90" writes three PENDING receivables due 30, 60 and 90 days from today, a third of the net value each |
| ReceivableController.ThirtyRows | src/controllers/receivableController.js:134-152 | the "30/60/90" plan counts from today whatever the payment date |
| ReceivableController.CreateBadCount | src/controllers/receivableController.js:105-111 | a count outside 1 to 12 throws (500) before any receivable is written |
| ReceivableController.CreateNoCount | src/controllers/receivableController.js:100-132 | a condition "x" with no count is answered as created yet writes nothing |
| ReceivableController.ApproveImmediate | src/controllers/receivableController.js:240-352 | approving an immediate request writes one RECEIVED receivable dated today linked to the request, its CREDIT line, and marks the request APPROVED by the user |
| ReceivableController.ApproveImmediateTwice | src/controllers/receivableController.js:250-258 | approving an immediate request a second time writes a second receivable and answers 404, with no line and no new mark |
| ReceivableController.TwoInOne | src/controllers/receivableController.js:250-258 | a selection holding two different rows is not a single row |
| ReceivableController.ApproveInstallments | src/controllers/receivableController.js:292-352 | at approval "Nx" counts from today, and the request is APPROVED once the series is written |
| ReceivableController.ApproveMarksLast | src/controllers/receivableController.js:343-357 | a failed APPROVED write leaves the receivables already written and the request as it was |
| ReceivableController.SeriesIgnores | src/controllers/receivableController.js:115-132 | only the installment inserts can fail inside the loop |
| ReceivableController.RejectOnlyMarks | src/controllers/receivableController.js:372-421 | rejecting marks the request REJECTED by the user and changes nothing else; 200 exactly when the request exists and both calls succeed |
| ReceivableController.ReverseWithoutLine | src/controllers/receivableController.js:423-471 | with no statement line for it the receivable still ends REVERSED by the user and the answer is 404 |
| ReceivableController.ReverseWithLine | src/controllers/receivableController.js:423-492 | with exactly one line for it both the receivable and the line end REVERSED and no other row changes |
| ReceivableController.LineOfReceivable | src/controllers/receivableController.js:463-467 | the lookup of a receivable's only line finds that line |
| ReceivableController.CancelDropsLines | src/controllers/receivableController.js:501-546 | canceling marks the receivable CANCELED, removes every line linked to it and keeps every other line |
| ReceivableController.ReceivableDesk.NewGroup | src/controllers/receivableController.js:21 | the handler's `uuidv4()` hands out the next group and changes no table |
| ReceivableController.ReceivableDesk.CreateReceivable | src/controllers/receivableController.js:555-589 | one receivable is inserted unless the call fails |
| ReceivableController.ReceivableDesk.CreateSeries | src/controllers/receivableController.js:115-132 | the installment loop changes the receivables as the series effect says and nothing else |
| ReceivableController.ReceivableDesk.Immediate | src/controllers/receivableController.js:46-96 | the immediate branch changes the tables and answers as its effect says |
| ReceivableController.ReceivableDesk.ApplyPlan | src/controllers/receivableController.js:46-152 | the branch the plan selects changes the tables and answers as the plan effect says |
| ReceivableController.ReceivableDesk.Create | src/controllers/receivableController.js:12-163 | `create` changes the tables and answers as the creation effect says |
| ReceivableController.ReceivableDesk.Approve | src/controllers/receivableController.js:197-370 | `approveReceivableRequest` changes the tables and answers as the approval effect says |
| ReceivableController.ReceivableDesk.Reject | src/controllers/receivableController.js:372-421 | `rejectReceivableRequest` changes the tables and answers as the rejection effect says |
| ReceivableController.ReceivableDesk.Reverse | src/controllers/receivableController.js:423-499 | `reverseReceivable` changes the tables and answers as the reversal effect says |
| ReceivableController.ReceivableDesk.Cancel | src/controllers/receivableController.js:501-553 | `cancelReceivable` changes the tables and answers as the cancellation effect says |
| ReceivableCron.PicksTwo | src/crons/receivableCron.js:18-27 | a select with two filters accepts a row exactly when both do |
| ReceivableCron.CandidateRows | src/crons/receivableCron.js:18-27 | a row is selected exactly when it is a PENDING receivable dated today or earlier |
| ReceivableCron.SettledIds | src/crons/receivableCron.js:76-82 | with distinct ids, a row's id is among the settled ids exactly when that row was settled |
| ReceivableCron.SettledRows | src/crons/receivableCron.js:36-47 | a row is settled exactly when it is a candidate whose payment date plus its method's settlement days is today |
| ReceivableCron.MarkReceivedRow | src/crons/receivableCron.js:76-82 | the status write changes a row exactly when it is one of the settled receivables |
| ReceivableCron.SweepSettlesExactly | src/crons/receivableCron.js:13-99 | a successful sweep turns exactly the pending receivables settling today into RECEIVED ones and leaves every other row and column alone |
| ReceivableCron.SweepLines | src/crons/receivableCron.js:51-67 | a successful sweep appends one PENDING CREDIT per settled receivable, in order, worth its value, linked to it and described by its notes or "Pagamento Recebido" |
| ReceivableCron.SweepIdle | src/crons/receivableCron.js:49-95 | when no pending receivable settles today nothing is written |
| ReceivableCron.SweepWithoutMethod | src/crons/receivableCron.js:38-41 | a candidate without a payment method makes the sweep throw before any write |
| ReceivableCron.SweepInsertFails | src/crons/receivableCron.js:66-73 | a failed line insert throws before the status write, so nothing is written |
| ReceivableCron.InsertedTwice | src/crons/receivableCron.js:66-67 | inserting the same receivables' lines twice links each second copy to the same receivable |
| ReceivableCron.SweepRetryDuplicates | src/crons/receivableCron.js:66-88 | when the status write fails the lines stay and the receivables stay pending, so the next run the same day inserts the same lines again |
| ReceivableCron.SweepIdempotent | src/crons/receivableCron.js:13-99 | after a successful sweep a second run the same day writes nothing |
| ReceivableCron.SettlingIsDue | src/crons/receivableCron.js:26-47 | with non-negative settlement days a receivable settling today is dated today or earlier, so the date filter loses none |
| ReceivableCron.SettlementBooks.UpdatePaidReceivables | src/crons/receivableCron.js:13-99 | the cron job changes both tables exactly as the sweep effect says |
| Cnab.PadRight | src/controllers/cnabController.js:10-12 | `padEnd` keeps the text and fills with spaces up to the width, never cutting a longer text |
| Cnab.PadLeft | src/controllers/cnabController.js:14-16 | `padStart` keeps the text at the end and fills with zeros in front up to the width, never cutting a longer text |
| Cnab.PadsToWidth | src/controllers/cnabController.js:10-16 | a padded field is the width plus however much the text overflows it |
| Cnab.FitsWidth | src/controllers/cnabController.js:10-16 | a text that fits is padded to exactly the width |
| Cnab.FullFieldKept | src/controllers/cnabController.js:10-16 | a text at least as long as the width comes through unchanged |
| Cnab.HeaderLeadText | src/controllers/cnabController.js:20-24 | the header opens with "01REMESSA01COBRANCA" |
| Cnab.HeaderBodyLength | src/controllers/cnabController.js:18-35 | the header before its sequence is 375 characters plus every overflowing field's excess |
| Cnab.HeaderLength | src/controllers/cnabController.js:18-38 | the header is 400 characters plus every overflowing field's excess |
| Cnab.HeaderFields | src/controllers/cnabController.js:18-38 | when its fields fit, the header opens with "01REMESSA01COBRANCA" and ends with the file sequence zero-padded to six |
| Cnab.TrailerFields | src/controllers/cnabController.js:99-101 | the trailer is 400 characters, opens with "9" and ends with the record count in six digits |
| Cnab.NoDashes | src/controllers/cnabController.js:65 | `replace(/-/g, "")` leaves no dash and never lengthens the text |
| Cnab.NoSpaces | src/controllers/cnabController.js:89 | `replace(/\s/g, "")` leaves no whitespace and never lengthens the text |
| Cnab.DetailLeadLength | src/controllers/cnabController.js:44-64 | when its fields fit, the detail up to the due date is 105 characters |
| Cnab.DetailLeadStart | src/controllers/cnabController.js:44-45 | a detail opens with "102" |
| Cnab.DetailChargesLength | src/controllers/cnabController.js:67-79 | the fixed charges block is 62 characters |
| Cnab.DetailPayerLength | src/controllers/cnabController.js:80-92 | when its fields fit, the payer block with the instruction is 129 characters |
| Cnab.DetailBodyLength | src/controllers/cnabController.js:44-94 | when its fields fit, the detail before its sequence is 360 characters |
| Cnab.DetailTailLength | src/controllers/cnabController.js:65-94 | when its fields fit, the detail from the due date to the sequence is 236 characters |
| Cnab.DetailAsWrittenIsShort | src/controllers/cnabController.js:40-96 | the detail as written is 366 characters, the 360-character body followed directly by the sequence |
| Cnab.DetailAsWrittenWitness | src/controllers/cnabController.js:40-96 | an element with only an index and a state code already yields a 366-character detail |
| Cnab.DetailRecordLayout | src/controllers/cnabController.js:40-96 | the 400-position detail opens with "102", carries the due date at positions 106-111 and the amount at 112-124, and closes with the sequence at 395-400 |
| Cnab.NoDashesAppend | src/controllers/cnabController.js:65 | dash removal works piece by piece |
| Cnab.NoDashesDigits | src/controllers/cnabController.js:65 | dash removal keeps a text of digits |
| Cnab.LastTwoDigits | src/controllers/cnabController.js:65 | `slice(2)` of a four-digit year is its last two digits |
| Cnab.DueDateField | src/controllers/cnabController.js:65 | an ISO due date is written `YYMMDD` in six characters |
| Cnab.AmountDigits | src/controllers/cnabController.js:66 | `toFixed(2)` without its point writes the amount in cents as digits of the same value |
| Cnab.AmountField | src/controllers/cnabController.js:66 | the amount field is 13 digits worth the amount in cents |
| Cnab.SequenceField | src/controllers/cnabController.js:95 | the sequence field is six digits worth the element's index plus one |
| Cnab.NoSpacesKeeps | src/controllers/cnabController.js:89 | whitespace removal keeps a text without whitespace |
| Cnab.NoSpacesAppend | src/controllers/cnabController.js:89 | whitespace removal works piece by piece |
| Cnab.InstructionField | src/controllers/cnabController.js:87-92 | a boleto's instruction is "BOLETO " followed by its barcode with the spaces removed |
| Cnab.InstructionDefaults | src/controllers/cnabController.js:87-92 | a boleto without a barcode reads "BOLETO 000000" and anything else "PIX " with its key or "000000" |
| Cnab.Split | src/controllers/cnabController.js:120-125 | reading a file back into lines yields at least one line |
| Cnab.SplitSingle | src/controllers/cnabController.js:120-125 | a text without a line break is one line |
| Cnab.SplitLast | src/controllers/cnabController.js:120-125 | a text, a break and a last line without a break read as the text's lines then that line |
| Cnab.JoinCons | src/controllers/cnabController.js:120 | joining a first line in front of at least one more puts a break between it and the rest's join |
| Cnab.SplitJoin | src/controllers/cnabController.js:120 | `join("\n")` of lines without breaks splits back into the same lines |
| Cnab.JoinSnoc | src/controllers/cnabController.js:120 | joining one more line appends a break and that line |
| Cnab.Records | src/controllers/cnabController.js:120 | `detalhes.map(gerarDetalhe)` yields one record per element, in order, and fails exactly when some element is missing |
| Cnab.GenerateLines | src/controllers/cnabController.js:107-133 | the file's lines are the header, one record per element in order and the trailer counting those lines; with no element an empty line sits between header and trailer |
| Cnab.LinesOfFile | src/controllers/cnabController.js:125 | the template `header\n records \n trailer` splits into header, records and trailer |
| Cnab.LinesOfEmptyFile | src/controllers/cnabController.js:125 | with no records the file has an empty middle line |
| Cnab.TrailerNoBreak | src/controllers/cnabController.js:99-101 | the trailer holds no line break |
| Cnab.GenerateRefuses | src/controllers/cnabController.js:111-115 | the answer is 400 exactly when the header info or the list is missing, and 500 exactly when some element is missing |
| Cnab.GenerateFixedWidth | src/controllers/cnabController.js:107-133 | with the 400-position detail every line of a file whose fields fit is 400 characters |
| Cnab.EveryLineWide | src/controllers/cnabController.js:125 | when header, records and trailer share one width, every line has it |
| Cnab.GenerateAsWrittenShortLines | src/controllers/cnabController.js:107-133 | as written, every detail line of a file whose fields fit is 366 characters while header and trailer are 400 |
| BillFormat.TrimEnd | src/controllers/billController.js:138 | trimming the end keeps a prefix of the text that does not end in whitespace |
| BillFormat.IndexOf | src/controllers/billController.js:140-141 | the first position of a character, or the length when absent |
| BillFormat.DropFirst | src/controllers/billController.js:138 | `replace("R$", "")` removes one occurrence or none |
| BillFormat.ReplaceFirst | src/controllers/billController.js:141 | `replace(",", ".")` replaces one character or none and keeps the length |
| BillFormat.RemoveAll | src/controllers/billController.js:141 | the corrected half of the grouping-point finding: removing every point, in place of the first-point-only `replace(".", "")`, leaves no point and never lengthens the text |
| BillFormat.BrDate | src/controllers/billController.js:146-152 | a date written `DD/MM/YYYY` has that shape |
| BillFormat.TrimKeeps | src/controllers/billController.js:138 | trimming keeps a text that starts and ends without whitespace |
| BillFormat.TrimLeadingSpace | src/controllers/billController.js:138 | the space after "R$" is trimmed away |
| BillFormat.ParseUnsigned | src/controllers/billController.js:137-143 | `Number` of a text that starts with a digit and ends without white space reads the whole text as an unsigned decimal |
| BillFormat.ParseWhole | src/controllers/billController.js:137-143 | `Number` of a digit string is its value |
| BillFormat.ParseDecimal | src/controllers/billController.js:137-143 | `Number` of digits, a point and digits is the decimal value |
| BillFormat.ParseDigitsRoundTrip | src/controllers/billController.js:137-143 | `Number` reads a written whole number back |
| BillFormat.ParseTwoPoints | src/controllers/billController.js:141 | a number with two points is not a number |
| BillFormat.LeadingLetterIsNaN | src/controllers/billController.js:141 | a text starting with a letter is not a number |
| BillFormat.FalsyAmountIsZero | src/controllers/billController.js:136 | a missing, zero or empty amount becomes 0 |
| BillFormat.NumericAmountPassesThrough | src/controllers/billController.js:137 | a number, or a text that already reads as a number, keeps its value |
| BillFormat.DotDecimalAmount | src/controllers/billController.js:136-142 | "12.34" is read as twelve and thirty-four hundredths |
| BillFormat.CurrencyOfGrouped | src/controllers/billController.js:138-142 | "R$ " and a Brazilian amount is read as the amount with the grouping points removed and the comma made a point |
| BillFormat.StripCurrency | src/controllers/billController.js:138 | stripping "R$" and trimming leaves the amount text |
| BillFormat.CommaAmount | src/controllers/billController.js:138-142 | an amount whose ungrouped form is digits, a comma and digits is read as that decimal |
| BillFormat.UngroupThousands | src/controllers/billController.js:141 | one grouping point is removed the same way as written and corrected |
| BillFormat.UngroupMillions | src/controllers/billController.js:141 | with two grouping points the code as written removes only the first |
| BillFormat.CommaAmountNaN | src/controllers/billController.js:138-142 | an amount whose ungrouped form still holds a point before the comma is not a number |
| BillFormat.ThousandsAmount | src/controllers/billController.js:134-144 | "R$ 1.234,56" reads as 1234.56, as written and corrected |
| BillFormat.MillionsAsWritten | src/controllers/billController.js:134-144 | as written "R$ 1.234.567,89" is not a number |
| BillFormat.MillionsCorrected | src/controllers/billController.js:134-144 | with every grouping point removed "R$ 1.234.567,89" reads as 1234567.89 |
| BillFormat.BillDateRoundTrip | src/controllers/billController.js:146-152 | a `DD/MM/YYYY` date becomes the `YYYY-MM-DD` of the same day |
| BillFormat.BillDateOnlyFromBrDate | src/controllers/billController.js:146-152 | a text converted to the `YYYY-MM-DD` of a day was that day's `DD/MM/YYYY` |
| BillFormat.ParseIsoParts | src/controllers/billController.js:146-152 | a `YYYY-MM-DD` text holds the day's year, month and day as digits |
| BillFormat.BrDateParts | src/controllers/billController.js:146-152 | a `DD/MM/YYYY` text with a day's fields is that day's text |
| BillFormat.BillDateFallsBack | src/controllers/billController.js:146-152 | a missing, empty or ISO date falls back to today |
| BillFormat.BillDateNoCalendarCheck | src/controllers/billController.js:146-152 | "31/02/2024" is converted to "2024-02-31" without a calendar check |
| PaymentRequests.ToLower | src/controllers/billController.js:219 | lower-casing keeps the length and lowers each letter in place |
| PaymentRequests.ToUpper | src/crons/mailParserCron.js:81 | upper-casing keeps the length and raises each letter in place |
| PaymentRequests.AfterLastDot | src/controllers/billController.js:224 | `split(".").pop()` is the suffix after the last point, holds no point, and is the whole name when there is none |
| PaymentRequests.Wrap | src/controllers/billController.js:235-245 | `new Uint8Array(values)` keeps the number of values and takes each modulo 256 |
| PaymentRequests.RequestStore.SaveAttachment | src/controllers/billController.js:212-336 | the attachment step changes the store exactly as the attachment effect says |
| PaymentRequests.RequestStore.CreatePaymentRequest | src/controllers/billController.js:154-349 | `createPaymentRequest` changes the store and answers exactly as the creation effect says |
| PaymentRequests.AttachKeepsRequests | src/controllers/billController.js:212-336 | the attachment step touches neither the requests nor the id counter and only adds attachment records |
| PaymentRequests.DuplicateRefused | src/controllers/billController.js:157-179 | the request is refused exactly when a barcode is given, the search answers, and a PENDING boleto of the guarded origin already carries it; a refusal changes nothing |
| PaymentRequests.SearchFaultAdmitsDuplicate | src/controllers/billController.js:167-168 | a failed duplicate search lets the request through, so a repeated barcode is stored |
| PaymentRequests.CreatedRow | src/controllers/billController.js:189-209 | a request is created exactly when it is not refused and the insert succeeds; it is one new row with a fresh id, description "Boleto - Email", origin defaulting to MANUAL, competence equal to the due date and the given fields; otherwise nothing changes |
| PaymentRequests.CreateKeepsValid | src/controllers/billController.js:154-349 | creating a request keeps ids increasing and below the counter, and every attachment record naming a request |
| PaymentRequests.CreateKeepsBarcodesUnique | src/controllers/billController.js:157-209 | with the search answering, no two PENDING boletos of the guarded origin come to share a barcode |
| PaymentRequests.UploadFailureKeepsRequest | src/controllers/billController.js:301-304 | a failed upload keeps the created request and stores neither file nor record |
| PaymentRequests.AttachStoresContent | src/controllers/billController.js:290-328 | when the upload and the record succeed, the file holds the normalised content and the record names the request, the file name, type, size and public URL |
| PaymentRequests.UploadStoresContent | src/controllers/billController.js:212-336 | a created request with an attachment stores exactly the normalised content and one record for it, whether or not the content opens with the PDF header |
| PaymentRequests.NormaliseContent | src/controllers/billController.js:232-250 | a Node buffer is uploaded verbatim, an array or array-like object is reduced modulo 256 |
| PaymentRequests.PdfSignatureIsPercentPdf | src/controllers/billController.js:262-278 | the signature is the text `%PDF-` and content opening with it draws no warning |
| PaymentRequests.AfterLastDotOf | src/controllers/billController.js:224 | for `base.ext` with no point in `ext`, the extension read is `ext` |
| PaymentRequests.PdfNameParts | src/controllers/billController.js:219-224 | a PDF name is a base, a point and an extension that lower-cases to `pdf` |
| PaymentRequests.PdfNameStoredAsPdf | src/controllers/billController.js:218-224 | a name ending in `.pdf` in any case is stored as `application/pdf` under an extension that lower-cases to `pdf` |
| PaymentRequests.PdfNameIgnoresCase | src/controllers/billController.js:219 | letter case does not matter to the PDF test |
| Bills.Status | src/controllers/billController.js:33-131 | the upload endpoint answers 200 exactly on success and 400 exactly for a missing file, a refused type or an empty reading |
| Bills.ProcessDocument | src/controllers/billController.js:33-131 | `processDocument` changes the store and answers exactly as the upload effect says; the effect files the amount as `formatBillCurrency` is written, removing only the first grouping point |
| Bills.ChooseTextLonger | src/controllers/billController.js:76-84 | the kept reading is the longer one, the image reading on a tie, and it is empty only when both are |
| Bills.TypeGate | src/controllers/billController.js:45-53 | the type looked up from the name wins over the declared one, and only PDF, PNG and JPEG pass |
| Bills.FailureChangesNothing | src/controllers/billController.js:33-131 | every answer but 200 leaves the store as it was |
| Bills.FiledMillionsHasNoValue | src/controllers/billController.js:86-144 | an amount read as "R$ 1.234.567,89" (two grouping points) is filed without a value, because as written it reads as NaN |
| Bills.FiledRequest | src/controllers/billController.js:86-130 | a 200 answer files one MANUAL PENDING single boleto carrying the model's barcode, its due date normalised and its amount normalised as written, with only the first grouping point removed |
| Bills.StoredType | src/controllers/billController.js:218-221 | the stored document keeps its accepted type, except that a `.pdf` name forces `application/pdf` |
| Bills.SecondUploadRefused | src/controllers/billController.js:157-179 | with the search answering, a second upload of a boleto with the same barcode is refused and changes nothing |
| MailParser.Downloads | src/crons/mailParserCron.js:76-114 | a message's downloads are its attachment parts, each labelled PDF exactly when its name ends in `.pdf`, and there are none exactly when no part is an attachment |
| MailParser.PdfsOf | src/crons/mailParserCron.js:135 | the PDF filter keeps only attachments labelled PDF, from the message's own |
| MailParser.ProcessDocument | src/crons/mailParserCron.js:205-328 | the mailbox `processDocument` changes the store and answers exactly as the mail effect says; the effect files the amount as the copy of `formatBillCurrency` at mailParserCron.js:330-340 is written, removing only the first grouping point |
| MailParser.FetchAttachments | src/crons/mailParserCron.js:76-127 | the listing pass yields the downloads of every message that has attachments, in mailbox order |
| MailParser.HandlePdfs | src/crons/mailParserCron.js:142-161 | the PDFs of one message are handled in turn, extending the run over the documents before them |
| MailParser.ProcessMailbox | src/crons/mailParserCron.js:76-165 | a mailbox run fetches the messages with attachments and then hands every PDF to the handler in order, each failure only logged |
| MailParser.RunStep | src/crons/mailParserCron.js:142-161 | one more document extends the run by one step |
| MailParser.AttachmentTypeIgnoresCase | src/crons/mailParserCron.js:78-82 | the disposition test ignores letter case |
| MailParser.SameOctetsSameBuffer | src/crons/mailParserCron.js:220-253 | the same octets are read the same whether they come as a buffer, a record with a buffer, an array or an array-like object |
| MailParser.QueueHoldsPdfs | src/crons/mailParserCron.js:102-135 | every document handed to the handler is an attachment whose name ends in `.pdf`, in any case |
| MailParser.FetchLabelled | src/crons/mailParserCron.js:102-113 | every fetched attachment is labelled PDF exactly when its name says so |
| MailParser.QueueLabelled | src/crons/mailParserCron.js:134-142 | the queue of labelled downloads holds only PDF names |
| MailParser.MailFailureChangesNothing | src/crons/mailParserCron.js:205-328 | a document that is not filed leaves the store as it was |
| MailParser.MailFiled | src/crons/mailParserCron.js:281-319 | a filed document is one new EMAIL PENDING single boleto with the model's fields, its document stored as `application/pdf` |
| MailParser.EmptyReadingGoesToModel | src/crons/mailParserCron.js:255-278 | unlike the upload endpoint, which answers 400 to an empty reading, the mailbox handler passes an empty reading to the text model |
| MailParser.StepAppends | src/crons/mailParserCron.js:142-161 | one document appends at most one EMAIL PENDING boleto and keeps every earlier request |
| MailParser.RunAppends | src/crons/mailParserCron.js:134-163 | a mailbox run only appends, at most one EMAIL PENDING boleto per queued PDF |
| MailParser.StepKeepsInvariants | src/crons/mailParserCron.js:350-398 | one document keeps the store well formed and, with the search answering, the EMAIL barcodes unique |
| MailParser.RunKeepsInvariants | src/crons/mailParserCron.js:134-163 | a mailbox run keeps the store well formed and, when no duplicate search fails, files no EMAIL boleto whose barcode a PENDING one already carries |

## Left out

- The Supabase client and network round-trips. Each table is an in-memory sequence, and a call fails only when its flag says so.
- HTTP plumbing: express `req`/`res`, the routes, `src/index.js` and the auth middleware. Answers are modelled as result tags with their status codes.
- Bank OAuth (`generateToken`) and its module-level token cache. The cache is shared across requests and tied to the wall clock.
- Bank API calls. The bank's answers to the statement, batch and release calls are parameters.
- `approvePaymentRequest`, `rejectPaymentRequest` and the list handlers (`getBankStatement`, the receivable `list`). They are outside the modelled core.
- `getBankAccountsByCnpj` of `src/controllers/bankController.js` is a plain pass-through to a select.
- BankPayment.HandleExecutePayment: the store's own error text enters as a parameter, `detail`.
- The OCR wrapper (`src/services/ocrService.js`) and the text model (`src/services/openApiService.js`). Their answers are parameters: the two readings and a function from text to billing fields.
- The OCR service's use of the file extension is not part of this model.
- IMAP ingestion: the connection, message search, mark-as-seen and subject/body parsing in `src/crons/mailParserCron.js` and `src/controllers/mailController.js`. Messages enter as a sequence of parts.
- The `email_configs` loop. The model runs one mailbox.
- The supplier-name lookup and all log output. Neither affects any table.
- An attachment part without a file name aborts the mailbox run. The model assumes every attachment part has a name.
- Cron scheduling (`cron.schedule`) and concurrency. The un-awaited `createReceivable` calls are modelled as sequential calls.
- The clock. The current day and timestamp are parameters. The server is taken to run in UTC, so local and UTC calendar days coincide.
- IEEE floating point. Money is a `real`, so rounding in `value / n`, in the fee formula and in `toFixed(2)` is not modelled. The CNAB amount is taken as a whole number of cents.
- JavaScript `Date` parsing of arbitrary text. Dates enter as calendar days or as `YYYY-MM-DD` text.
- Random values: `uuidv4` group ids, the random part of storage paths, and the bucket's public URL. They enter as fresh-id oracles or parameters.
- Identifier checks such as `if (!paymentId)` are modelled as presence tests. An id of 0, which JavaScript treats as missing, counts as present in the model.
- An empty-string `category_id` counts as a category in the model. JavaScript's truthiness test treats it as missing.
- A payment method whose `settlementDays` is null is not modelled. In JavaScript, date arithmetic would add 0 days. A missing joined method, where the read throws, is modelled.
- PaymentCreate.CreatePayment: requires the dates to be calendar days and a recurring series to reach its end date. With an unknown frequency the source's loop never advances the date and does not terminate.
- PaymentUpdate.UpdatePayment: the same requirement applies to the transitions that build a recurring series.
- TransferCron: the `cnpjs` select done for each transfer is not modelled. Its result is only logged, and the payload carries a fixed beneficiary CNPJ, which is modelled.
- TransferCron: a transfer with no creator gets statement lines whose creator is the empty text, where JavaScript would write null.
- Cnab: the file write to disk and the windows-1252 encoding are not part of this model. The content is modelled as a string.
- Cnab: non-integer `valor` amounts are not modelled. The amount is taken as a whole number of cents.
- Cnab: header fields are taken as text. Numeric header fields are not modelled.
- Cnab: an element without `index` (which writes "NaN") and a null `uf` are not modelled.
- Cnab: a negative `valor`, and text fields that are `null` rather than missing, are not modelled. `toFixed` would write a minus sign, and `padEnd` on `null` throws.
- Cnab.NoSpaces and BillFormat.Trim treat only space, tab, line feed and carriage return as white space. JavaScript's `\s` and `trim` also cover the vertical tab, form feed, no-break space and the other Unicode spaces.
- BillFormat.ParseNumber reads only optionally signed decimal text. `Number` also accepts exponents, hexadecimal and `Infinity`, which the model reads as `NaN`.
- PaymentRequests.ToLower and PaymentRequests.ToUpper change ASCII letters only.
- Text.ParseInt reads decimal digits only and skips only space, tab, line feed and carriage return. JavaScript's `parseInt` without a radix reads a remaining "0x" prefix as hexadecimal and also skips the vertical tab, form feed, no-break space and the other Unicode spaces. So ReceivableController.PlanOfCount refuses the condition "x0x5x" (it reads "0x5x" as 0), where the program writes 5 installments.
- PaymentCron.UpdateScheduledPayments: the inverse sweep is modelled although `src/crons/paymentCron.js:88` comments its call out, so the cron never runs it.
- Transfers.CreateTransferRecords and Transfers.TransferStore.CreateBankTransfer: the body's `value` is taken as an already-parsed number. The handler tests `!value` on the raw JSON field and stores `parseFloat(value)`, so the text "0" passes the test and is stored as 0, where the model answers 400, and a non-numeric text is stored as NaN, which the model cannot express.
- BatchPayments.CreateBatchPayment: when the payload names no user, the executions write statement lines whose creator is the empty text, where JavaScript writes null.
- ReceivableController.ReceivableDesk.Create and ReceivableController.ReceivableDesk.Approve: a receivable without notes gets a CREDIT line whose description is the empty text, where JavaScript writes null.
- PaymentUpdate.UpdatePayment: apart from the PIX key, every edit field is taken as present in the body. An absent field, which `update` leaves alone and `insert` writes as null, is not modelled.
- MailParser: buffer `data` given as a string or a number, and the `Object.values` failure branch, are not modelled.
- ReceivableCron.SettlementLine and Reconciliation.FeedRowShape: the `api_json` column, a JSON dump of the settled receivable or of the feed entry, is not modelled. No modelled operation reads it back.

## Findings

| source | as written | input that shows it | evidently intended | confidence | as-written member | corrected member |
|---|---|---|---|---|---|---|
| src/controllers/cnabController.js:40-96 | the detail record is its 360-character body followed directly by the 6-digit sequence, 366 characters in all | a boleto-less element with only `index` 0 and `uf` "SP": its detail line is 366 characters while header and trailer are 400 | every record of a CNAB 400 file is 400 positions, with the sequence at positions 395-400 | not executed | Cnab.DetailAsWrittenIsShort, Cnab.DetailAsWrittenWitness, Cnab.GenerateAsWrittenShortLines | Cnab.DetailRecordLayout, Cnab.GenerateFixedWidth |
| src/controllers/billController.js:134-144 (copy at src/crons/mailParserCron.js:330-340) | `replace(".", "")` removes only the first grouping point | "R$ 1.234.567,89" becomes "1234.567.89", which `Number` reads as NaN | every grouping point removed, giving 1234567.89 | not executed | BillFormat.MillionsAsWritten, Bills.FiledMillionsHasNoValue | BillFormat.MillionsCorrected |
| src/controllers/bankController.js:286-304 | the 400 branch tests the message "Payment not provided", which the service never throws; it throws "Payment ID not provided" (src/services/bankPaymentService.js:19) | a body without `paymentId`: the answer is 500 | 400 for a missing payment id | not executed | BankPayment.MissingIdAnswers500 | BankPayment.ReplyStatusIntended |
| src/crons/paymentCron.js:49-56 | `gte("due_date", now)` on the date column `due_date` selects the payments due today as well, which the promoter has just turned PENDING | a SCHEDULED payment due today: `updatePendingPayments` makes it PENDING and `updateScheduledPayments` makes it SCHEDULED again | `gt`: only PENDING payments due after today go back to SCHEDULED | not executed; the column type is read from the controllers, which write and compare `due_date` as `YYYY-MM-DD` only | PaymentCron.DemoteUndoesPromotion, PaymentCron.DemoteExact | PaymentCron.DemoteCorrectedExact, PaymentCron.DemoteSparesPromoted |
