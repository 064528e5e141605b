# Lodge back end: verified models

Dafny models of the four stateful parts of the lodge back end, and proofs of what they keep over
whole runs of service calls. `dafny verify dfyconfig.toml` checks everything.

| Part | Files |
|---|---|
| Shared vocabulary, tables, runs | `Prelude.dfy`, `Schema.dfy`, `Runs.dfy` |
| Room reservations | `Reservations.dfy`, `BookingRuns.dfy`, `BookingCalls.dfy` (what each call promises, column by column) |
| Orders and invoices | `InvoiceNumbers.dfy`, `Billing.dfy`, `BillingRuns.dfy`, `BillingTheorems.dfy`, `BillAccuracy.dfy`, `StayCharges.dfy`, `CompanyBills.dfy`, `OrderCalls.dfy` (column by column), `ItemLines.dfy` |
| Both as services over one database | `LodgeSteps.dfy` (each call as a function), `Lodge.dfy` (class `Services`, statement by statement) |
| Rules across both, and the first state of a run | `HouseRules.dfy`, `Opening.dfy` |
| Approval workflow | `Assigner.dfy`, `WorkflowSteps.dfy`, `Workflow.dfy` (class `Engine`), `WorkflowRuns.dfy`, `WorkflowTasks.dfy`, `WorkflowOutcomes.dfy` |
| Passwords | `PasswordRules.dfy`, `PasswordHistory.dfy`, `PolicyCache.dfy`, `Lockout.dfy` |

## How the model is built

Every service call is written twice: as a function from the tables before to the tables after
(`AfterUpdate`, `AfterPlace`, `Act`, ...), and as an imperative method of a class whose fields are
the tables, in the statement order of the Go code. The method's `ensures` ties it to the function;
the properties are then proved of the function, and over runs of any length through `Runs.dfy`. What a
call accepts, and what it leaves in which column, is stated a second time without these functions
(`BookingCalls.dfy`, `OrderCalls.dfy`, `WorkflowTasks.dfy` and lemmas beside the password models).

Money is in whole cents, tax rates in hundredths of a percent, dates are day numbers with day 0 for
Go's zero time, and uuids are numbers handed out in increasing order (0 is the nil uuid). Orders,
invoices, users, tasks and workflow instances are never deleted by the modelled calls, so their
position in the table is their identity. Constraints and foreign keys from the migrations are part of
the tables they belong to.

Reads and writes that may fail are parameters of a call (`StayFaults`, `GuestFaults`, `BatchFaults`,
`EditFaults`, `StatusFaults`, `InvoiceFaults`, `OrderFaults`, `JobFaults`, `StartFaults`, `ActFaults`,
`unread`, `lost`, ...): those whose error the code passes over, and those after which something stays
behind. A theorem about every run therefore speaks of runs in which any of these fail. A call whose
first write fails, or that reports a failed read before it has written anything, has done nothing, and
a run with it is the run without it; such failures have a parameter only where it costs nothing. A
failed `RemoveOrderLineItem` leaves what a successful one leaves (`RemovalOnlyOrphans`), and a read
that fails in `CreateIndividual` leaves what a refused insert leaves. The failures that are not
modelled are listed at the end. Random draws are nondeterministic choices (`RandInt`).

## What the code does differently from what it says

Each of these has its exact condition, per call and, where it is about runs, over runs. The smallest
cases in which it goes wrong are lemmas of their own.

* **Taking an item off an order does not take it off the bill.** `OrderRepository.RemoveItem` deletes
  the order item first; the foreign key of `invoice_line_items.order_item_id`
  (`migrations/000043_invoice_line_item_order_item_id.up.sql:2`, ON DELETE SET NULL) then clears the
  very column by which `RemoveOrderLineItem` looks for the line. The service's own comment
  (`internal/services/order_service.go:87`) promises the opposite. Proved: removal never changes an
  amount of any invoice; over every run, own invoices ask for exactly the room and the orders as they
  stand if and only if no priced item of such a booking is removed and no priced line gets lost; adding
  and removing items restores the bill exactly if all that were billed were free; and the invoice
  repository taken on its own does undo itself to the cent.
* **Lines get lost.** A line that cannot be appended is reported and passed over, and an order that
  cannot be read back after its commit is not billed at all. Amounts, tax, one invoice per booking and
  the numbering survive all of that; the invoice mirrors its orders exactly as long as it does not
  happen to a booking with an own invoice (`LostDinner`).
* **A stay approved by the workflow has no invoice**, and its orders are billed nowhere. Every individual
  stay that is confirmed or later has an own invoice exactly as long as no workflow approves one
  without, and no invoice fails to be made.
* **The nightly job extends stays but not their room charge.** Every own invoice charges the nights of
  its stay exactly as long as the job extends none that has an invoice and a priced room, and no edit
  changes the nights of one that cannot be repriced (`OverstayedNightsAreFree`,
  `LongerStayNotRepriced`).
* **A company that has an invoice is not billed for its later stays.** A second batch finds the
  invoice and stops. Every stay of a company is on an invoice of it exactly as long as no batch is
  committed for a company whose invoice is found, or with a guest that cannot be read or an invoice that
  cannot be stored. If instead the search for the invoice fails unnoticed, the company gets a second one:
  exactly then, although the source calls the function idempotent
  (`internal/services/invoice_service.go:101-105`; only `booking_id` is unique).
* **A company's line is never repriced.** An edit reprices only a booking's own invoice. The lines of a
  company's invoice charge the nights of its stays exactly as long as no edit changes the nights of a
  priced one and the nightly job extends none.
* **A corporate batch can double-book.** Its guests are checked against stored rows, not each other.
  It keeps rooms exclusive exactly if guests of the same room do not overlap.
* **The nightly job can double-book**, exactly if somebody else is due in an extended room between
  the old check-out and today. **A workflow outcome can**, exactly if it confirms a booking that had
  already released its room and the nights were given away.
* **`ProcessAction` ignores a failed read of the active task**, and that is the only way to a second
  active task. On its closing branch it also ignores a failed read of the transitions, which leaves no
  roles and so admits everybody (`AnybodyMayReject`). Its writes are not one transaction: a history is a
  walk through the template exactly as long as no call stops halfway (`HalfwayBreaksTheLog`).
  `instanceRepo.Complete` overwrites the status `rejected` with `completed`, so outcomes are stated
  through the log and the booking.
* **A user without an organisation is never stored.** `UserRepository.Update` is scoped by `org_id`
  and reports no error when no row matches: such a user is never locked out, and a password change
  reports success, enters the history and changes nothing. For any user, a failed login whose update is
  lost is not counted, and a password history that cannot be read is not consulted.
* **`UpdateUserFull` records a password before it stores it.** If the row cannot be written the call
  reports an error, the history keeps a password the user never had, and the same edit is refused from
  then on as a reuse, exactly if the history can be read (`RetryIsRefusedIff`,
  `NeverHadButReused`).
* **A policy update during a failed read starts from the startup policy**, so the fields it does not
  mention are reset. The column list of the policy queries is glued to `FROM` without a space
  (`internal/repositories/password_policy_repository.go:21-25`), so as written every read fails;
  here any read may fail. An update stored under the nil id is never answered to anybody.
* **An edit can put more guests into a room than it takes**, which creating a booking refuses: exactly
  if it asks for more. **Items can be added to a closed order**: a closed order keeps its items exactly as
  long as nobody does, and nothing is ever taken off it.
* A refused `CreateIndividual` keeps the client it created on the fly, and nothing else
  (`StrayClientIff`). The duplicate-client check behind it can never fire. An edit of dates makes the
  invoice due at the moment of the edit (`EditReprices`).

## Model

| member | source | states |
|---|---|---|
| Reservations.TransitionsOnlyWindDown | internal/models/booking.go:47-53 | No edge leads from a released room back to a held one or into `pending`, and a rank drops along every edge, so no status cycle exists |
| Reservations.ExclusiveMeansOnePartyPerNight | internal/repository/booking_repository.go:294-313 | The half-open overlap test of the query means: no room has two active parties on one night, in both directions |
| Reservations.PutIsExact | internal/repository/booking_repository.go:294-313 | Writing one row keeps rooms exclusive if and only if the rest was exclusive and the row, if active, passes the availability query that excludes itself |
| Reservations.InsertIsExact | internal/repository/booking_repository.go:27-41 | Adding a stay keeps the table sound if and only if it was sound and the room was free |
| Reservations.EditKeepsSound | internal/services/booking_service.go:290-342 | An edit that passes Update's checks, self-exclusion included, keeps the table sound |
| Reservations.RestatingIsExact | internal/repository/booking_repository.go:251-278 | A status write is harmless unless it revives a released stay whose nights were given away; exact |
| Reservations.OutcomeIsExact | internal/repository/workflow_repository.go:634-652 | A workflow outcome, which skips the transition table, keeps soundness exactly when it revives nothing or the nights are still free |
| Reservations.BatchAvailability | internal/services/booking_service.go:138-153 | After n guests of a batch a room is free exactly if it was free before and the guest is apart from all n |
| Reservations.BatchIsExact | internal/services/booking_service.go:155-246 | Guests who each fit the stored rows leave a sound table if and only if they are pairwise apart |
| Reservations.BatchKeepsSoundIffApart | internal/services/booking_service.go:116-246 | A batch call keeps a sound table sound if and only if it is refused or its guests are pairwise apart |
| Reservations.BatchAddsExactlyItsGuests | internal/services/booking_service.go:155-246 | A committed batch adds one pending one-person stay per guest, in order, under new ids, tied to the company and to the named or a newly created client, and touches no older row |
| Reservations.StretchIsExact | internal/repository/booking_repository.go:363-407 | Extending overdue stays to today keeps soundness exactly if no other active booking of such a room checks in between the old check-out and today |
| Reservations.StretchOnlyLengthens | internal/repository/booking_repository.go:344-407 | Whatever fails, no stay is shortened, moved or emptied, and the overdue stays left are exactly those not written |
| Reservations.ListedRoomsAreBookable | internal/repository/room_repository.go:207-245 | A flagged matching room is in the list if and only if CreateIndividual would accept it on those dates; otherwise it answers that the room is unavailable |
| Reservations.DuplicateCheckIsRedundant | internal/services/booking_service.go:90-96 | The duplicate-client answer is impossible: availability excludes it first |
| Lodge.Services.CreateIndividual | internal/services/booking_service.go:36-114 | Same answer in the same order of checks and refused writes, and the whole new state, including the client kept after a refusal |
| Lodge.Services.GuestCreate | internal/services/guest_booking_service.go:44-136 | The self-service booking: the profile, the checks, a refused insert (the guest count among its reasons), and the whole new state: the booking, and the room's organisation noted on the guest's profile unless that write fails |
| Lodge.Services.CheckFields | internal/services/booking_service.go:116-137 | The loop finds the first guest with a malformed request, and that guest's first fault |
| Lodge.Services.CheckPlaces | internal/services/booking_service.go:138-153 | The loop finds the first guest the stored rows cannot take |
| Lodge.Services.SaveGuests | internal/services/booking_service.go:193-241 | The inserts of the transaction, on a private copy: rows, clients and ids of all guests, or the first failure |
| Lodge.Services.ResolveCompany | internal/services/booking_service.go:165-189 | The company looked up or inserted in the transaction, or the reason why not |
| Lodge.Services.SaveBatch | internal/services/booking_service.go:155-246 | All rows of the batch are committed, or the tables are as they were, for a failure at the company, at any insert or at the commit |
| Lodge.Services.CreateCorporate | internal/services/booking_service.go:116-280 | The batch call with its answer, the committed rows and the company's invoice, or no invoice when that fails |
| Lodge.Services.CheckEdit | internal/services/booking_service.go:290-327 | The edited row, and the first check it fails |
| Lodge.Services.Update | internal/services/booking_service.go:290-342 | The edit with its answer, the new row and the repriced invoice, or the old one when repricing fails |
| Lodge.Services.MayMove | internal/services/booking_service.go:350-362 | The search loop says yes exactly for the statuses the table lists |
| Lodge.Services.UpdateStatus | internal/services/booking_service.go:344-376 | The status change with its answer and, on confirming an individual stay, the invoice, or none when that fails |
| Lodge.Services.GuestCancel | internal/services/guest_booking_service.go:222-246 | The guest's cancellation: ownership, transition, and the write scoped by the room's organisation |
| Lodge.Services.Delete | internal/services/booking_service.go:387-396 | Refused when checked in or invoiced; otherwise the row goes and orders and invoice lines are detached |
| Lodge.Services.ApplyOutcome | internal/repository/workflow_repository.go:634-652 | The workflow's write of a booking status |
| Lodge.Services.FindOverdueCheckouts | internal/repository/booking_repository.go:363-397 | Each overdue stay of the organisations, once |
| Lodge.Services.ExtendAll | internal/jobs/overdue_checkout_job.go:63-88 | The loop that carries on past failures: exactly the stays whose first write succeeds are extended, flagged and redated where those writes succeed, and counted |
| Lodge.Services.RunOverdueJob | internal/jobs/overdue_checkout_job.go:50-91 | The whole job, and its counter |
| Lodge.Services.GenerateForBooking | internal/services/invoice_service.go:33-95 | At most one own invoice per booking even when the search for an earlier one fails, with the amounts computed the Go way |
| Lodge.Services.GatherLines | internal/services/invoice_service.go:111-140 | The accumulating loop: one line and its amount per booking that can be read |
| Lodge.Services.GenerateCorporateInvoice | internal/services/invoice_service.go:100-169 | The invoice of those lines, unless one is found or there are none |
| Lodge.Services.RecalculateRoomCharge | internal/services/invoice_service.go:197-211 | The room lines repriced and the amounts recomputed the SQL way, through the booking's own invoice only |
| Lodge.Services.InsertItems | internal/repository/order_repository.go:225-287 | The insert loop stores all requested items at menu prices, or nothing and the first fault |
| Lodge.Services.AppendToInvoice | internal/services/order_service.go:157-201 | The items of the call become lines of the booking's own or its company's invoice, those whose append fails excepted |
| Lodge.Services.AppendOrderLineItem | internal/repository/invoice_repository.go:272-311 | One more line and the amounts recomputed |
| Lodge.Services.BillItems | internal/services/order_service.go:176-200 | The loop that carries on past failed appends, against the lines of the rest appended in one go |
| Lodge.Services.PlaceOrder | internal/services/order_service.go:34-59 | The order with its answer, its items and their lines on the bill; stored but unbilled when it cannot be read back |
| Lodge.Services.PlaceWalkIn | internal/services/order_service.go:62-71 | An order without a booking is billed nowhere |
| Lodge.Services.AddItems | internal/services/order_service.go:74-85 | Further items, open order or not; stored but unbilled when the order cannot be read back |
| Lodge.Services.RemoveItem | internal/services/order_service.go:88-104 | Removal from an open order, the foreign key's effect, and the search for a line afterwards |
| Lodge.Services.RemoveOrderLineItem | internal/repository/invoice_repository.go:316-349 | The line is looked for on the booking's own invoice only, then the amounts are recomputed |
| Lodge.Services.CloseAllOrders | internal/repository/order_repository.go:291-304 | Exactly the open orders of the organisation created up to today are closed, and counted |
| BookingRuns.StepIsExact | internal/services/booking_service.go:36-396 | From a sound database any single call leaves a sound one exactly when it is one of the safe ones, for each of the three unchecked calls under its own condition |
| BookingRuns.RunIsExact | internal/services/booking_service.go:36-396 | Over every run: no room is promised twice at any moment if and only if every call was safe when it was made |
| BookingRuns.PlainRunsStaySound | internal/services/booking_service.go:36-396 | Runs without batches, nightly extensions and workflow outcomes stay sound, at every moment |
| BookingRuns.PlainRunsNeverDoubleBook | internal/services/booking_service.go:36-396 | The plain reading: two parties in a room on one night are the same party |
| BookingRuns.OnlyOutcomesRevive | internal/models/booking.go:47-53 | No call but a workflow outcome gives a released booking its room back, makes one pending, or moves it to another room, organisation or company |
| BookingRuns.JobLeavesChargesAlone | internal/jobs/overdue_checkout_job.go:72-88 | The job changes due dates but not one line or amount |
| BookingRuns.SecondRunIsIdle | internal/jobs/overdue_checkout_job.go:50-91 | After a run in which every write succeeded, a second run the same day changes nothing in any table |
| BookingRuns.BatchCanDoubleBook | internal/services/booking_service.go:138-153 | A concrete accepted batch that puts two guests into one room |
| BookingRuns.JobCanDoubleBook | internal/jobs/overdue_checkout_job.go:63-88 | A concrete sound table in which one extension puts two parties into a room |
| BookingRuns.OutcomeCanDoubleBook | internal/repository/workflow_repository.go:634-652 | A concrete sound table in which one late approval does |
| BookingCalls.StayIsAcceptedIff | internal/services/booking_service.go:36-114 | CreateIndividual accepts exactly: a client of the organisation or a named new one, a room, dates in order, a guest count the room takes, nobody on those nights, and writes that go through |
| BookingCalls.StayRefusalIsTrue | internal/services/booking_service.go:36-114 | Each refusal names something that is the case |
| BookingCalls.StayIsTheOneAskedFor | internal/services/booking_service.go:97-114 | The new row has the organisation, room, client, dates and guests asked for, is pending, and no other row moves |
| BookingCalls.GuestStayIsAcceptedIff | internal/services/guest_booking_service.go:44-97 | The same for the self-service route: a known profile, dates in order, a count the room takes, a free room |
| BookingCalls.GuestStayIsTheOneAskedFor | internal/services/guest_booking_service.go:81-101 | Its new row, in the room's organisation, and the guest's profile noted as of that organisation unless that write fails |
| BookingCalls.BatchIsAcceptedIff | internal/services/booking_service.go:116-246 | A batch is accepted exactly if the company is known or named, there are guests, each of them could be placed among the stored rows, and every write goes through |
| BookingCalls.BatchKnowsItsCompany | internal/services/booking_service.go:165-189 | It is for the company named, or for a new one stored for the organisation |
| BookingCalls.EditIsAcceptedIff | internal/services/booking_service.go:290-327 | An edit is accepted exactly if the stay holds its room and the edited dates are in order, the count positive, and nobody else is on those nights |
| BookingCalls.EditRefusalIsTrue | internal/services/booking_service.go:290-327 | Each refusal names something that is the case |
| BookingCalls.EditIsTheOneAskedFor | internal/services/booking_service.go:298-331 | It writes what it names into its row, and nothing else into any |
| BookingCalls.DeleteIsAcceptedIff | internal/services/booking_service.go:387-396 | A booking can be deleted exactly if it is the organisation's, not checked in, and has no invoice |
| BookingCalls.DeletedIsForgotten | internal/services/booking_service.go:387-396 | The row is gone, and so is every mention of it on orders and lines; nothing else changes |
| BookingCalls.StatusIsAcceptedIff | internal/services/booking_service.go:344-362 | A status change is accepted exactly if it is one of five: pending to confirmed, confirmed to checked in, checked in to checked out, pending or confirmed to cancelled |
| BookingCalls.StatusIsTheOneAskedFor | internal/services/booking_service.go:350-372 | The row then has that status, and no other column of any booking changed; a refused or unwritten change leaves everything |
| BookingCalls.CancelIsAcceptedIff | internal/services/guest_booking_service.go:222-247 | A guest's cancellation is accepted exactly if the stay is theirs, has not begun and is in its room's organisation; somebody else's is forbidden |
| BookingCalls.CancelIsTheOneAskedFor | internal/services/guest_booking_service.go:222-247 | The stay is then cancelled and nothing else changed |
| BookingCalls.OutcomeIsWritten | internal/repository/workflow_repository.go:634-652 | A verdict confirms or cancels the booking of the organisation, whatever its status, and touches nothing else |
| BookingCalls.CheckedOutInThree | internal/models/booking.go:47-53 | Every pending stay reaches checked_out in three accepted calls, whatever fails about invoices; no other column changes and its nights are free again |
| BookingCalls.JobExtendsExactly | internal/jobs/overdue_checkout_job.go:66-90 | A row differs after the nightly job exactly if it was checked in, of a listed organisation, due out before today, and its extension was written; it then ends today and is overstayed if it was or the mark was written |
| BookingCalls.JobRedatesExactly | internal/jobs/overdue_checkout_job.go:83-85 | An invoice changes in its due date only, and falls due today exactly if its stay was extended and that could be written |
| BookingCalls.NobodyIsOverdue | internal/jobs/overdue_checkout_job.go:66-90 | After a night without failed extensions no guest of a listed organisation is in a room past the check-out |
| BookingCalls.LeftYesterday | internal/jobs/overdue_checkout_job.go:66-90 | The ordinary night: due out yesterday, extended to today and marked |
| BookingCalls.SearchFindsExactly | internal/repository/room_repository.go:207-245 | A room is offered exactly if it is flagged, matches organisation, branch and type, and nobody holds it on those nights |
| InvoiceNumbers.FormatRoundTrip | internal/repository/invoice_repository.go:386-396 | Parsing a printed number gives back year and count, also beyond four digits |
| InvoiceNumbers.FormatIsInjective | internal/repository/invoice_repository.go:386-396 | Two numbers print alike if and only if year and count are equal |
| InvoiceNumbers.PaddedWidth | internal/repository/invoice_repository.go:386-396 | Four places up to 9999, and no padding from 1000 on |
| InvoiceNumbers.SeventhOfItsYear | internal/repository/invoice_repository.go:386-396 | The seventh invoice of 2026 prints as INV-2026-0007 |
| Billing.GoAndSqlTotalsAgree | internal/repository/invoice_repository.go:201-209 | Tax rounded and added equals the grossed-up sum rounded, for every subtotal and rate |
| Billing.RecalculationIsExact | internal/repository/invoice_repository.go:298-305 | Recomputing balances any invoice and changes nothing exactly if it was balanced |
| Billing.AppendThenRemoveRestores | internal/repository/invoice_repository.go:272-349 | Lines appended and removed again in any order give back the very same invoice |
| Billing.RemovalAfterUnlinkIsIdle | internal/repository/invoice_repository.go:316-349 | Once the foreign key has fired, removal finds nothing and changes nothing |
| Billing.FindOwn | internal/repository/invoice_repository.go:78-80 | An invoice of this booking and organisation, or there is none |
| Billing.NewItems | internal/repository/order_repository.go:225-287 | One row per request: its order, a new id, the asked quantity, the menu's price and their product |
| Billing.SumSplits | internal/repository/invoice_repository.go:171-215 | A bill is its room lines, its linked lines and its orphaned lines, and nothing else |
| Billing.OrdersTotalIsItemsTotal | internal/repository/order_repository.go:335-339 | Adding up a booking's order totals gives the sum of its live items |
| BillingRuns.GenerateIsOneOrNone | internal/services/invoice_service.go:33-95 | Making an own invoice adds exactly one, or changes nothing when the booking has one or something fails; a failed search is caught by the UNIQUE constraint |
| BillingRuns.NextNumberIsFree | internal/repository/invoice_repository.go:386-396 | The next number of a year is not in use on any invoice |
| BillingRuns.NumbersNeverRepeat | internal/repository/invoice_repository.go:386-396 | No two invoices carry the same number |
| BillingRuns.NumbersAreGapless | internal/repository/invoice_repository.go:386-396 | Every number from 1 to the year's count was issued |
| BillingRuns.InsertionSucceeds | internal/repository/invoice_repository.go:24-72 | A freshly numbered invoice of a booking without one passes both UNIQUE constraints |
| BillingRuns.RechargedInvoice | internal/repository/invoice_repository.go:171-215 | Repricing sets the room charge to nights times price and re-adds the bill |
| BillingRuns.RemovalOnlyOrphans | internal/repository/order_repository.go:308-332 | Removing an item deletes it, orphans its line, and does nothing else |
| BillingRuns.StatusKeepsBooks | internal/services/booking_service.go:344-376 | Books stay right under a status change, whatever fails |
| BillingRuns.PlaceKeepsBooks | internal/services/order_service.go:34-59 | Books stay right when an order is placed |
| BillingRuns.AddKeepsBooks | internal/services/order_service.go:74-85 | Books stay right when items are added |
| BillingRuns.RemoveKeepsBooks | internal/services/order_service.go:88-104 | Books stay right when an item is removed |
| BillingRuns.DeleteKeepsBooks | internal/services/booking_service.go:387-396 | Books stay right when a booking is deleted and its rows detached |
| BillingRuns.JobKeepsBooks | internal/jobs/overdue_checkout_job.go:50-91 | Books stay right under the nightly job with any faults |
| BillingTheorems.StepKeepsBooks | internal/services/order_service.go:34-201 | Any call with any of its faults keeps the books: amounts balance, one invoice per booking, numbers in sequence, rows pointing at rows that exist |
| BillingTheorems.OpeningBooks | migrations/000007_create_bookings.up.sql:1-16 | The books of a lodge with rooms, clients and menu and nothing booked yet are in order: where RunKeepsBooks starts |
| BillingTheorems.RunKeepsBooks | internal/services/order_service.go:34-201 | So does any run, with the faults the model has |
| BillingTheorems.ConfirmationBillsTheRoom | internal/services/invoice_service.go:33-95 | Confirming an individual stay adds exactly one invoice, found by the booking: nights times price, balanced, next number, due at check-out; or none when making it fails, and the stay is confirmed all the same |
| BillingTheorems.BatchBillsEveryGuest | internal/services/invoice_service.go:100-169 | A committed batch of a company without an invoice gets one, with one line in order per guest that can be read: that guest's booking, nights and room price |
| BillingTheorems.EditReprices | internal/services/booking_service.go:290-342 | After an accepted change of dates the own invoice charges exactly the new nights, or is as it was when repricing fails; the books are right either way |
| BillingTheorems.RemovalNeverCredits | internal/services/order_service.go:88-104 | Taking an item off an order changes no amount on any invoice |
| BillingTheorems.OrderRestored | internal/repository/order_repository.go:225-332 | Items added and removed again, in any order, with any lines lost: orders and items are row for row what they were |
| BillingTheorems.AddThenRemove | internal/services/order_service.go:74-104 | The bill has then gone up by the price of those whose line was stored, and is what it was if and only if all of these were free |
| BillingTheorems.RemovedDinnerStaysOnTheBill | internal/services/order_service.go:88-104 | The smallest case, in cents |
| BillAccuracy.ArrivalIsExact | internal/services/order_service.go:157-201 | When items join orders, mirrors stay exactly if all lines of an own invoice arrive, and right amounts stay right exactly if the lines that arrive cost what the items cost |
| BillAccuracy.RemovalIsExact | internal/services/order_service.go:88-104 | One removal keeps every mirror, and keeps right bills right if and only if the item was free or on no own invoice |
| BillAccuracy.StepIsAccurateIff | internal/services/order_service.go:34-201 | One call keeps mirrors, and right amounts, if and only if it loses no line, or no money, by what can be looked up before it |
| BillAccuracy.MirrorsOverRuns | internal/services/order_service.go:157-201 | Over every run: at every moment the linked lines of each own invoice are the live items of its orders, one for one, if and only if no line of an own invoice got lost |
| BillAccuracy.BillsAreRightOverRuns | internal/services/order_service.go:88-201 | Over every run: at every moment each own invoice asks for exactly room and orders as they stand, if and only if nothing priced was removed and no priced line got lost |
| BillAccuracy.EveryBillAddsUp | internal/repository/invoice_repository.go:272-349 | While no line gets lost, each own invoice is room, orders as they stand, and what was removed but is still charged, with tax and total |
| BillAccuracy.RightIffOrphansAreFree | internal/repository/invoice_repository.go:316-349 | A mirroring invoice is right if and only if every line that lost its item is free |
| BillAccuracy.LostDinner | internal/services/order_service.go:157-201 | The smallest case of a lost line: the dinner is on the order and not on the bill |
| StayCharges.StepInvoicesIff | internal/services/workflow_service.go:230-250 | One call leaves no settled individual stay without an invoice if and only if it neither approves one that has none nor confirms one whose invoice fails |
| StayCharges.InvoicedOverRuns | internal/services/booking_service.go:344-376 | The same at every moment of every run |
| StayCharges.ApprovedStayIsNotBilled | internal/services/workflow_service.go:230-250 | The smallest case: an approved stay has no invoice and the dinner ordered on it is billed nowhere |
| StayCharges.UpdateChargesIff | internal/services/booking_service.go:333-339 | An edit leaves every own invoice charging the nights of its stay exactly unless it changes the nights of a priced stay and repricing fails |
| StayCharges.JobChargesIff | internal/jobs/overdue_checkout_job.go:72-88 | The nightly job does exactly unless it extends a stay that has an invoice and a priced room |
| StayCharges.ChargedOverRuns | internal/services/invoice_service.go:197-211 | The same at every moment of every run, for all calls |
| StayCharges.OverstayedNightsAreFree | internal/jobs/overdue_checkout_job.go:72-88 | The smallest case for the job: two more nights, and the invoice still charges one |
| StayCharges.LongerStayNotRepriced | internal/services/booking_service.go:333-339 | The smallest case for an edit: accepted, and the invoice not repriced |
| CompanyBills.StepOnePerCompanyIff | internal/services/invoice_service.go:100-105 | One call leaves no company of an organisation with two invoices exactly unless it is a batch invoiced while the search fails and there is one |
| CompanyBills.OnePerCompanyOverRuns | internal/services/invoice_service.go:100-105 | The same at every moment of every run |
| CompanyBills.BatchOutcome | internal/services/booking_service.go:155-280 | A committed batch adds its guests' rows, and an invoice of the company with a line for each guest that can be read and for nobody else, or none exactly if one is found, nobody can be read, or it cannot be stored |
| CompanyBills.StepBillsStaysIff | internal/services/booking_service.go:246-260 | One call leaves every stay of a company on an invoice of that company if and only if it is no batch that finds an invoice, cannot read a guest, or cannot store the invoice |
| CompanyBills.StaysBilledOverRuns | internal/services/invoice_service.go:100-169 | The same at every moment of every run |
| CompanyBills.StepPricesStaysIff | internal/services/invoice_service.go:197-211 | One call leaves every stay line of a company charging the nights of its stay if and only if it neither edits the nights of a priced one nor extends it |
| CompanyBills.StaysPricedOverRuns | internal/repository/invoice_repository.go:173-215 | The same at every moment of every run |
| CompanyBills.NextGuestIsBilledNowhereOrTwice | internal/services/invoice_service.go:101-105 | The smallest case: the next guest of an invoiced company is on no invoice, or the company has two |
| CompanyBills.EarlyLeaverPaysInFull | internal/services/booking_service.go:333-339 | The smallest case: a company's guest leaves early and the line stays |
| HouseRules.StepFitsIff | internal/services/booking_service.go:290-327 | One call leaves no stay with more guests than its room takes if and only if it is no accepted edit that asks for more |
| HouseRules.CapacityOverRuns | internal/services/booking_service.go:78-80 | The same at every moment of every run |
| HouseRules.NineInADouble | internal/services/booking_service.go:290-327 | The smallest case: nine guests in a room for two |
| HouseRules.AddLeavesClosedIff | internal/services/order_service.go:74-85 | One addition changes the items of no closed order if and only if it is refused or its order is open |
| HouseRules.ClosedOrderOverRuns | internal/services/order_service.go:74-115 | Over every run a closed order stays closed with exactly the items it had if and only if nothing is added to it |
| HouseRules.DinnerOnAClosedOrder | internal/services/order_service.go:74-85 | The smallest case: an item added after closing |
| HouseRules.StrayClientIff | internal/services/booking_service.go:36-60 | A refused booking changes nothing, except that a client created on the fly stays |
| OrderCalls.PlaceIsAcceptedIff | internal/services/order_service.go:34-60 | An order is accepted exactly if it has items, all on the organisation's menu in positive quantity, for its own confirmed or checked-in booking, and can be stored |
| OrderCalls.WalkInIsAcceptedIff | internal/services/order_service.go:62-72 | The same without a booking |
| OrderCalls.AddIsAcceptedIff | internal/services/order_service.go:74-85 | The same for items added to an order of the organisation, open or not |
| OrderCalls.RemoveIsAcceptedIff | internal/services/order_service.go:88-105 | An item can be taken off exactly if the order is the organisation's, open, and has it |
| OrderCalls.ItemsRefusalIsTrue | internal/repository/order_repository.go:25-73 | The item refused is the first that cannot be stored, for the reason given |
| OrderCalls.OrderRefusalIsTrue | internal/services/order_service.go:34-105 | Each refusal of an order call names something that is the case |
| OrderCalls.PlaceStores | internal/repository/order_repository.go:25-73 | An accepted order is open, dated today, and has one item per request at the menu's price; bookings, clients and menu are untouched |
| OrderCalls.WalkInStores | internal/services/order_service.go:62-72 | The same of a walk-in, with no invoice touched |
| OrderCalls.AddStores | internal/services/order_service.go:74-85 | The same of added items, with the order itself untouched |
| OrderCalls.RemoveTakesExactly | internal/repository/order_repository.go:308-333 | The item is gone, its lines forget it, and no line, amount or other row changes |
| OrderCalls.RemoveLineTakesExactly | internal/repository/invoice_repository.go:316-349 | Where a line is still linked, its removal takes it off the booking's own invoice, leaves the others, and re-adds the amounts; no other invoice is touched |
| OrderCalls.CloseClosesExactly | internal/repository/order_repository.go:291-304 | Closing the day closes the organisation's open orders dated up to today and changes nothing else of anything |
| OrderCalls.PlaceIsBilledTo | internal/services/order_service.go:157-201 | The invoice that pays for the stay, the company's or its own, gets exactly one line per item that is not lost, with booking, order, item, quantity, price and product; every other invoice is unchanged |
| OrderCalls.AddIsBilledTo | internal/services/order_service.go:157-201 | The same of added items; on an order of no stay nothing is billed |
| ItemLines.StepKeepsLines | internal/repository/invoice_repository.go:160-349 | No call but taking an item off its order changes what any invoice asks for that item |
| ItemLines.ItemIsBilledOnce | internal/services/order_service.go:157-201 | Over every run after an item is ordered it is asked for by exactly one line of the invoice that paid for the stay then, at the quantity and price of then, and by no other, unless the line got lost or there was no such invoice |
| ItemLines.CompanyPaysIff | internal/services/order_service.go:165-175 | Over every run an item ordered on a company's stay is billed, on that company's invoice, exactly if the company had one then and the line was not lost |
| Opening.OpenedIsInOrder | migrations/000007_create_bookings.up.sql:1-16 | A lodge with nothing booked yet meets what every theorem over its runs asks of the first state |
| Assigner.Fewest | internal/repository/user_repository.go:364-407 | The least loaded active user of the role, the most senior among equals, or there is none |
| Assigner.AssigneeFrom | internal/services/workflow_service.go:328-343 | The least loaded of the first role whose query is answered with anybody, or no role has such an answer |
| Assigner.SomebodyIsFoundIff | internal/services/workflow_service.go:328-343 | With every query answered, somebody is found if and only if some role has an active user |
| Assigner.PeakRisesOnlyFromEven | internal/repository/user_repository.go:364-407 | An assignment raises the highest load if and only if all candidates were equally loaded, completions or not |
| Assigner.FairShares | internal/repository/user_repository.go:364-407 | From equal loads, k assignments give each of n candidates k/n tasks rounded down or up |
| WorkflowSteps.FirstAction | internal/repository/workflow_repository.go:595-630 | A transition out of an initial step to the step of lowest order, or there is none |
| WorkflowSteps.ActiveTask | internal/repository/assigned_task_repository.go:41-55 | The newest active task of the instance, or it has none |
| Workflow.Engine.DetermineAssignee | internal/services/workflow_service.go:328-343 | The loop over roles passes over failed queries and empty roles alike and finds that user |
| Workflow.Engine.CheckPermission | internal/services/workflow_service.go:347-373 | Admits exactly the listed roles, and everybody when none is listed |
| Workflow.Engine.Initiate | internal/services/workflow_service.go:49-126 | Instance, task and log entry, write by write, with the earlier writes kept when a later one fails |
| Workflow.Engine.Resolve | internal/services/workflow_service.go:132-206 | Every refusal before the first write, in order, and the step the call leads to, the transitions read or not |
| Workflow.Engine.Finish | internal/services/workflow_service.go:226-250 | The closing writes: the instance completed, the booking told |
| Workflow.Engine.ProcessAction | internal/services/workflow_service.go:132-303 | The whole call, write by write, with any write and each unchecked read failing |
| WorkflowRuns.ActShape | internal/services/workflow_service.go:132-303 | A call does nothing, or moves one open instance along a transition or closes it in place, with or without its log entry |
| WorkflowRuns.NextKeepsOne | internal/repository/assigned_task_repository.go:22-74 | One call keeps at most one active task per instance exactly unless the unchecked read fails in a call that creates the next task |
| WorkflowRuns.TasksOverRuns | internal/services/workflow_service.go:215-269 | The same over every run, with any write failing at any point |
| WorkflowRuns.SecondTask | internal/services/workflow_service.go:219-224 | A concrete approval that leaves its instance with two active tasks |
| WorkflowRuns.StopsMeans | internal/services/workflow_service.go:49-303 | A call fails and leaves something behind exactly under a condition on the tables, the template and the faults that can be looked up before it |
| WorkflowRuns.StartWalks | internal/services/workflow_service.go:49-126 | After a start every history is a walk if and only if the start does not stop halfway |
| WorkflowRuns.ActWalks | internal/services/workflow_service.go:132-303 | After an action every history is a walk if and only if the call does not stop halfway |
| WorkflowRuns.WalksOverRuns | internal/repository/workflow_history_repository.go:23-94 | Over every run: each history is at every moment a connected walk, begun by the first action, advanced along transitions, with a self-loop exactly where it closed, if and only if no call stops halfway, which can be looked up before each |
| WorkflowRuns.HalfwayBreaksTheLog | internal/services/workflow_service.go:278-302 | The smallest case: an approval whose log entry cannot be written has moved the instance |
| WorkflowRuns.StoppedReads | internal/services/workflow_service.go:215-250 | An instance a closing call stopped at reads rejected exactly if it was a rejection whose completion is missing, otherwise completed |
| WorkflowTasks.LoadIsWaiting | internal/repository/user_repository.go:364-407 | The load compared is the number of tasks waiting for the user |
| WorkflowTasks.StartAssigns | internal/services/workflow_service.go:88-126 | The task of a started instance goes to an active user of the organisation: of the first listed role that was asked for and has anybody, the one with the fewest tasks waiting, the most senior among equals |
| WorkflowTasks.ActAssigns | internal/services/workflow_service.go:215-275 | An action completes the newest active task and no other, and the task it creates goes to that user by the roles of the transition taken, counted after the old task is done |
| WorkflowTasks.StartIsGrantedIff | internal/services/workflow_service.go:49-126 | Nothing failing, a start goes through exactly if there is a first action and somebody serves in one of its roles |
| WorkflowTasks.BusiestOverRuns | internal/services/workflow_service.go:328-343 | Over every run, whatever fails, nobody of a role ever has more than so many tasks waiting if and only if the role never has more waiting in all than that many for each |
| WorkflowRuns.ClosedRefuses | internal/services/workflow_service.go:143-160 | A closed instance refuses every action and nothing changes |
| WorkflowRuns.ClosedForever | internal/services/workflow_service.go:143-160 | Over every run a closed instance and its history stay as they are |
| WorkflowOutcomes.OrderOverRuns | internal/services/workflow_service.go:215-302 | Over runs of complete calls: an open instance has exactly one active task, for its current step, a closed one none; histories are walks; bookings are what the closing log entries say |
| WorkflowOutcomes.OneVerdict | internal/services/workflow_service.go:226-250 | Over every run, whatever fails: an entry that closed an instance is a decision and the last entry that instance has, so none speaks for its booking twice, and the instance is closed |
| WorkflowOutcomes.ApprovalsClose | internal/repository/workflow_repository.go:332-354 | On a rising template, in any run with any other calls and faults in between, an instance is closed once as many approvals of it went through as there are steps, whichever transition was listed first |
| WorkflowOutcomes.ActionIsAdmittedIff | internal/services/workflow_service.go:132-206 | An action passes its checks exactly if it approves or rejects an instance of the organisation in progress, has somewhere to go or closes it, and the performer has one of the roles listed first, if any are |
| WorkflowOutcomes.ActionRefusalIsTrue | internal/services/workflow_service.go:132-206 | Each refusal names something that is the case |
| WorkflowOutcomes.ApprovalIsGrantedIff | internal/services/workflow_service.go:132-303 | An approval goes through if and only if the performer may act on the transition listed first and, unless the step is final, somebody can take the next task |
| WorkflowOutcomes.RejectionIsGrantedIff | internal/services/workflow_service.go:132-303 | A rejection goes through if and only if the performer may act on the transition listed first, or there is none or it cannot be read; the instance then reads completed and its booking is cancelled |
| WorkflowOutcomes.AnybodyMayReject | internal/services/workflow_service.go:170-177 | The smallest case: somebody without a role rejects while the transitions cannot be read |
| PasswordRules.ValidateComplexity | internal/services/password_policy_service.go:205-245 | The classes named as missing, in order; none exactly if every demanded class occurs |
| PasswordRules.Shuffle | internal/utils/password/generator.go:98-105 | The in-place shuffle permutes, whatever is drawn |
| PasswordRules.Fill | internal/utils/password/generator.go:84-93 | As many characters as asked for, all from the alphabet |
| PasswordRules.Required | internal/utils/password/generator.go:42-78 | At most four characters, one of every class asked for, all in the charset |
| PasswordRules.GeneratePassword | internal/utils/password/generator.go:34-108 | Whatever is drawn: length max(6, asked), every class asked for, nothing from outside the alphabet; no password only if a draw failed |
| PasswordHistory.User.Register | internal/services/user_service.go:36-102 | A first password passes the policy or nothing is stored |
| PasswordHistory.User.Validate | internal/services/password_policy_service.go:173-202 | Length, complexity, current password, last ten, in that order; the last passed over when the history cannot be read |
| PasswordHistory.User.Record | internal/repositories/password_history_repository.go:21-77 | Insert, then keep the newest ten |
| PasswordHistory.User.ChangePassword | internal/services/user_service.go:426-470 | The answer, and the password and history afterwards |
| PasswordHistory.User.UpdateUserFull | internal/services/user_service.go:285-370 | The same for an administrator's edit; an empty password leaves it alone; the history is written before the row, which may fail |
| PasswordHistory.User.ResetPassword | internal/services/user_service.go:472-524 | A temporary password, recorded but not validated |
| PasswordHistory.HistoryIsTheLastTen | internal/repositories/password_history_repository.go:32-77 | Over every run the stored history is the last ten passwords recorded, newest first, and the password in force is the newest ever recorded that was also stored |
| PasswordHistory.NewestIsCurrentIff | internal/services/user_service.go:285-370 | The newest entry of the history is the password in force if and only if it was stored |
| PasswordHistory.RetryIsRefusedIff | internal/services/user_service.go:337-370 | After an edit whose row could not be written, the same edit is refused as a reuse if and only if the history can be read |
| PasswordHistory.NeverHadButReused | internal/services/user_service.go:337-370 | The smallest case: the edit fails, is repeated, and is refused |
| PasswordHistory.ValidatedPasswordsAreFresh | internal/services/password_policy_service.go:173-202 | Over every run each validated password meets the policy and is not the one in force before it; if the history could be read it differs from the ten before it |
| PasswordHistory.ElevenInARow | internal/services/password_policy_service.go:173-202 | Any eleven passwords in a row, none reset and each checked against the history, are pairwise different |
| PasswordHistory.ChangeIsAcceptedIff | internal/services/password_policy_service.go:173-202 | After any run a new password is accepted exactly if the old one given is right, the new one is long and complex enough, is not the one in force, and, the history being readable, is none of the last ten |
| PasswordHistory.RefusalIsTrue | internal/services/password_policy_service.go:173-202 | Each refusal names something that is the case |
| PasswordHistory.CallLeaves | internal/repositories/password_history_repository.go:21-77 | A reset always, a change or edit if accepted, puts its password in front of at most ten, and into the row if the user has an organisation and the row can be written; any other call changes nothing |
| PasswordHistory.UnreadHistoryAllowsReuse | internal/services/password_policy_service.go:191-199 | The smallest case: back to the first password after two changes |
| PolicyCache.PolicyService.GetByOrg | internal/repositories/password_policy_repository.go:47-73 | A new object holding the organisation's row, else the global one, or none if the read fails |
| PolicyCache.PolicyService.GetPolicy | internal/services/password_policy_service.go:61-74 | Cache, then table, then startup policy; no object handed out earlier is written |
| PolicyCache.PolicyService.Apply | internal/services/password_policy_service.go:90-132 | Every named field written in place, the first of two names winning |
| PolicyCache.PolicyService.UpsertPolicy | internal/services/password_policy_service.go:77-144 | Answer, row and cache; a rejected update changes neither, and no policy object anybody holds |
| PolicyCache.PolicyService.Generate | internal/handlers/password_policy_handler.go:103-127 | A password generated for an organisation passes the validator under the policy answered for it, and has its length |
| PolicyCache.RunKeepsSane | internal/services/password_policy_service.go:32-170 | Over every run of reads, updates and restarts with any faults, cached means stored, and every policy in play is in range |
| PolicyCache.AnswersOverRuns | internal/services/password_policy_service.go:61-74 | The answer after any run is in range, and is the stored effective policy if and only if that is cached, readable, or the startup policy |
| PolicyCache.AcceptedPolicyIsInForce | internal/services/password_policy_service.go:77-144 | An accepted policy is answered from then on, through faults and other organisations' calls, if and only if it belongs to an organisation or changed nothing |
| PolicyCache.UnmentionedFieldsSurviveIff | internal/services/password_policy_service.go:77-89 | An update keeps the fields it does not mention if and only if the row could be read or the startup policy agrees on them |
| PolicyCache.FailedReadResetsTheRest | internal/services/password_policy_service.go:77-89 | The smallest case: asking for a longer password relaxes the lockout |
| PolicyCache.UpdateIsAcceptedIff | internal/services/password_policy_service.go:77-170 | The one policy with every value the request names, the first of two names winning, and elsewhere those read or of the startup policy, is stored and cached exactly if it is in range and the write goes through |
| PolicyCache.NamedFieldsAreInForce | internal/services/password_policy_service.go:77-144 | Over runs, what an organisation's accepted request named is answered from then on, field by field |
| PolicyCache.OnceReadIsKept | internal/services/password_policy_service.go:61-74 | What was once read for an organisation is answered from then on while every read fails |
| PolicyCache.RestartLeaves | internal/services/password_policy_service.go:32-58 | After a restart the cache is empty and the startup policy is the global one, or the one built in |
| Lockout.LoginGuard.LoginWithOrg | internal/services/user_service.go:147-191 | Answer and stored row of one login, an expired password and a lost update included |
| Lockout.LoginGuard.LockUser | internal/services/user_service.go:405-413 | The administrator's lock |
| Lockout.LoginGuard.UnlockUser | internal/services/user_service.go:415-424 | Counter and both locks cleared |
| Lockout.LoginGuard.ResetPassword | internal/services/user_service.go:472-510 | A new password and expiry, counter and both locks cleared |
| Lockout.RowRemembers | internal/services/user_service.go:161-172 | Over a run of failures the row holds the number of those stored and, from the limit on, the end of the lock |
| Lockout.ComparedIsStoredIff | internal/services/user_service.go:161-172 | All failed comparisons are stored if and only if the user has an organisation and no update got lost |
| Lockout.GuessingIsSlow | internal/services/password_policy_service.go:295-321 | The k-th stored failed comparison comes no earlier than (k - M) lockouts after the M-th |
| Lockout.LockedMeansNoComparison | internal/services/password_policy_service.go:295-311 | While a lock lasts nothing is compared and nothing changes |
| Lockout.WithoutOrgEveryGuessCounts | internal/repository/user_repository.go:235-249 | For a user without an organisation every wrong guess is compared and none is stored |
| Lockout.AnswerMeans | internal/services/user_service.go:147-191 | Which of the six answers a login gets: welcome exactly if the account is active, neither lock holds, the password is right and has not expired |
| Lockout.CounterOverRuns | internal/services/user_service.go:161-179 | Over any run of logins, locks, unlocks and resets: the counter is the number of counted failures since the last counted success, unlock or reset, and a timed lock is there, to the end of the last one's lockout, exactly if they reached the limit and no administrator's lock took its place |
| Lockout.PasswordOverRuns | internal/services/user_service.go:472-510 | Over any run password and expiry are those of the last reset that reached the row |
| Lockout.SuccessStartsOver | internal/services/user_service.go:176-179 | The smallest case: a right password in between, and the next wrong one is the first |

## Left out

- ValidateComplexity: does not model characters outside ASCII, which the source classifies by Unicode tables and whose bytes it counts for the length; here they belong to no class and count one.
- HTTP handlers, routes, JWT, configuration, e-mail, documents and audit trails: plumbing around the calls modelled here.
- SQL text, scanning and NULL handling: each query is its meaning on the tables. The glued column list of the policy queries is covered by reads that may fail.
- Floating point noise and the range of NUMERIC(10,2): amounts are exact non-negative cents of any size, rounded half up.
- Concurrency between requests: a service call is one step. Only calls that are not transactions stop between writes.
- Time zones, and the difference between Go's and the database's clock: one day number or one instant per call. Neither need be nondecreasing.
- The order of rows with equal keys: items of one call are billed in request order (the source sorts by creation time, which is equal for them), a first action is the first listed among transitions to the same step, users of one load are taken by seniority without ties, and the log is read in insertion order. What is proved line for line holds in the source up to the order of the items of one call.
- Reading a stored row back only for the answer, as after a booking is stored or edited; where billing depends on it (orders) it is modelled.
- bcrypt: a hash is modelled by the password it accepts.
- Failures while recording a password in the history, and two history rows with the same creation time.
- Login across several organisations (`GetAllByEmail`), sessions and tokens: a login here is for one found account.
- Lockout limits and the password policy are fixed during the runs of `Lockout` and `PasswordHistory`; how they change is `PolicyCache`.
- Choosing a workflow by type, editing templates, cancelling an instance: one fixed template per run.
- Which orders of a company's guests a company's invoice shows: lines for orders reach it and are never taken off it in the model as in the source, but that they mirror the orders is only stated for a booking's own invoice.
- Room edits and new menu prices: rooms and menu stay as they are during a run. `ClearOverstayed` only clears a flag.
- `GenerateTemporaryPassword` and `durationUntilMidnight`: a random string and the wait until midnight, on which no table depends; a temporary password is a parameter of `ResetPassword`, and the job runs on whatever day it is called.
- Descriptions, booking numbers, special requests, policy ids and timestamps: no property depends on them.
- Meal plans, menu editing, branches, organisations, the editing of clients, reviews, dashboards, and the HR helpers under `pkg/utils`: single-row reads and writes without a state machine, which no modelled call reads beyond the rows given to it.
