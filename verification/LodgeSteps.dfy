/** Every service call as one step on the whole database. */
module LodgeSteps {
  import opened Prelude
  import opened Schema
  import opened Reservations
  import opened Billing

  /** What fails of an edit or a status change: the write of the row; what follows for the invoice. */
  datatype EditFaults = EditFaults(write: bool, recharge: bool)
  datatype StatusFaults = StatusFaults(write: bool, invoice: InvoiceFaults)

  /** The answer when the row itself cannot be written. */
  function Unwritten(refusal: Option<Error>, write: bool): Option<Error> {
    if refusal.None? && write then Some(Database) else refusal
  }

  function AfterUpdate(db: Db, org: Id, id: Id, e: Edit, today: int, f: EditFaults): Db {
    if Unwritten(UpdateError(db.bookings, org, id, e), f.write).Some? then db
    else
      var stored := db.(bookings := db.bookings[id := Edited(db.bookings[id], e)]);
      if e.checkIn.Some? || e.checkOut.Some? then AfterRecharge(stored, org, id, today, f.recharge) else stored
  }

  /** Confirming an individual stay is what creates its invoice. */
  function AfterStatus(db: Db, org: Id, id: Id, to: Status, year: nat, f: StatusFaults): Db {
    if Unwritten(StatusError(db.bookings, org, id, to), f.write).Some? then db
    else
      var stored := db.(bookings := Restated(db.bookings, id, to));
      if to == Confirmed && db.bookings[id].company.None? then AfterGenerate(stored, org, id, year, f.invoice)
      else stored
  }

  function AfterCancel(db: Db, client: Id, id: Id): Db {
    if CancelError(db, client, id).Some? then db else db.(bookings := Restated(db.bookings, id, Cancelled))
  }

  /** invoices.booking_id is ON DELETE RESTRICT. */
  function DeleteError(db: Db, org: Id, id: Id): Option<Error> {
    if !InOrg(db.bookings, org, id) then Some(BookingNotFound)
    else if db.bookings[id].status == CheckedIn then Some(CheckedInCannotGo)
    else if exists inv | inv in db.invoices :: inv.booking == Some(id) then Some(StillInvoiced)
    else None
  }

  /** orders.booking_id and invoice_line_items.booking_id are ON DELETE SET NULL. */
  function Detached(id: Id): Order -> Order {
    (o: Order) => if o.booking == Some(id) then o.(booking := None) else o
  }

  function LineDetached(id: Id): Line -> Line {
    (l: Line) => if l.booking == Some(id) then l.(booking := None) else l
  }

  function LinesDetached(id: Id): Invoice -> Invoice {
    (inv: Invoice) => inv.(lines := Each(inv.lines, LineDetached(id)))
  }

  function AfterDelete(db: Db, org: Id, id: Id): Db {
    if DeleteError(db, org, id).Some? then db
    else db.(bookings := db.bookings - {id}, orders := Each(db.orders, Detached(id)),
             invoices := Each(db.invoices, LinesDetached(id)))
  }

  function AfterCorporate(db: Db, org: Id, q: BatchRequest, year: nat, f: BatchFaults, g: InvoiceFaults): Db {
    if BatchError(db, org, q, f).Some? then db
    else AfterGenerateCompany(WithBatch(db, org, q), org, ClientId(db, q.company), BatchIds(db, org, q), year, g)
  }

  /** Bookings whose row the database refuses to update, per statement of the job. */
  datatype JobFaults = JobFaults(extend: set<Id>, mark: set<Id>, due: set<Id>)

  function Redated(bs: Bookings, ids: set<Id>, today: int): Invoice -> Invoice {
    (inv: Invoice) =>
      if inv.booking.Some? && inv.booking.value in ids && InOrg(bs, inv.org, inv.booking.value)
      then inv.(due := Some(today)) else inv
  }

  function AfterOverdue(db: Db, orgs: set<Id>, today: int, faults: JobFaults): Db {
    var ids := Overdue(db.bookings, orgs, today) - faults.extend;
    db.(bookings := Stretched(db.bookings, ids, ids - faults.mark, today),
        invoices := Each(db.invoices, Redated(db.bookings, ids - faults.due, today)))
  }

  datatype Op =
    | CreateIndividual(org: Id, stay: StayRequest, sf: StayFaults)
    | GuestCreate(profile: Option<Id>, stay: StayRequest, gf: GuestFaults)
    | CreateCorporate(org: Id, batch: BatchRequest, year: nat, bf: BatchFaults, invf: InvoiceFaults)
    | UpdateBooking(org: Id, booking: Id, edit: Edit, today: int, ef: EditFaults)
    | UpdateStatus(org: Id, booking: Id, to: Status, year: nat, stf: StatusFaults)
    | GuestCancel(client: Id, booking: Id)
    | DeleteBooking(org: Id, booking: Id)
    | WorkflowOutcome(org: Id, booking: Id, approved: bool)
    | OverdueJob(orgs: set<Id>, today: int, faults: JobFaults)
    | PlaceOrder(org: Id, booking: Id, wanted: seq<ItemRequest>, today: int, of: OrderFaults)
    | PlaceWalkIn(org: Id, wanted: seq<ItemRequest>, today: int, of: OrderFaults)
    | AddItems(org: Id, order: nat, wanted: seq<ItemRequest>, of: OrderFaults)
    | RemoveItem(org: Id, order: nat, item: Id)
    | CloseAllOrders(org: Id, today: int)

  function Step(db: Db, op: Op): Db {
    match op
    case CreateIndividual(org, stay, f) => AfterIndividual(db, org, stay, f)
    case GuestCreate(profile, stay, f) => AfterGuest(db, profile, stay, f)
    case CreateCorporate(org, batch, year, f, g) => AfterCorporate(db, org, batch, year, f, g)
    case UpdateBooking(org, id, edit, today, f) => AfterUpdate(db, org, id, edit, today, f)
    case UpdateStatus(org, id, to, year, f) => AfterStatus(db, org, id, to, year, f)
    case GuestCancel(client, id) => AfterCancel(db, client, id)
    case DeleteBooking(org, id) => AfterDelete(db, org, id)
    case WorkflowOutcome(org, id, approved) => db.(bookings := OutcomeApplied(db.bookings, org, id, approved))
    case OverdueJob(orgs, today, faults) => AfterOverdue(db, orgs, today, faults)
    case PlaceOrder(org, booking, wanted, today, f) => AfterPlace(db, org, booking, wanted, today, f)
    case PlaceWalkIn(org, wanted, today, f) => AfterWalkIn(db, org, wanted, today, f)
    case AddItems(org, order, wanted, f) => AfterAdd(db, org, order, wanted, f)
    case RemoveItem(org, order, item) => AfterRemove(db, org, order, item)
    case CloseAllOrders(org, today) => AfterClose(db, org, today)
  }
}
