/** Runs of service calls: when no room is ever promised twice. */
module BookingRuns {
  import opened Prelude
  import opened Schema
  import opened Reservations
  import opened Billing
  import opened LodgeSteps
  import opened Runs

  /** The three calls that do not look before they write, and what a caller would have to look at.
      Every other call is safe as it is. */
  ghost predicate SafeStep(db: Db, op: Op) {
    match op
    case CreateCorporate(org, batch, _, f, _) =>
      BatchError(db, org, batch, f).None? ==> PairwiseApart(batch.guests, |batch.guests|)
    case OverdueJob(orgs, today, faults) =>
      !Blocked(db.bookings, Overdue(db.bookings, orgs, today) - faults.extend, today)
    case WorkflowOutcome(org, id, approved) =>
      approved && InOrg(db.bookings, org, id) && !Active(db.bookings[id].status) ==>
        RoomAvailable(db.bookings, db.bookings[id].room, db.bookings[id].checkIn, db.bookings[id].checkOut, Some(id))
    case _ => true
  }

  lemma IndividualStep(db: Db, org: Id, q: StayRequest, f: StayFaults)
    requires Numbered(db)
    ensures Numbered(AfterIndividual(db, org, q, f))
    ensures Sound(db.bookings) ==> Sound(AfterIndividual(db, org, q, f).bookings)
  {
    if Sound(db.bookings) && IndividualError(db, org, q, f).None? {
      AcceptedStayKeepsSound(WithClient(db, org, q.client), Stay(org, ClientId(db, q.client), None, q));
    }
  }

  lemma GuestStep(db: Db, profile: Option<Id>, q: StayRequest, f: GuestFaults)
    requires Numbered(db)
    ensures Numbered(AfterGuest(db, profile, q, f))
    ensures Sound(db.bookings) ==> Sound(AfterGuest(db, profile, q, f).bookings)
  {
    if Sound(db.bookings) && GuestError(db, profile, q, f).None? {
      AcceptedStayKeepsSound(db, Stay(db.rooms[q.room].org, profile.value, None, q));
    }
  }

  lemma CompanyInvoiceAlone(db: Db, org: Id, company: Id, ids: seq<Id>, year: nat, f: InvoiceFaults)
    ensures var after := AfterGenerateCompany(db, org, company, ids, year, f);
      after == db.(invoices := after.invoices)
  {}

  lemma BatchBookings(db: Db, org: Id, q: BatchRequest, year: nat, f: BatchFaults, g: InvoiceFaults)
    ensures var after := AfterCorporate(db, org, q, year, f, g);
      after == AfterBatch(db, org, q, f).(invoices := after.invoices)
  {
    if BatchError(db, org, q, f).None? {
      CompanyInvoiceAlone(WithBatch(db, org, q), org, ClientId(db, q.company), BatchIds(db, org, q), year, g);
    }
  }

  lemma BatchStep(db: Db, org: Id, q: BatchRequest, year: nat, f: BatchFaults, g: InvoiceFaults)
    requires Numbered(db)
    ensures Numbered(AfterCorporate(db, org, q, year, f, g))
    ensures Sound(db.bookings) ==>
      (Sound(AfterCorporate(db, org, q, year, f, g).bookings) <==>
        (BatchError(db, org, q, f).None? ==> PairwiseApart(q.guests, |q.guests|)))
  {
    BatchBookings(db, org, q, year, f, g);
    if Sound(db.bookings) { BatchKeepsSoundIffApart(db, org, q, f); }
    BatchAddsExactlyItsGuests(WithCompany(db, org, q.company), org, ClientId(db, q.company), q.guests, |q.guests|);
  }

  lemma UpdateStep(db: Db, org: Id, id: Id, e: Edit, today: int, f: EditFaults)
    requires Numbered(db)
    ensures Numbered(AfterUpdate(db, org, id, e, today, f))
    ensures Sound(db.bookings) ==> Sound(AfterUpdate(db, org, id, e, today, f).bookings)
  {
    if Sound(db.bookings) && UpdateError(db.bookings, org, id, e).None? { EditKeepsSound(db.bookings, org, id, e); }
  }

  lemma StatusWriteKeepsSound(bs: Bookings, id: Id, to: Status)
    requires Sound(bs) && id in bs && to in Transitions(bs[id].status)
    ensures Sound(Restated(bs, id, to))
  {
    TransitionsOnlyWindDown(bs[id].status, to);
    RestatingIsExact(bs, id, to);
  }

  lemma StatusStep(db: Db, org: Id, id: Id, to: Status, year: nat, f: StatusFaults)
    requires Numbered(db)
    ensures Numbered(AfterStatus(db, org, id, to, year, f))
    ensures Sound(db.bookings) ==> Sound(AfterStatus(db, org, id, to, year, f).bookings)
  {
    if Sound(db.bookings) && StatusError(db.bookings, org, id, to).None? { StatusWriteKeepsSound(db.bookings, id, to); }
  }

  lemma CancelStep(db: Db, client: Id, id: Id)
    requires Numbered(db)
    ensures Numbered(AfterCancel(db, client, id))
    ensures Sound(db.bookings) ==> Sound(AfterCancel(db, client, id).bookings)
  {
    if Sound(db.bookings) && CancelError(db, client, id).None? { StatusWriteKeepsSound(db.bookings, id, Cancelled); }
  }

  lemma DeleteStep(db: Db, org: Id, id: Id)
    requires Numbered(db)
    ensures Numbered(AfterDelete(db, org, id))
    ensures Sound(db.bookings) ==> Sound(AfterDelete(db, org, id).bookings)
  {
    if Sound(db.bookings) { ExclusiveShrinks(db.bookings, {id}); }
  }

  lemma JobStep(db: Db, orgs: set<Id>, today: int, faults: JobFaults)
    requires Numbered(db)
    ensures Numbered(AfterOverdue(db, orgs, today, faults))
    ensures Sound(db.bookings) ==> (Sound(AfterOverdue(db, orgs, today, faults).bookings) <==>
      !Blocked(db.bookings, Overdue(db.bookings, orgs, today) - faults.extend, today))
  {
    var ids := Overdue(db.bookings, orgs, today) - faults.extend;
    if Sound(db.bookings) { StretchIsExact(db.bookings, ids, ids - faults.mark, orgs, today); }
  }

  predicate OrderOp(op: Op) {
    op.PlaceOrder? || op.PlaceWalkIn? || op.AddItems? || op.RemoveItem? || op.CloseAllOrders?
  }

  ghost predicate SameStays(db: Db, after: Db) {
    && after.bookings == db.bookings && after.individuals == db.individuals && after.rooms == db.rooms
    && after.next >= db.next
  }

  lemma BillingLeavesBookingsAlone(db: Db, org: Id, booking: Option<Id>, its: seq<Item>, f: OrderFaults)
    ensures SameStays(db, AfterBilling(db, org, booking, its, f))
  {}

  lemma ArrivalsLeaveBookingsAlone(
      db: Db, org: Id, booking: Id, order: nat, wanted: seq<ItemRequest>, today: int, f: OrderFaults)
    ensures SameStays(db, AfterPlace(db, org, booking, wanted, today, f))
    ensures SameStays(db, AfterWalkIn(db, org, wanted, today, f))
    ensures SameStays(db, AfterAdd(db, org, order, wanted, f))
  {
    if PlaceOrderError(db, org, booking, wanted, f).None? {
      BillingLeavesBookingsAlone(WithOrder(db, org, Some(booking), wanted, today), org, Some(booking),
        NewItems(db.menu, org, |db.orders|, db.next, wanted, |wanted|), f);
    }
    if AddError(db, org, order, wanted, f).None? {
      BillingLeavesBookingsAlone(WithItems(db, org, order, wanted), org, db.orders[order].booking,
        NewItems(db.menu, org, order, db.next, wanted, |wanted|), f);
    }
  }

  lemma RemovalLeavesBookingsAlone(db: Db, org: Id, order: nat, item: Id)
    ensures SameStays(db, AfterRemove(db, org, order, item))
  {}

  lemma OrdersLeaveBookingsAlone(db: Db, op: Op)
    requires OrderOp(op)
    ensures SameStays(db, Step(db, op))
  {
    match op
    case PlaceOrder(org, booking, wanted, today, f) =>
      ArrivalsLeaveBookingsAlone(db, org, booking, 0, wanted, today, f);
    case PlaceWalkIn(org, wanted, today, f) => ArrivalsLeaveBookingsAlone(db, org, 0, 0, wanted, today, f);
    case AddItems(org, order, wanted, f) => ArrivalsLeaveBookingsAlone(db, org, 0, order, wanted, 0, f);
    case RemoveItem(org, order, item) => RemovalLeavesBookingsAlone(db, org, order, item);
    case _ =>
  }

  /** Ids stay fresh, and from a sound database one call leaves a sound one exactly when it is safe. */
  lemma StepIsExact(db: Db, op: Op)
    requires Numbered(db)
    ensures Numbered(Step(db, op))
    ensures Sound(db.bookings) ==> (Sound(Step(db, op).bookings) <==> SafeStep(db, op))
  {
    if OrderOp(op) {
      OrdersLeaveBookingsAlone(db, op);
    } else {
      match op {
        case CreateIndividual(org, q, f) => IndividualStep(db, org, q, f);
        case GuestCreate(profile, q, f) => GuestStep(db, profile, q, f);
        case CreateCorporate(org, batch, year, f, g) => BatchStep(db, org, batch, year, f, g);
        case UpdateBooking(org, id, edit, today, f) => UpdateStep(db, org, id, edit, today, f);
        case UpdateStatus(org, id, to, year, f) => StatusStep(db, org, id, to, year, f);
        case GuestCancel(client, id) => CancelStep(db, client, id);
        case DeleteBooking(org, id) => DeleteStep(db, org, id);
        case WorkflowOutcome(org, id, approved) =>
          if Sound(db.bookings) { OutcomeIsExact(db.bookings, org, id, approved); }
        case OverdueJob(orgs, today, faults) => JobStep(db, orgs, today, faults);
        case _ =>
      }
    }
  }

  /** Over every run: no room is promised twice at any moment if and only if every call of the run
      was safe when it was made. In particular a run without corporate batches, nightly extensions
      and workflow outcomes never double-books, and a workflow outcome on a booking that still holds
      its room never does. */
  lemma RunIsExact(db: Db, ops: seq<Op>)
    requires Numbered(db) && Sound(db.bookings)
    ensures GoodThroughout(Step, db, ops, (s: Db) => Sound(s.bookings), |ops|)
      <==> SafeThroughout(Step, db, ops, (s, o) => SafeStep(s, o), |ops|)
  {
    forall s, o | Numbered(s)
      ensures Numbered(Step(s, o)) && (Sound(s.bookings) ==> (Sound(Step(s, o).bookings) <==> SafeStep(s, o)))
    { StepIsExact(s, o); }
    GoodIffSafe(Step, db, ops, s => Numbered(s), (s: Db) => Sound(s.bookings), (s, o) => SafeStep(s, o), |ops|);
  }

  predicate LooksFirst(op: Op) { !op.CreateCorporate? && !op.OverdueJob? && !op.WorkflowOutcome? }

  lemma {:induction false} PlainRunsStaySound(db: Db, ops: seq<Op>, n: nat)
    requires n <= |ops| && Numbered(db) && Sound(db.bookings)
    requires forall op | op in ops :: LooksFirst(op)
    ensures Numbered(At(Step, db, ops, n)) && Sound(At(Step, db, ops, n).bookings)
  {
    if n > 0 {
      PlainRunsStaySound(db, ops, n - 1);
      StepIsExact(At(Step, db, ops, n - 1), ops[n - 1]);
      assert LooksFirst(ops[n - 1]);
    }
  }

  /** The plain reading: individual and guest bookings, edits, status changes, cancellations,
      deletions and orders, in any number and order, never put two parties in a room for a night. */
  lemma PlainRunsNeverDoubleBook(db: Db, ops: seq<Op>, room: Id, night: int, i: Id, j: Id)
    requires Numbered(db) && Sound(db.bookings)
    requires forall op | op in ops :: LooksFirst(op)
    requires i in Occupants(At(Step, db, ops, |ops|).bookings, room, night)
    requires j in Occupants(At(Step, db, ops, |ops|).bookings, room, night)
    ensures i == j
  {
    PlainRunsStaySound(db, ops, |ops|);
    ExclusiveMeansOnePartyPerNight(At(Step, db, ops, |ops|).bookings);
  }

  // ---------- a released room is not taken back ----------

  /** Rows that are still there keep their room, organisation and company; none becomes pending
      again; and a stay that released its room has not got it back. */
  ghost predicate WindsDown(before: Bookings, after: Bookings) {
    forall i | i in before && i in after ::
      && after[i].org == before[i].org && after[i].room == before[i].room && after[i].company == before[i].company
      && (after[i].status == Pending ==> before[i].status == Pending)
      && (Active(after[i].status) ==> Active(before[i].status))
  }

  lemma UpdateWindsDown(db: Db, org: Id, id: Id, e: Edit, today: int, f: EditFaults)
    ensures WindsDown(db.bookings, AfterUpdate(db, org, id, e, today, f).bookings)
  {
    var after := AfterUpdate(db, org, id, e, today, f).bookings;
    assert after == db.bookings || (id in db.bookings && after == db.bookings[id := Edited(db.bookings[id], e)]);
  }

  lemma StatusWindsDown(db: Db, org: Id, id: Id, to: Status, year: nat, f: StatusFaults)
    ensures WindsDown(db.bookings, AfterStatus(db, org, id, to, year, f).bookings)
  {
    var after := AfterStatus(db, org, id, to, year, f).bookings;
    if StatusError(db.bookings, org, id, to).None? {
      TransitionsOnlyWindDown(db.bookings[id].status, to);
      assert after == db.bookings || after == Restated(db.bookings, id, to);
    }
  }

  lemma RowsKeptWindDown(before: Bookings, after: Bookings)
    requires forall i | i in before :: i in after && after[i] == before[i]
    ensures WindsDown(before, after)
  {}

  lemma BatchWindsDown(db: Db, org: Id, q: BatchRequest, year: nat, f: BatchFaults, g: InvoiceFaults)
    requires Numbered(db)
    ensures WindsDown(db.bookings, AfterCorporate(db, org, q, year, f, g).bookings)
  {
    BatchBookings(db, org, q, year, f, g);
    BatchAddsExactlyItsGuests(WithCompany(db, org, q.company), org, ClientId(db, q.company), q.guests, |q.guests|);
    RowsKeptWindDown(db.bookings, AfterCorporate(db, org, q, year, f, g).bookings);
  }

  lemma NewStaysWindDown(db: Db, org: Id, profile: Option<Id>, q: StayRequest, f: StayFaults, g: GuestFaults)
    requires Numbered(db)
    ensures WindsDown(db.bookings, AfterIndividual(db, org, q, f).bookings)
    ensures WindsDown(db.bookings, AfterGuest(db, profile, q, g).bookings)
  {}

  lemma JobWindsDown(db: Db, orgs: set<Id>, today: int, faults: JobFaults)
    ensures WindsDown(db.bookings, AfterOverdue(db, orgs, today, faults).bookings)
  {}

  lemma CancelWindsDown(db: Db, client: Id, id: Id)
    ensures WindsDown(db.bookings, AfterCancel(db, client, id).bookings)
  {
    if CancelError(db, client, id).None? { TransitionsOnlyWindDown(db.bookings[id].status, Cancelled); }
  }

  lemma DeleteWindsDown(db: Db, org: Id, id: Id)
    ensures WindsDown(db.bookings, AfterDelete(db, org, id).bookings)
  {}

  lemma OnlyOutcomesRevive(db: Db, op: Op)
    requires Numbered(db) && !op.WorkflowOutcome?
    ensures WindsDown(db.bookings, Step(db, op).bookings)
  {
    if OrderOp(op) {
      OrdersLeaveBookingsAlone(db, op);
    } else {
      match op {
        case CreateIndividual(org, q, f) => NewStaysWindDown(db, org, None, q, f, GuestFaults(false, false));
        case GuestCreate(profile, q, f) => NewStaysWindDown(db, 0, profile, q, StayFaults(false, false), f);
        case CreateCorporate(org, batch, year, f, g) => BatchWindsDown(db, org, batch, year, f, g);
        case UpdateBooking(org, id, edit, today, f) => UpdateWindsDown(db, org, id, edit, today, f);
        case UpdateStatus(org, id, to, year, f) => StatusWindsDown(db, org, id, to, year, f);
        case OverdueJob(orgs, today, faults) => JobWindsDown(db, orgs, today, faults);
        case GuestCancel(client, id) => CancelWindsDown(db, client, id);
        case DeleteBooking(org, id) => DeleteWindsDown(db, org, id);
      }
    }
  }

  // ---------- the nightly job ----------

  /** The job touches bookings and due dates: not one invoice amount or line moves with the stay. */
  lemma JobLeavesChargesAlone(db: Db, orgs: set<Id>, today: int, faults: JobFaults)
    ensures var after := AfterOverdue(db, orgs, today, faults);
      && |after.invoices| == |db.invoices|
      && (forall k | 0 <= k < |db.invoices| :: after.invoices[k] == db.invoices[k].(due := after.invoices[k].due))
      && after.(bookings := db.bookings, invoices := db.invoices) == db
  {}

  /** If every write of tonight's run went through, running it again changes nothing at all. */
  lemma SecondRunIsIdle(db: Db, orgs: set<Id>, today: int)
    requires forall i | i in db.bookings :: Storable(db.bookings[i])
    ensures var once := AfterOverdue(db, orgs, today, JobFaults({}, {}, {}));
      AfterOverdue(once, orgs, today, JobFaults({}, {}, {})) == once
  {
    var ids := Overdue(db.bookings, orgs, today);
    StretchOnlyLengthens(db.bookings, ids, ids, orgs, today);
    var once := AfterOverdue(db, orgs, today, JobFaults({}, {}, {}));
    assert Stretched(once.bookings, {}, {}, today) == once.bookings;
    assert Each(once.invoices, Redated(once.bookings, {}, today)) == once.invoices;
  }

  // ---------- the unsafe calls are unsafe ----------

  /** Room 7 at 50.00 for two, with these stays. */
  function Lodging(bookings: Bookings): Db {
    Db(map[7 := Room(1, None, "double", 2, 5000, true)], map[], map[2 := 1], bookings, map[], [], [], [], 10)
  }

  function OneNighter(client: Id, checkIn: int, checkOut: int, status: Status): Booking {
    Booking(1, 7, client, None, checkIn, checkOut, 1, status, false)
  }

  /** Two guests, one room, the same nights, one request, nothing failing: accepted. */
  lemma BatchCanDoubleBook()
    ensures var g := GuestRequest(New(true), 7, 100, 103);
      var db, q, f := Lodging(map[]), BatchRequest(Existing(2), [g, g]), BatchFaults(false, 3);
      && Numbered(db) && Sound(db.bookings)
      && BatchError(db, 1, q, f).None? && !Sound(AfterBatch(db, 1, q, f).bookings)
  {
    var db, g := Lodging(map[]), GuestRequest(New(true), 7, 100, 103);
    var q, f := BatchRequest(Existing(2), [g, g]), BatchFaults(false, 3);
    NoFirstError(q.guests, 2, (i: nat, g) => FieldError(g));
    NoFirstError(q.guests, 2, (i: nat, g) => PlaceError(db, 1, g));
    NoFirstError(q.guests, 2, (i: nat, g) => SaveError(db, 1, g, i, 3));
    BatchKeepsSoundIffApart(db, 1, q, f);
    assert !Apart(q.guests[0], q.guests[1]);
    assert BatchError(db, 1, q, f).None?;
  }

  lemma TwoStays(a: Booking, b: Booking)
    requires Storable(a) && Storable(b) && !Conflict(a, b) && !Conflict(b, a)
    ensures Numbered(Lodging(map[3 := a, 4 := b])) && Sound(map[3 := a, 4 := b])
  {}

  /** A guest who should have left on day 103 and one who is due on day 104: extending the first to
      day 105 puts both into the room on day 104. */
  lemma JobCanDoubleBook()
    ensures var db := Lodging(map[3 := OneNighter(5, 100, 103, CheckedIn), 4 := OneNighter(6, 104, 106, Confirmed)]);
      && Numbered(db) && Sound(db.bookings)
      && !Sound(AfterOverdue(db, {1}, 105, JobFaults({}, {}, {})).bookings)
  {
    var db := Lodging(map[3 := OneNighter(5, 100, 103, CheckedIn), 4 := OneNighter(6, 104, 106, Confirmed)]);
    TwoStays(db.bookings[3], db.bookings[4]);
    assert 3 in Overdue(db.bookings, {1}, 105) && Blocked(db.bookings, Overdue(db.bookings, {1}, 105), 105);
    JobStep(db, {1}, 105, JobFaults({}, {}, {}));
  }

  /** A cancelled stay whose nights went to somebody else, and an approval that arrives afterwards. */
  lemma OutcomeCanDoubleBook()
    ensures var db := Lodging(map[3 := OneNighter(5, 100, 103, Cancelled), 4 := OneNighter(6, 100, 103, Confirmed)]);
      && Numbered(db) && Sound(db.bookings)
      && !Sound(Step(db, WorkflowOutcome(1, 3, true)).bookings)
  {
    var db := Lodging(map[3 := OneNighter(5, 100, 103, Cancelled), 4 := OneNighter(6, 100, 103, Confirmed)]);
    TwoStays(db.bookings[3], db.bookings[4]);
    assert Holds(db.bookings[4], 7, 100, 103);
    OutcomeIsExact(db.bookings, 1, 3, true);
  }
}
